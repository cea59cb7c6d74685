/**
 * The desktop runtime service (crates/keli-desktop/src/service.rs): it stores a subscription and a
 * selection, and must keep them coupled to the managed core while that runs.
 */
module DesktopService {
  import opened Wrappers
  import opened Subscription
  import opened Runtime
  import opened ManagedCore
  import opened DesktopStatus

  datatype ServiceState = ServiceState(
    core: Core, config: Option<string>, selected: Option<string>, mode: TrafficMode, listen: string, hasTun: bool)

  datatype ServiceError = Client(error: ClientError) | Managed

  function Fresh(hasTun: bool): ServiceState {
    ServiceState(IDLE, None, None, MixedInboundOnly, "127.0.0.1:7890", hasTun)
  }

  /** `DesktopSubscriptionSummary`, as far as the service itself looks at it. */
  datatype Summary = Summary(tags: seq<string>, selected: Option<string>)

  /** `from_preflight`: without a selection the default outbound is shown. */
  function SummaryOf(p: Preflight, selected: Option<string>): Summary {
    Summary(p.supportedTags, OrElse(selected, p.defaultOutbound))
  }

  /** `from_managed` of the running core's plan. */
  function CoreSummary(c: Core): Option<Summary> {
    if c.handle.Some? && c.handle.value.runtime.activePlan.Some? then
      var plan := c.handle.value.runtime.activePlan.value;
      Some(Summary(plan.preflight.supportedTags, Some(plan.selectedOutbound)))
    else None
  }

  /** `status`: the core's, except that the stored mode is shown and the stored selection stands in. */
  function HostStatus(s: ServiceState): StatusSnapshot {
    var status := CoreStatus(s.core);
    status.(mode := s.mode, selected := OrElse(status.selected, s.selected))
  }

  // ---------------------------------------------------------------------
  // Operations
  // ---------------------------------------------------------------------

  /** `import_subscription_config`: stores the text and its default outbound, running or not. */
  function Import(parse: ConfigParser, s: ServiceState, text: string): (ServiceState, Result<Summary, ServiceError>) {
    match PreflightConfig(parse, text)
    case Err(e) => (s, Err(Client(e)))
    case Ok(report) =>
      (s.(config := Some(text), selected := report.defaultOutbound), Ok(SummaryOf(report, report.defaultOutbound)))
  }

  /** `select_node`: a running core is reloaded first, and the selection is stored only if that works. */
  function Select(parse: ConfigParser, s: ServiceState, tag: string, env: ReloadEnv)
    : (ServiceState, Result<Summary, ServiceError>)
  {
    if s.config.None? then (s, Err(Client(NoSupportedOutbounds)))
    else match PreflightConfig(parse, s.config.value)
      case Err(e) => (s, Err(Client(e)))
      case Ok(report) =>
        if tag !in report.supportedTags then (s, Err(Client(OutboundNotFound(tag))))
        else if s.core.handle.Some? then
          var (h, ok) := HandleReload(parse, s.core.handle.value, s.config.value, Some(tag), env);
          var reloaded := s.(core := s.core.(handle := Some(h)));
          if !ok then (reloaded, Err(Managed))
          else (reloaded.(selected := Some(tag)), Ok(SummaryOf(report, Some(tag))))
        else (s.(selected := Some(tag)), Ok(SummaryOf(report, Some(tag))))
  }

  /** `update_subscription_config`. */
  function Update(parse: ConfigParser, s: ServiceState, text: string, env: ReloadEnv)
    : (ServiceState, Result<Summary, ServiceError>)
  {
    if s.core.handle.Some? then
      var (h, outcome) := HandleUpdate(parse, s.core.handle.value, text, env);
      var updated := s.(core := s.core.(handle := Some(h)));
      if outcome.Rejected? then (updated, Err(Managed))
      else
        var stored := if outcome.applied then updated.(config := Some(text), selected := h.selectedOutbound) else updated;
        match UpdatedSummary(parse, updated.core, text, outcome.report)
        case Err(e) => (updated, Err(Client(e)))
        case Ok(summary) => (stored, Ok(summary))
    else match PreflightConfig(parse, text)
      case Err(e) => (s, Err(Client(e)))
      case Ok(latest) =>
        match PlanUpdate(parse, s.config, text, s.selected)
        case Err(e) => (s, Err(Client(e)))
        case Ok(report) =>
          (s.(config := Some(text), selected := report.plannedSelected), Ok(SummaryOf(latest, report.plannedSelected)))
  }

  /** `import_panel_config`: update or import, then select the panel's node if it is there and not selected. */
  function ImportPanel(parse: ConfigParser, s: ServiceState, server: string, text: string, env: ReloadEnv, env2: ReloadEnv)
    : (ServiceState, Result<Summary, ServiceError>)
  {
    var (t, r) := if IsRunning(s.core) then Update(parse, s, text, env) else Import(parse, s, text);
    if r.Err? then (t, r)
    else if server in r.value.tags && r.value.selected != Some(server) then Select(parse, t, server, env2)
    else (t, r)
  }

  /** `import_subscription_url`, given what was fetched; a failed fetch is no error but imports nothing. */
  function ImportUrl(parse: ConfigParser, s: ServiceState, fetched: Option<string>)
    : (ServiceState, Result<Option<Summary>, ServiceError>)
  {
    if IsRunning(s.core) then (s, Err(Managed))
    else if fetched.None? then (s, Ok(None))
    else
      var (t, r) := Import(parse, s, fetched.value);
      (t, if r.Ok? then Ok(Some(r.value)) else Err(r.error))
  }

  /** `DesktopSubscriptionUpdateSummary`. */
  datatype UpdateSummary = UpdateSummary(report: UpdateReport, subscription: Summary)

  /** `DesktopSubscriptionUrlUpdateSummary` without the fetch report and error texts. */
  datatype UrlUpdate = UrlUpdate(applied: bool, update: Option<UpdateSummary>, status: StatusSnapshot)

  /** The status a URL update reports: the core's under the stored mode. */
  function UrlStatus(s: ServiceState): StatusSnapshot { CoreStatus(s.core).(mode := s.mode) }

  /** `update_subscription_url`, given what was fetched: a rejected update is no error but changes nothing. */
  function UpdateUrl(parse: ConfigParser, s: ServiceState, fetched: Option<string>, env: ReloadEnv)
    : (ServiceState, Result<UrlUpdate, ServiceError>)
  {
    if s.core.handle.None? then (s, Err(Managed))
    else if fetched.None? then
      var h := s.core.handle.value;
      var rejected := Step(parse, h.runtime, RecordReloadRejected(ConfigInvalid(env.detail)));
      var noted := s.(core := s.core.(handle := Some(h.(runtime := Step(parse, rejected, RecordStatusNote(env.note))))));
      (noted, Ok(UrlUpdate(false, None, UrlStatus(noted))))
    else
      var (h, outcome) := HandleUpdate(parse, s.core.handle.value, fetched.value, env);
      var noted := h.(runtime := Step(parse, h.runtime, RecordStatusNote(env.note)));
      var updated := s.(core := s.core.(handle := Some(noted)));
      if outcome.Rejected? then (updated, Ok(UrlUpdate(false, None, UrlStatus(updated))))
      else
        match UpdatedSummary(parse, updated.core, fetched.value, outcome.report)
        case Err(e) => (updated, Err(Client(e)))
        case Ok(summary) =>
          var stored :=
            if outcome.applied then updated.(config := fetched, selected := noted.selectedOutbound) else updated;
          (stored, Ok(UrlUpdate(outcome.applied, Some(UpdateSummary(outcome.report, summary)), UrlStatus(stored))))
  }

  /** The summary after an update: the running core's, or one made from the new text. */
  function UpdatedSummary(parse: ConfigParser, c: Core, text: string, report: UpdateReport): Result<Summary, ClientError> {
    match CoreSummary(c)
    case Some(summary) => Ok(summary)
    case None =>
      match PreflightConfig(parse, text)
      case Err(e) => Err(e)
      case Ok(latest) => Ok(SummaryOf(latest, report.plannedSelected))
  }

  /** `refresh_node_health`: stores the selection the core reports. */
  function Refresh(parse: ConfigParser, s: ServiceState, notes: seq<string>, summary: string, diagnostic: string)
    : (ServiceState, Result<Summary, ServiceError>)
  {
    if s.core.handle.None? then (s, Err(Managed))
    else
      var (h, ok) := HandleProbe(parse, s.core.handle.value, notes, summary, diagnostic);
      if !ok then (s, Err(Managed))
      else
        var t := s.(core := s.core.(handle := Some(h)), selected := h.selectedOutbound);
        (t, match CoreSummary(t.core) case Some(shown) => Ok(shown) case None => Err(Managed))
  }

  /** `start`. */
  function StartService(parse: ConfigParser, s: ServiceState, env: StartEnv)
    : (ServiceState, Result<StatusSnapshot, ServiceError>)
  {
    if s.config.None? then (s, Err(Client(NoSupportedOutbounds)))
    else if s.mode == Tun && !s.hasTun then (s, Err(Managed))
    else
      var (c, ok) := CoreStart(parse, s.core, s.config.value, s.selected, s.mode, env);
      (s.(core := c), if ok then Ok(CoreStatus(c)) else Err(Managed))
  }

  /** `stop`. */
  function StopService(s: ServiceState, clean: bool): (ServiceState, Result<StatusSnapshot, ServiceError>) {
    if !IsRunning(s.core) then (s, Ok(HostStatus(s)))
    else
      var (c, ok) := CoreStop(s.core, clean);
      var t := s.(core := c);
      (t, if ok then Ok(HostStatus(t)) else Err(Managed))
  }

  /** `DesktopRuntimeService`: the same operations by updates in place. */
  class DesktopRuntimeService {
    const parse: ConfigParser
    var core: Core
    const hasTun: bool
    var subscriptionConfig: Option<string>
    var selectedOutbound: Option<string>
    var trafficMode: TrafficMode
    var listen: string

    function State(): ServiceState
      reads this
    {
      ServiceState(core, subscriptionConfig, selectedOutbound, trafficMode, listen, hasTun)
    }

    constructor (parse: ConfigParser, hasTun: bool)
      ensures this.parse == parse && State() == Fresh(hasTun)
    {
      this.parse, this.hasTun, core := parse, hasTun, IDLE;
      subscriptionConfig, selectedOutbound, trafficMode, listen := None, None, MixedInboundOnly, "127.0.0.1:7890";
    }

    method ImportSubscriptionConfig(text: string) returns (result: Result<Summary, ServiceError>)
      modifies this
      ensures (State(), result) == Import(parse, old(State()), text)
    {
      var report := PreflightConfig(parse, text);
      if report.Err? { return Err(Client(report.error)); }
      var chosen := report.value.defaultOutbound;
      subscriptionConfig := Some(text);
      selectedOutbound := chosen;
      result := Ok(SummaryOf(report.value, chosen));
    }

    method SelectNode(tag: string, env: ReloadEnv) returns (result: Result<Summary, ServiceError>)
      modifies this
      ensures (State(), result) == Select(parse, old(State()), tag, env)
    {
      hide HandleReload;
      if subscriptionConfig.None? { return Err(Client(NoSupportedOutbounds)); }
      var text := subscriptionConfig.value;
      var report := PreflightConfig(parse, text);
      if report.Err? { return Err(Client(report.error)); }
      var choice := SelectOutbound(report.value, Some(tag));
      if choice.Err? { return Err(Client(choice.error)); }
      if core.handle.Some? {
        var (h, ok) := HandleReload(parse, core.handle.value, text, Some(tag), env);
        core := core.(handle := Some(h));
        if !ok { return Err(Managed); }
      }
      selectedOutbound := Some(tag);
      result := Ok(SummaryOf(report.value, Some(tag)));
    }

    method UpdateSubscriptionConfig(text: string, env: ReloadEnv) returns (result: Result<Summary, ServiceError>)
      modifies this
      ensures (State(), result) == Update(parse, old(State()), text, env)
    {
      hide HandleUpdate, PlanUpdate;
      if core.handle.Some? {
        var (h, outcome) := HandleUpdate(parse, core.handle.value, text, env);
        core := core.(handle := Some(h));
        if outcome.Rejected? { return Err(Managed); }
        var summary := UpdatedSummary(parse, core, text, outcome.report);
        if summary.Err? { return Err(Client(summary.error)); }
        if outcome.applied {
          subscriptionConfig := Some(text);
          selectedOutbound := h.selectedOutbound;
        }
        return Ok(summary.value);
      }
      var preflight := PreflightConfig(parse, text);
      if preflight.Err? { return Err(Client(preflight.error)); }
      var report := PlanUpdate(parse, subscriptionConfig, text, selectedOutbound);
      if report.Err? { return Err(Client(report.error)); }
      subscriptionConfig := Some(text);
      selectedOutbound := report.value.plannedSelected;
      result := Ok(SummaryOf(preflight.value, report.value.plannedSelected));
    }

    method ImportPanelConfig(server: string, text: string, env: ReloadEnv, env2: ReloadEnv)
      returns (result: Result<Summary, ServiceError>)
      modifies this
      ensures (State(), result) == ImportPanel(parse, old(State()), server, text, env, env2)
    {
      hide Import, Update, Select;
      if IsRunning(core) {
        result := UpdateSubscriptionConfig(text, env);
      } else {
        result := ImportSubscriptionConfig(text);
      }
      if result.Err? { return; }
      if server in result.value.tags && result.value.selected != Some(server) {
        result := SelectNode(server, env2);
      }
    }

    method ImportSubscriptionUrl(fetched: Option<string>) returns (imported: Result<Option<Summary>, ServiceError>)
      modifies this
      ensures (State(), imported) == ImportUrl(parse, old(State()), fetched)
    {
      hide Import;
      if IsRunning(core) { return Err(Managed); }
      if fetched.None? { return Ok(None); }
      var summary := ImportSubscriptionConfig(fetched.value);
      imported := if summary.Ok? then Ok(Some(summary.value)) else Err(summary.error);
    }

    method UpdateSubscriptionUrl(fetched: Option<string>, env: ReloadEnv) returns (result: Result<UrlUpdate, ServiceError>)
      modifies this
      ensures (State(), result) == UpdateUrl(parse, old(State()), fetched, env)
    {
      hide HandleUpdate, Step, UpdatedSummary, CoreStatus;
      if core.handle.None? { return Err(Managed); }
      var h := core.handle.value;
      if fetched.None? {
        var rejected := Step(parse, h.runtime, RecordReloadRejected(ConfigInvalid(env.detail)));
        core := core.(handle := Some(h.(runtime := Step(parse, rejected, RecordStatusNote(env.note)))));
        return Ok(UrlUpdate(false, None, UrlStatus(State())));
      }
      var (updated, outcome) := HandleUpdate(parse, h, fetched.value, env);
      var noted := updated.(runtime := Step(parse, updated.runtime, RecordStatusNote(env.note)));
      core := core.(handle := Some(noted));
      if outcome.Rejected? { return Ok(UrlUpdate(false, None, UrlStatus(State()))); }
      var summary := UpdatedSummary(parse, core, fetched.value, outcome.report);
      if summary.Err? { return Err(Client(summary.error)); }
      if outcome.applied {
        subscriptionConfig := fetched;
        selectedOutbound := noted.selectedOutbound;
      }
      result := Ok(UrlUpdate(outcome.applied, Some(UpdateSummary(outcome.report, summary.value)), UrlStatus(State())));
    }

    method RefreshNodeHealth(notes: seq<string>, summary: string, diagnostic: string)
      returns (result: Result<Summary, ServiceError>)
      modifies this
      ensures (State(), result) == Refresh(parse, old(State()), notes, summary, diagnostic)
    {
      hide HandleProbe, CoreSummary;
      if core.handle.None? { return Err(Managed); }
      var (h, probed) := HandleProbe(parse, core.handle.value, notes, summary, diagnostic);
      if !probed { return Err(Managed); }
      core := core.(handle := Some(h));
      selectedOutbound := h.selectedOutbound;
      var shown := CoreSummary(core);
      result := if shown.Some? then Ok(shown.value) else Err(Managed);
    }

    method Start(env: StartEnv) returns (result: Result<StatusSnapshot, ServiceError>)
      modifies this
      ensures (State(), result) == StartService(parse, old(State()), env)
    {
      hide CoreStart, CoreStatus;
      if subscriptionConfig.None? { return Err(Client(NoSupportedOutbounds)); }
      if trafficMode == Tun && !hasTun { return Err(Managed); }
      var (c, started) := CoreStart(parse, core, subscriptionConfig.value, selectedOutbound, trafficMode, env);
      core := c;
      result := if started then Ok(CoreStatus(core)) else Err(Managed);
    }

    method Stop(clean: bool) returns (result: Result<StatusSnapshot, ServiceError>)
      modifies this
      ensures (State(), result) == StopService(old(State()), clean)
    {
      hide CoreStop, CoreStatus;
      if IsRunning(core) {
        var (c, stopped) := CoreStop(core, clean);
        core := c;
        if !stopped { return Err(Managed); }
      }
      result := Ok(HostStatus(State()));
    }

    method SetTrafficMode(mode: TrafficMode)
      modifies this
      ensures State() == old(State()).(mode := mode)
    {
      trafficMode := mode;
    }

    method SetListen(address: string)
      modifies this
      ensures State() == old(State()).(listen := address)
    {
      listen := address;
    }
  }

  // ---------------------------------------------------------------------
  // Coupling to the core
  // ---------------------------------------------------------------------

  /** While the core runs, the stored text and selection are the ones it runs with. */
  predicate Coupled(s: ServiceState) {
    s.core.handle.Some? ==> s.config == ConfigOf(s.core.handle.value) && s.selected == s.core.handle.value.selectedOutbound
  }

  /** The selection is a supported tag of the stored text, or absent when there are none. */
  predicate SelectionFits(parse: ConfigParser, s: ServiceState) {
    if s.config.Some? then Fits(parse, s.config.value, s.selected) else s.selected.None?
  }

  predicate Sound(parse: ConfigParser, s: ServiceState) {
    HealthyCore(parse, s.core) && Coupled(s) && SelectionFits(parse, s)
  }

  datatype Op =
    | DoImport(text: string)
    | DoSelect(tag: string, env: ReloadEnv)
    | DoUpdate(text: string, env: ReloadEnv)
    | DoImportPanel(server: string, text: string, env: ReloadEnv, env2: ReloadEnv)
    | DoImportUrl(fetched: Option<string>)
    | DoUpdateUrl(fetched: Option<string>, env: ReloadEnv)
    | DoRefresh(notes: seq<string>, summary: string, diagnostic: string)
    | DoStartService(start: StartEnv)
    | DoStopService(clean: bool)
    | DoSetMode(mode: TrafficMode)
    | DoSetListen(address: string)

  function ServiceStep(parse: ConfigParser, s: ServiceState, op: Op): ServiceState {
    match op
    case DoImport(text) => Import(parse, s, text).0
    case DoSelect(tag, env) => Select(parse, s, tag, env).0
    case DoUpdate(text, env) => Update(parse, s, text, env).0
    case DoImportPanel(server, text, env, env2) => ImportPanel(parse, s, server, text, env, env2).0
    case DoImportUrl(fetched) => ImportUrl(parse, s, fetched).0
    case DoUpdateUrl(fetched, env) => UpdateUrl(parse, s, fetched, env).0
    case DoRefresh(notes, summary, diagnostic) => Refresh(parse, s, notes, summary, diagnostic).0
    case DoStartService(env) => StartService(parse, s, env).0
    case DoStopService(clean) => StopService(s, clean).0
    case DoSetMode(mode) => s.(mode := mode)
    case DoSetListen(address) => s.(listen := address)
  }

  lemma ImportSound(parse: ConfigParser, s: ServiceState, text: string)
    requires Sound(parse, s) && !IsRunning(s.core)
    ensures Sound(parse, Import(parse, s, text).0)
  {
    hide Healthy;
    if parse(text).Ok? && parse(text).value.tags != [] {
      assert parse(text).value.tags[0] in parse(text).value.tags;
    }
  }

  lemma SelectSound(parse: ConfigParser, s: ServiceState, tag: string, env: ReloadEnv)
    requires Sound(parse, s)
    ensures Sound(parse, Select(parse, s, tag, env).0)
  {
    hide Healthy, HandleReload, ConfigOf;
    if s.config.Some? && s.core.handle.Some? {
      ReloadHealthy(parse, s.core.handle.value, s.config.value, Some(tag), env);
    }
  }

  lemma PlannedFits(parse: ConfigParser, current: Option<string>, text: string, selected: Option<string>)
    requires PlanUpdate(parse, current, text, selected).Ok?
    ensures Fits(parse, text, PlanUpdate(parse, current, text, selected).value.plannedSelected)
  {
    PlannedOutboundBuilds(parse, current, text, selected, "");
    hide UpdateFrom;
  }

  lemma UpdateSound(parse: ConfigParser, s: ServiceState, text: string, env: ReloadEnv)
    requires Sound(parse, s)
    ensures Sound(parse, Update(parse, s, text, env).0)
  {
    hide HandleUpdate, PlanUpdate, PlanFor, Healthy;
    if s.core.handle.Some? {
      UpdateHealthy(parse, s.core.handle.value, text, env);
      var (h, outcome) := HandleUpdate(parse, s.core.handle.value, text, env);
      HandleHasSummary(parse, h);
      HealthyFits(parse, h);
    } else if PlanUpdate(parse, s.config, text, s.selected).Ok? {
      PlannedFits(parse, s.config, text, s.selected);
    }
  }

  lemma HandleHasSummary(parse: ConfigParser, h: Handle)
    requires Healthy(parse, h)
    ensures h.runtime.activePlan.Some? && h.runtime.activeConfig.Some?
  {
  }

  lemma UpdateUrlSound(parse: ConfigParser, s: ServiceState, fetched: Option<string>, env: ReloadEnv)
    requires Sound(parse, s)
    ensures Sound(parse, UpdateUrl(parse, s, fetched, env).0)
  {
    hide HandleUpdate, Healthy, ConfigOf, Step;
    if s.core.handle.Some? {
      var h := s.core.handle.value;
      if fetched.None? {
        RecordHealthy(parse, h, RecordReloadRejected(ConfigInvalid(env.detail)));
        RecordHealthy(parse, h.(runtime := Step(parse, h.runtime, RecordReloadRejected(ConfigInvalid(env.detail)))),
                      RecordStatusNote(env.note));
      } else {
        UpdateHealthy(parse, h, fetched.value, env);
        var (t, outcome) := HandleUpdate(parse, h, fetched.value, env);
        RecordHealthy(parse, t, RecordStatusNote(env.note));
        var noted := t.(runtime := Step(parse, t.runtime, RecordStatusNote(env.note)));
        HealthyFits(parse, noted);
        ConfigOfHealthy(parse, noted);
      }
    }
  }

  lemma ConfigOfHealthy(parse: ConfigParser, h: Handle)
    requires Healthy(parse, h)
    ensures h.runtime.activeConfig.Some? && ConfigOf(h) == Some(h.runtime.activeConfig.value.configText)
  {
  }

  lemma RefreshSound(parse: ConfigParser, s: ServiceState, notes: seq<string>, summary: string, diagnostic: string)
    requires Sound(parse, s)
    ensures Sound(parse, Refresh(parse, s, notes, summary, diagnostic).0)
  {
    hide HandleProbe, Healthy, ConfigOf;
    if s.core.handle.Some? { ProbeHealthy(parse, s.core.handle.value, notes, summary, diagnostic); }
  }

  lemma StartSound(parse: ConfigParser, s: ServiceState, env: StartEnv)
    requires Sound(parse, s)
    ensures Sound(parse, StartService(parse, s, env).0)
  {
    hide CoreStart, Healthy;
    if s.config.Some? {
      StartedHealthy(parse, s.core, s.config.value, s.selected, s.mode, env);
      var (c, ok) := CoreStart(parse, s.core, s.config.value, s.selected, s.mode, env);
      if ok { StartedSelection(parse, s.config.value, s.selected, c.handle.value); }
    }
  }

  lemma StartedSelection(parse: ConfigParser, text: string, selected: Option<string>, h: Handle)
    requires Healthy(parse, h) && Fits(parse, text, selected)
    requires BuildPlan(parse, text, selected, h.listenAddr) == Ok(h.runtime.activePlan.value)
    ensures h.selectedOutbound == selected
  {
  }

  /**
   * Every operation keeps the service sound, except a direct import while the core runs: that one
   * skips the reload. The panel and URL entry points take care of a running core themselves.
   */
  lemma StepSound(parse: ConfigParser, s: ServiceState, op: Op)
    requires Sound(parse, s) && !(op.DoImport? && IsRunning(s.core))
    ensures Sound(parse, ServiceStep(parse, s, op))
  {
    hide Sound, Import, Select, Update, Refresh, StartService, UpdateUrl;
    match op
    case DoImport(text) => ImportSound(parse, s, text);
    case DoSelect(tag, env) => SelectSound(parse, s, tag, env);
    case DoUpdate(text, env) => UpdateSound(parse, s, text, env);
    case DoImportPanel(server, text, env, env2) =>
      if IsRunning(s.core) {
        UpdateSound(parse, s, text, env);
        SelectSound(parse, Update(parse, s, text, env).0, server, env2);
      } else {
        ImportSound(parse, s, text);
        SelectSound(parse, Import(parse, s, text).0, server, env2);
      }
    case DoImportUrl(fetched) =>
      if !IsRunning(s.core) && fetched.Some? { ImportSound(parse, s, fetched.value); }
    case DoUpdateUrl(fetched, env) => UpdateUrlSound(parse, s, fetched, env);
    case DoRefresh(notes, summary, diagnostic) => RefreshSound(parse, s, notes, summary, diagnostic);
    case DoStartService(env) => StartSound(parse, s, env);
    case DoStopService(clean) => OtherSound(parse, s, StopService(s, clean).0);
    case DoSetMode(mode) => OtherSound(parse, s, s.(mode := mode));
    case DoSetListen(address) => OtherSound(parse, s, s.(listen := address));
  }

  lemma OtherSound(parse: ConfigParser, s: ServiceState, t: ServiceState)
    requires Sound(parse, s) && t.config == s.config && t.selected == s.selected
    requires t.core == s.core || t.core.handle.None?
    ensures Sound(parse, t)
  {
    hide Healthy, Fits;
  }

  /** Whatever happens, imports while running included, a running core stays healthy and a stopped one stopped. */
  predicate CoreSound(parse: ConfigParser, c: Core) {
    HealthyCore(parse, c) && (c.lastStopped.Some? ==> c.lastStopped.value.status.Stopped?)
  }

  lemma SelectCore(parse: ConfigParser, s: ServiceState, tag: string, env: ReloadEnv)
    requires CoreSound(parse, s.core)
    ensures var t := Select(parse, s, tag, env).0;
            CoreSound(parse, t.core) && IsRunning(t.core) == IsRunning(s.core) && t.mode == s.mode && t.core.mode == s.core.mode
  {
    hide Healthy, HandleReload;
    if s.config.Some? && s.core.handle.Some? {
      ReloadHealthy(parse, s.core.handle.value, s.config.value, Some(tag), env);
    }
  }

  lemma UpdateCore(parse: ConfigParser, s: ServiceState, text: string, env: ReloadEnv)
    requires CoreSound(parse, s.core)
    ensures var t := Update(parse, s, text, env).0;
            CoreSound(parse, t.core) && IsRunning(t.core) == IsRunning(s.core) && t.mode == s.mode && t.core.mode == s.core.mode
  {
    hide Healthy, HandleUpdate, PlanUpdate;
    if s.core.handle.Some? { UpdateHealthy(parse, s.core.handle.value, text, env); }
  }

  lemma ImportPanelCore(parse: ConfigParser, s: ServiceState, server: string, text: string, env: ReloadEnv, env2: ReloadEnv)
    requires CoreSound(parse, s.core)
    ensures var t := ImportPanel(parse, s, server, text, env, env2).0;
            CoreSound(parse, t.core) && IsRunning(t.core) == IsRunning(s.core) && t.mode == s.mode && t.core.mode == s.core.mode
  {
    UpdateCore(parse, s, text, env);
    SelectCore(parse, Update(parse, s, text, env).0, server, env2);
    SelectCore(parse, Import(parse, s, text).0, server, env2);
    hide CoreSound, Update, Select;
  }

  lemma UpdateUrlCore(parse: ConfigParser, s: ServiceState, fetched: Option<string>, env: ReloadEnv)
    requires CoreSound(parse, s.core)
    ensures var t := UpdateUrl(parse, s, fetched, env).0;
            CoreSound(parse, t.core) && IsRunning(t.core) == IsRunning(s.core) && t.mode == s.mode && t.core.mode == s.core.mode
  {
    hide Healthy, HandleUpdate, Step;
    if s.core.handle.Some? {
      var h := s.core.handle.value;
      if fetched.None? {
        RecordHealthy(parse, h, RecordReloadRejected(ConfigInvalid(env.detail)));
        RecordHealthy(parse, h.(runtime := Step(parse, h.runtime, RecordReloadRejected(ConfigInvalid(env.detail)))),
                      RecordStatusNote(env.note));
      } else {
        UpdateHealthy(parse, h, fetched.value, env);
        RecordHealthy(parse, HandleUpdate(parse, h, fetched.value, env).0, RecordStatusNote(env.note));
      }
    }
  }

  lemma RefreshCore(parse: ConfigParser, s: ServiceState, notes: seq<string>, summary: string, diagnostic: string)
    requires CoreSound(parse, s.core)
    ensures var t := Refresh(parse, s, notes, summary, diagnostic).0;
            CoreSound(parse, t.core) && IsRunning(t.core) == IsRunning(s.core) && t.mode == s.mode && t.core.mode == s.core.mode
  {
    hide Healthy, HandleProbe;
    if s.core.handle.Some? { ProbeHealthy(parse, s.core.handle.value, notes, summary, diagnostic); }
  }

  lemma StartCore(parse: ConfigParser, s: ServiceState, env: StartEnv)
    requires CoreSound(parse, s.core)
    ensures var (t, r) := StartService(parse, s, env);
            && CoreSound(parse, t.core) && t.mode == s.mode
            && (r.Err? ==> t.core == s.core)
            && (r.Ok? ==> !IsRunning(s.core) && IsRunning(t.core) && t.core.mode == s.mode && r.value == HostStatus(t))
  {
    if s.config.Some? { StartedHealthy(parse, s.core, s.config.value, s.selected, s.mode, env); }
    hide Healthy, AfterStart;
  }

  lemma StopCore(parse: ConfigParser, s: ServiceState, clean: bool)
    requires CoreSound(parse, s.core)
    ensures var (t, r) := StopService(s, clean);
            && CoreSound(parse, t.core) && t.mode == s.mode && t.core.mode == s.core.mode && !IsRunning(t.core)
            && (r.Ok? <==> clean || !IsRunning(s.core))
            && (r.Ok? ==> r.value == HostStatus(t))
  {
    hide Healthy, LastN;
  }

  function After(parse: ConfigParser, hasTun: bool, ops: seq<Op>): ServiceState {
    if ops == [] then Fresh(hasTun)
    else ServiceStep(parse, After(parse, hasTun, ops[..|ops| - 1]), ops[|ops| - 1])
  }

  /** No direct import happens at a moment when the core is running. */
  predicate NoHotImport(parse: ConfigParser, hasTun: bool, ops: seq<Op>) {
    forall i :: 0 <= i < |ops| && ops[i].DoImport? ==> !IsRunning(After(parse, hasTun, ops[..i]).core)
  }

  lemma NoHotPrefix(parse: ConfigParser, hasTun: bool, ops: seq<Op>)
    requires ops != [] && NoHotImport(parse, hasTun, ops)
    ensures var n := |ops| - 1;
            && NoHotImport(parse, hasTun, ops[..n])
            && (ops[n].DoImport? ==> !IsRunning(After(parse, hasTun, ops[..n]).core))
  {
    hide After;
    var n := |ops| - 1;
    assert forall i :: 0 <= i < n ==> ops[..n][i] == ops[i] && ops[..n][..i] == ops[..i];
  }

  /** Over every such run, the service stays coupled to the core and its selection fits its text. */
  lemma {:induction false} RunSound(parse: ConfigParser, hasTun: bool, ops: seq<Op>)
    requires NoHotImport(parse, hasTun, ops)
    ensures Sound(parse, After(parse, hasTun, ops))
  {
    if ops != [] {
      hide Sound, ServiceStep;
      var n := |ops| - 1;
      NoHotPrefix(parse, hasTun, ops);
      hide NoHotImport;
      RunSound(parse, hasTun, ops[..n]);
      StepSound(parse, After(parse, hasTun, ops[..n]), ops[n]);
    } else {
      assert Sound(parse, Fresh(hasTun));
    }
  }

  /** A direct import keeps the coupling exactly when it changes nothing the running core relies on. */
  lemma ImportSoundIff(parse: ConfigParser, s: ServiceState, text: string)
    requires Sound(parse, s)
    ensures Sound(parse, Import(parse, s, text).0)
            <==> || !IsRunning(s.core)
                 || parse(text).Err?
                 || (s.config == Some(text) && s.selected == First(parse(text).value.tags))
  {
    if !IsRunning(s.core) { ImportSound(parse, s, text); }
    hide Healthy, Fits;
  }

  /** A parser that takes every text for a subscription with that one node. */
  function OneNode(): ConfigParser { (text: string) => Ok(ParsedConfig([text], [])) }

  /**
   * The failure the run theorem leaves out does happen: start with "a", import "b" directly while
   * running, refresh the node health. The stored text is now "b" and the stored selection "a".
   */
  lemma HotImportBreaks(env: StartEnv)
    requires StartWorks(env)
    ensures var parse := OneNode();
            var a := Import(parse, Fresh(false), "a").0;
            var b := StartService(parse, a, env).0;
            var c := Import(parse, b, "b").0;
            var d := Refresh(parse, c, [], "", "").0;
            && IsRunning(b.core) && Sound(parse, b)
            && !Coupled(c)
            && d.config == Some("b") && d.selected == Some("a") && !SelectionFits(parse, d)
  {
    var parse := OneNode();
    var a := Import(parse, Fresh(false), "a").0;
    var b := StartService(parse, a, env).0;
    ImportSound(parse, Fresh(false), "a");
    StartSound(parse, a, env);
    assert "a" != "b" by { assert "a"[0] != "b"[0]; }
    StartOutcome(parse, a, env);
    hide LastN, Healthy, CoreStart, Step, StartService;
  }

  /** The environment lets a start through. */
  predicate StartWorks(env: StartEnv) { env.bound.Some? && env.runtimeBuilds && env.proxyApplies && env.spawns }

  /** A stopped service with a fitting selection starts whenever the environment lets it. */
  lemma StartOutcome(parse: ConfigParser, s: ServiceState, env: StartEnv)
    requires s.config.Some? && s.selected.Some? && Fits(parse, s.config.value, s.selected)
    requires !IsRunning(s.core) && (s.mode == Tun ==> s.hasTun) && StartWorks(env)
    ensures var (t, r) := StartService(parse, s, env);
            && t == s.(core := t.core) && IsRunning(t.core) && t.core.mode == s.mode
            && r.Ok? && r.value.runState == RunState.Running && r.value.mode == s.mode
            && t.core.handle.value.selectedOutbound == s.selected && ConfigOf(t.core.handle.value) == s.config
            && t.core.handle.value.runtime.activePlan.Some?
            && t.core.handle.value.runtime.activePlan.value.preflight.supportedTags == parse(s.config.value).value.tags
  {
    hide LastN;
  }

  // ---------------------------------------------------------------------
  // Saving and restoring (crates/keli-desktop/src/app.rs)
  // ---------------------------------------------------------------------

  datatype Persisted = Persisted(text: string, selected: Option<string>)

  /** `persisted_subscription`. */
  function ToPersist(s: ServiceState): Option<Persisted> {
    if s.config.None? then None else Some(Persisted(s.config.value, s.selected))
  }

  /** `restore_persisted_subscription` on the service: import, then select if there was a selection. */
  function Restore(parse: ConfigParser, s: ServiceState, saved: Persisted, env: ReloadEnv): ServiceState {
    var (t, r) := Import(parse, s, saved.text);
    if r.Err? || saved.selected.None? then t else Select(parse, t, saved.selected.value, env).0
  }

  /**
   * Restoring into a stopped service brings back the saved text and selection exactly when the
   * selection fits the text.
   */
  lemma RestoreIff(parse: ConfigParser, s: ServiceState, saved: Persisted, env: ReloadEnv)
    requires !IsRunning(s.core) && parse(saved.text).Ok?
    ensures var t := Restore(parse, s, saved, env);
            && t.config == Some(saved.text)
            && (t.selected == saved.selected <==> Fits(parse, saved.text, saved.selected))
  {
    var tags := parse(saved.text).value.tags;
    if tags != [] { assert tags[0] in tags; }
  }

  /** Whatever a sound run saved, a restarted service restores. */
  lemma SaveRestore(parse: ConfigParser, hasTun: bool, ops: seq<Op>, env: ReloadEnv)
    requires NoHotImport(parse, hasTun, ops) && After(parse, hasTun, ops).config.Some?
    ensures var s := After(parse, hasTun, ops);
            var t := Restore(parse, Fresh(hasTun), ToPersist(s).value, env);
            t.config == s.config && t.selected == s.selected
  {
    RunSound(parse, hasTun, ops);
    var s := After(parse, hasTun, ops);
    hide After, Restore, Healthy;
    RestoreIff(parse, Fresh(hasTun), ToPersist(s).value, env);
  }

  // ---------------------------------------------------------------------
  // What a panel import would have to save
  // ---------------------------------------------------------------------

  /** Building the new proxy runtime and taking its lock both work. */
  predicate ReloadWorks(env: ReloadEnv) { env.runtimeBuilds && env.lockHeld }

  /** A selection carried over to new tags: kept if it is among them, else the default. */
  function Carried(selected: Option<string>, tags: seq<string>): Option<string> {
    if selected.Some? && selected.value in tags then selected else First(tags)
  }

  /** The panel's node takes over from `selected` if it is a tag, not selected yet, and the switch works. */
  function Switched(selected: Option<string>, tags: seq<string>, server: string, works: bool): Option<string> {
    if server in tags && selected != Some(server) && works then Some(server) else selected
  }

  function TagsOf(parse: ConfigParser, text: string): seq<string> {
    if parse(text).Ok? then parse(text).value.tags else []
  }

  /**
   * The text and selection a service has after a panel import, from what can be known before it:
   * the stored text and selection, the tags of both texts and whether the reloads work.
   */
  function PanelResult(parse: ConfigParser, s: ServiceState, server: string, text: string, env: ReloadEnv, env2: ReloadEnv)
    : Option<Persisted>
  {
    var tags := TagsOf(parse, text);
    if parse(text).Err? then ToPersist(s)
    else if !IsRunning(s.core) then Some(Persisted(text, Switched(First(tags), tags, server, true)))
    else if s.config.None? then None
    else if tags == [] then
      Some(Persisted(s.config.value, Switched(s.selected, TagsOf(parse, s.config.value), server, ReloadWorks(env2))))
    else if !ReloadWorks(env) then ToPersist(s)
    else Some(Persisted(text, Switched(Carried(s.selected, tags), tags, server, ReloadWorks(env2))))
  }

  lemma PlannedChoice(parse: ConfigParser, current: string, text: string, selected: string)
    requires parse(current).Ok?
    ensures var r := PlanUpdate(parse, Some(current), text, Some(selected));
            && (r.Ok? <==> parse(text).Ok?)
            && (r.Ok? ==> r.value.plannedSelected == Carried(Some(selected), TagsOf(parse, text)))
  {
  }

  /** A reload to a tag of the text works exactly when the environment lets it. */
  lemma ReloadOutcome(parse: ConfigParser, h: Handle, text: string, tag: string, env: ReloadEnv)
    requires tag in TagsOf(parse, text)
    ensures HandleReload(parse, h, text, Some(tag), env).1 <==> ReloadWorks(env)
  {
    hide AfterReload, Step;
  }

  lemma RunningTags(parse: ConfigParser, h: Handle)
    requires Healthy(parse, h)
    ensures h.runtime.activeConfig.Some? && parse(h.runtime.activeConfig.value.configText).Ok?
    ensures CoreSummary(Core(Some(h), None, MixedInboundOnly))
            == Some(Summary(TagsOf(parse, h.runtime.activeConfig.value.configText), h.selectedOutbound))
  {
  }

  lemma UpdateOutcomeIs(parse: ConfigParser, h: Handle, text: string, env: ReloadEnv)
    requires Healthy(parse, h)
    ensures var (t, outcome) := HandleUpdate(parse, h, text, env);
            var tags := TagsOf(parse, text);
            && (outcome.Rejected? <==> parse(text).Err? || (tags != [] && !ReloadWorks(env)))
            && (outcome.Planned? ==> (outcome.applied <==> tags != []))
            && (outcome.Planned? ==> outcome.report.plannedSelected == Carried(h.selectedOutbound, tags))
  {
    RunningTags(parse, h);
    var selected := h.runtime.activePlan.value.selectedOutbound;
    PlannedChoice(parse, h.runtime.activeConfig.value.configText, text, selected);
    var planned := Carried(Some(selected), TagsOf(parse, text));
    if planned.Some? {
      CarriedIsTag(Some(selected), TagsOf(parse, text));
      ReloadOutcome(parse, h, text, planned.value, env);
    }
    hide PlanUpdate, HandleReload, Step, TagsOf, Consistent;
  }

  lemma CarriedIsTag(selected: Option<string>, tags: seq<string>)
    ensures Carried(selected, tags).Some? <==> tags != []
    ensures tags != [] ==> Carried(selected, tags).value in tags
  {
    if tags != [] { assert tags[0] in tags; }
  }

  /** Selecting a tag of the stored text: stored and reported exactly when no reload is needed or it works. */
  lemma SelectOutcome(parse: ConfigParser, s: ServiceState, tag: string, env: ReloadEnv)
    requires s.config.Some? && tag in TagsOf(parse, s.config.value)
    ensures var (t, r) := Select(parse, s, tag, env);
            var works := !IsRunning(s.core) || ReloadWorks(env);
            && t == s.(core := t.core, selected := if works then Some(tag) else s.selected)
            && (!IsRunning(s.core) ==> t.core == s.core)
            && r == if works then Ok(Summary(TagsOf(parse, s.config.value), Some(tag))) else Err(Managed)
  {
    if IsRunning(s.core) { ReloadOutcome(parse, s.core.handle.value, s.config.value, tag, env); }
    hide HandleReload, ReloadWorks;
  }

  /** Selecting without a subscription, with one that does not parse, or a tag it does not have, changes nothing. */
  lemma SelectRefused(parse: ConfigParser, s: ServiceState, tag: string, env: ReloadEnv)
    requires s.config.None? || tag !in TagsOf(parse, s.config.value)
    ensures Select(parse, s, tag, env).0 == s
    ensures Select(parse, s, tag, env).1
            == Err(Client(if s.config.None? then NoSupportedOutbounds
                          else match parse(s.config.value) case Err(detail) => ConfigInvalid(detail)
                                                           case Ok(_) => OutboundNotFound(tag)))
  {
    hide HandleReload;
  }

  /** An import stores the text with its first tag selected; a text that does not parse changes nothing. */
  lemma ImportStored(parse: ConfigParser, s: ServiceState, text: string)
    ensures var (t, r) := Import(parse, s, text);
            match parse(text)
            case Err(detail) => t == s && r == Err(Client(ConfigInvalid(detail)))
            case Ok(parsed) =>
              var first := if parsed.tags == [] then None else Some(parsed.tags[0]);
              t == s.(config := Some(text), selected := first) && r == Ok(Summary(parsed.tags, first))
  {
  }

  /**
   * An update of a stopped service stores the text and carries the selection over: the stored one,
   * or else the first tag of the stored text. It changes nothing if either text does not parse.
   */
  lemma UpdateStopped(parse: ConfigParser, s: ServiceState, text: string, env: ReloadEnv)
    requires !IsRunning(s.core)
    ensures var (t, r) := Update(parse, s, text, env);
            if parse(text).Err? then t == s && r == Err(Client(ConfigInvalid(parse(text).error)))
            else if s.config.Some? && parse(s.config.value).Err? then
              t == s && r == Err(Client(ConfigInvalid(parse(s.config.value).error)))
            else
              var tags := parse(text).value.tags;
              var before := if s.selected.Some? || s.config.None? then s.selected else First(TagsOf(parse, s.config.value));
              && t == s.(config := Some(text), selected := Carried(before, tags))
              && r == Ok(Summary(tags, Carried(before, tags)))
  {
    PlanUpdateIff(parse, s.config, text, s.selected);
    hide PlanUpdate, HandleUpdate;
  }

  /** A start works exactly when there is a subscription that yields a plan, nothing runs yet and the environment lets it. */
  lemma StartIff(parse: ConfigParser, s: ServiceState, env: StartEnv)
    ensures var (t, r) := StartService(parse, s, env);
            && t == s.(core := t.core)
            && (r.Ok? <==> && s.config.Some? && (s.mode == Tun ==> s.hasTun) && !IsRunning(s.core) && StartWorks(env)
                           && BuildPlan(parse, s.config.value, s.selected, env.bound.value).Ok?)
            && (r.Err? ==> t == s && r.error == if s.config.None? then Client(NoSupportedOutbounds) else Managed)
            && (r.Ok? ==> r.value == HostStatus(t))
  {
    if s.config.Some? { StartedRuntime(parse, s.core, s.config.value, s.selected, s.mode, env); }
    hide BuildPlan, AfterStart;
  }

  /** What the service shows of itself. */
  lemma HostStatusMeaning(parse: ConfigParser, s: ServiceState)
    requires CoreSound(parse, s.core)
    ensures var status := HostStatus(s);
            && status.mode == s.mode
            && match s.core.handle
               case Some(h) =>
                 && status.runState == RunState.Running && status.selected == h.selectedOutbound
                 && status.generation == h.runtime.generation && status.lastError == h.runtime.lastError
               case None =>
                 && status.runState == RunState.Stopped && status.selected == s.selected
                 && match s.core.lastStopped
                    case Some(run) => status.generation == run.generation && status.lastError == run.lastError
                    case None => status.generation == 0 && status.lastError == None
  {
    hide Runtime.Consistent;
  }

  /** An update of a running, sound service: what it stores and what it reports. */
  lemma UpdateStored(parse: ConfigParser, s: ServiceState, text: string, env: ReloadEnv)
    requires Sound(parse, s) && IsRunning(s.core)
    ensures s.config.Some?
    ensures var (t, r) := Update(parse, s, text, env);
            var tags := TagsOf(parse, text);
            && Sound(parse, t) && IsRunning(t.core) && t.config.Some?
            && if parse(text).Err? || (tags != [] && !ReloadWorks(env)) then r.Err? && ToPersist(t) == ToPersist(s)
               else if tags == [] then
                 ToPersist(t) == ToPersist(s) && r == Ok(Summary(TagsOf(parse, s.config.value), s.selected))
               else
                 && ToPersist(t) == Some(Persisted(text, Carried(s.selected, tags)))
                 && r == Ok(Summary(tags, Carried(s.selected, tags)))
  {
    var h := s.core.handle.value;
    var (g, outcome) := HandleUpdate(parse, h, text, env);
    UpdateSound(parse, s, text, env);
    UpdateHealthy(parse, h, text, env);
    UpdateOutcomeIs(parse, h, text, env);
    RunningTags(parse, h);
    RunningTags(parse, g);
    hide HandleUpdate, PlanUpdate, TagsOf, ReloadWorks, Carried, Fits, Healthy;
  }

  /** After a panel import the service holds exactly the predicted text and selection. */
  lemma PanelImportResult(
    parse: ConfigParser, s: ServiceState, server: string, text: string, env: ReloadEnv, env2: ReloadEnv)
    requires IsRunning(s.core) ==> Sound(parse, s)
    ensures ToPersist(ImportPanel(parse, s, server, text, env, env2).0) == PanelResult(parse, s, server, text, env, env2)
  {
    if IsRunning(s.core) {
      RunningPanelImport(parse, s, server, text, env, env2);
    } else {
      hide Update;
    }
  }

  lemma RunningPanelImport(
    parse: ConfigParser, s: ServiceState, server: string, text: string, env: ReloadEnv, env2: ReloadEnv)
    requires IsRunning(s.core) && Sound(parse, s)
    ensures ToPersist(ImportPanel(parse, s, server, text, env, env2).0) == PanelResult(parse, s, server, text, env, env2)
  {
    UpdateStored(parse, s, text, env);
    var (t, r) := Update(parse, s, text, env);
    hide Sound, Update, Select, TagsOf, ReloadWorks, Carried;
    if r.Ok? && server in r.value.tags && r.value.selected != Some(server) {
      SelectOutcome(parse, t, server, env2);
    }
  }

  /** What a running handle's log says after an update, by the same guards. */
  lemma UpdateRecorded(parse: ConfigParser, h: Handle, text: string, env: ReloadEnv)
    requires Healthy(parse, h)
    ensures var (t, outcome) := HandleUpdate(parse, h, text, env);
            var tags := TagsOf(parse, text);
            && t.runtime.generation == h.runtime.generation + (if parse(text).Ok? && tags != [] && ReloadWorks(env) then 1 else 0)
            && t.runtime.lastError == (if parse(text).Err? || (tags != [] && !env.runtimeBuilds)
                                       then Some(ConfigInvalid(env.detail))
                                       else if tags == [] then Some(NoSupportedOutbounds)
                                       else h.runtime.lastError)
            && (outcome.Planned? ==> LastEvent(t.runtime) == Some(Event(t.runtime.status, env.note, None)))
            && (parse(text).Err? ==>
                  LastEvent(t.runtime) == Some(Event(Status.Failed(ConfigInvalid(env.detail)), "runtime reload rejected", None)))
  {
    RunningTags(parse, h);
    var selected := h.runtime.activePlan.value.selectedOutbound;
    PlannedChoice(parse, h.runtime.activeConfig.value.configText, text, selected);
    var planned := Carried(Some(selected), TagsOf(parse, text));
    CarriedIsTag(Some(selected), TagsOf(parse, text));
    if planned.Some? {
      ReloadRecorded(parse, h, text, planned, env);
      BuildPlanIff(parse, text, planned, h.listenAddr);
      ReloadKeepsStatus(parse, h, text, planned, env);
      NoteIsLast(parse, HandleReload(parse, h, text, planned, env).0.runtime, env.note);
    }
    RejectIsLast(parse, h.runtime, ConfigInvalid(env.detail));
    RejectIsLast(parse, h.runtime, NoSupportedOutbounds);
    NoteIsLast(parse, Step(parse, h.runtime, RecordReloadRejected(NoSupportedOutbounds)), env.note);
    hide PlanUpdate, HandleReload, Carried, Consistent, BuildPlan, Step, LastEvent;
  }

  function LastEvent(s: RuntimeState): Option<Event> {
    if s.events == [] then None else Some(s.events[|s.events| - 1])
  }

  /** A fetch for a running service always leaves its note as the last event, and a failed one the error before it. */
  lemma UpdateUrlRecorded(parse: ConfigParser, s: ServiceState, fetched: Option<string>, env: ReloadEnv)
    requires IsRunning(s.core)
    ensures var (t, r) := UpdateUrl(parse, s, fetched, env);
            && t.core.handle.Some?
            && LastEvent(t.core.handle.value.runtime) == Some(Event(t.core.handle.value.runtime.status, env.note, None))
            && (fetched.None? && s.core.handle.value.runtime.status.Running? ==>
                  && t.core.handle.value.runtime.eventCount == s.core.handle.value.runtime.eventCount + 2
                  && t.core.handle.value.runtime.lastError == Some(ConfigInvalid(env.detail)))
  {
    var h := s.core.handle.value;
    var rejected := Step(parse, h.runtime, RecordReloadRejected(ConfigInvalid(env.detail)));
    RejectIsLast(parse, h.runtime, ConfigInvalid(env.detail));
    NoteIsLast(parse, rejected, env.note);
    if fetched.Some? { NoteIsLast(parse, HandleUpdate(parse, h, fetched.value, env).0.runtime, env.note); }
    hide HandleUpdate, UpdatedSummary, CoreStatus, Step, LastEvent;
  }

  lemma NoteIsLast(parse: ConfigParser, s: RuntimeState, note: string)
    ensures var t := Step(parse, s, RecordStatusNote(note));
            && LastEvent(t) == Some(Event(s.status, note, None)) && t.status == s.status && t.generation == s.generation
            && t.eventCount == s.eventCount + 1 && (!s.status.Failed? ==> t.lastError == s.lastError)
  {
  }

  lemma RejectIsLast(parse: ConfigParser, s: RuntimeState, error: ClientError)
    ensures var t := Step(parse, s, RecordReloadRejected(error));
            && LastEvent(t) == Some(Event(Status.Failed(error), "runtime reload rejected", None))
            && t.status == s.status && t.generation == s.generation
            && t.eventCount == s.eventCount + 1 && t.lastError == Some(error)
  {
  }

  lemma ReloadKeepsStatus(parse: ConfigParser, h: Handle, text: string, outbound: Option<string>, env: ReloadEnv)
    requires Healthy(parse, h)
    ensures HandleReload(parse, h, text, outbound, env).0.runtime.status.Running?
  {
    ReloadHealthy(parse, h, text, outbound, env);
    hide HandleReload, Consistent;
  }

  /** A subscription fetched for a running, sound service: when it is applied, what is stored and what is reported. */
  lemma UpdateUrlStored(parse: ConfigParser, s: ServiceState, fetched: Option<string>, env: ReloadEnv)
    requires Sound(parse, s) && IsRunning(s.core)
    ensures s.config.Some?
    ensures var (t, r) := UpdateUrl(parse, s, fetched, env);
            var text := if fetched.Some? then fetched.value else "";
            var tags := TagsOf(parse, text);
            && IsRunning(t.core) && t.mode == s.mode && t.listen == s.listen
            && r.Ok? && r.value.status == CoreStatus(t.core).(mode := s.mode)
            && (r.value.applied <==> fetched.Some? && parse(text).Ok? && tags != [] && ReloadWorks(env))
            && ToPersist(t) == (if r.value.applied then Some(Persisted(text, Carried(s.selected, tags))) else ToPersist(s))
            && (r.value.update.Some? <==> fetched.Some? && parse(text).Ok? && (tags == [] || ReloadWorks(env)))
            && (r.value.update.Some? ==>
                  && r.value.update.value.report.plannedSelected == Carried(s.selected, tags)
                  && r.value.update.value.subscription
                     == if r.value.applied then Summary(tags, Carried(s.selected, tags))
                        else Summary(TagsOf(parse, s.config.value), s.selected))
  {
    var h := s.core.handle.value;
    RunningTags(parse, h);
    if fetched.Some? {
      var (g, outcome) := HandleUpdate(parse, h, fetched.value, env);
      UpdateHealthy(parse, h, fetched.value, env);
      UpdateOutcomeIs(parse, h, fetched.value, env);
      RecordHealthy(parse, g, RecordStatusNote(env.note));
      RunningTags(parse, g.(runtime := Step(parse, g.runtime, RecordStatusNote(env.note))));
    }
    hide HandleUpdate, PlanUpdate, TagsOf, ReloadWorks, Carried, Fits, Healthy, CoreStatus, Step;
  }

  /** A panel import that stops half way: the new text is applied, then the reload to the panel's node fails. */
  predicate PanelStuck(parse: ConfigParser, s: ServiceState, server: string, text: string, env: ReloadEnv, env2: ReloadEnv) {
    var tags := TagsOf(parse, text);
    && IsRunning(s.core) && ReloadWorks(env) && !ReloadWorks(env2)
    && server in tags && Carried(s.selected, tags) != Some(server)
  }

  /** Switching to the panel's node is not needed, or it works. */
  predicate SwitchWorks(selected: Option<string>, tags: seq<string>, server: string, env2: ReloadEnv) {
    server !in tags || selected == Some(server) || ReloadWorks(env2)
  }

  /** A panel import succeeds exactly then. */
  predicate PanelWorks(parse: ConfigParser, s: ServiceState, server: string, text: string, env: ReloadEnv, env2: ReloadEnv) {
    var tags := TagsOf(parse, text);
    && parse(text).Ok?
    && (!IsRunning(s.core) || s.config.None?
        || if tags == [] then SwitchWorks(s.selected, TagsOf(parse, s.config.value), server, env2)
           else ReloadWorks(env) && SwitchWorks(Carried(s.selected, tags), tags, server, env2))
  }

  /** Unless it is stuck, a failed panel import stores nothing; a successful one reports what is stored. */
  lemma PanelReport(
    parse: ConfigParser, s: ServiceState, server: string, text: string, env: ReloadEnv, env2: ReloadEnv)
    requires IsRunning(s.core) ==> Sound(parse, s)
    ensures var (t, r) := ImportPanel(parse, s, server, text, env, env2);
            && (r.Ok? <==> PanelWorks(parse, s, server, text, env, env2))
            && (PanelStuck(parse, s, server, text, env, env2) ==> r.Err? && t.config == Some(text))
            && (r.Err? && !PanelStuck(parse, s, server, text, env, env2) ==> t.config == s.config)
            && (r.Ok? ==> t.config.Some? && r.value == Summary(TagsOf(parse, t.config.value), t.selected))
  {
    hide Sound, ReloadWorks, Carried;
    if IsRunning(s.core) {
      RunningPanelReport(parse, s, server, text, env, env2);
      RunningPanelWorks(parse, s, server, text, env, env2);
    } else {
      ImportStored(parse, s, text);
      var t := Import(parse, s, text).0;
      if parse(text).Ok? && server in TagsOf(parse, text) { SelectOutcome(parse, t, server, env2); }
      hide Update, Select, Import;
    }
  }

  lemma RunningPanelReport(
    parse: ConfigParser, s: ServiceState, server: string, text: string, env: ReloadEnv, env2: ReloadEnv)
    requires IsRunning(s.core) && Sound(parse, s)
    ensures var (t, r) := ImportPanel(parse, s, server, text, env, env2);
            && (PanelStuck(parse, s, server, text, env, env2) ==> r.Err? && t.config == Some(text))
            && (r.Err? && !PanelStuck(parse, s, server, text, env, env2) ==> t.config == s.config)
            && (r.Ok? ==> t.config.Some? && r.value == Summary(TagsOf(parse, t.config.value), t.selected))
  {
    UpdateStored(parse, s, text, env);
    var (t, r) := Update(parse, s, text, env);
    NoTags(parse, text);
    hide Sound, Update, Select, TagsOf, ReloadWorks, Carried, Import, ImportPanel;
    PanelSwitch(parse, s, server, text, env, env2);
    if r.Ok? && server in r.value.tags && r.value.selected != Some(server) { SelectOutcome(parse, t, server, env2); }
    assert PanelStuck(parse, s, server, text, env, env2) ==> ImportPanel(parse, s, server, text, env, env2).1.Err?;
  }

  lemma RunningPanelWorks(
    parse: ConfigParser, s: ServiceState, server: string, text: string, env: ReloadEnv, env2: ReloadEnv)
    requires IsRunning(s.core) && Sound(parse, s)
    ensures ImportPanel(parse, s, server, text, env, env2).1.Ok? <==> PanelWorks(parse, s, server, text, env, env2)
  {
    UpdateStored(parse, s, text, env);
    var (t, r) := Update(parse, s, text, env);
    NoTags(parse, text);
    hide Sound, Update, Select, TagsOf, ReloadWorks, Carried, Import, ImportPanel;
    PanelSwitch(parse, s, server, text, env, env2);
    if r.Ok? && server in r.value.tags && r.value.selected != Some(server) { SelectOutcome(parse, t, server, env2); }
  }

  lemma PanelSwitch(
    parse: ConfigParser, s: ServiceState, server: string, text: string, env: ReloadEnv, env2: ReloadEnv)
    requires IsRunning(s.core)
    ensures var (t, r) := Update(parse, s, text, env);
            ImportPanel(parse, s, server, text, env, env2)
            == if r.Ok? && server in r.value.tags && r.value.selected != Some(server) then Select(parse, t, server, env2)
               else (t, r)
  {
    hide Update, Select, Import;
    var (t, r) := Update(parse, s, text, env);
    assert Update(parse, s, text, env) == (t, r);
  }

  lemma NoTags(parse: ConfigParser, text: string)
    ensures parse(text).Err? ==> TagsOf(parse, text) == []
  {
  }
}
