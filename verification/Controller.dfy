/**
 * The shell controller (crates/keli-desktop/src/app.rs) over the desktop service: it gates start
 * and stop by the shell snapshot, keeps the snapshot up to date, and saves the subscription.
 */
module Controller {
  import opened Wrappers
  import opened Subscription
  import opened ManagedCore
  import opened DesktopService
  import opened DesktopStatus
  import opened Shell
  import Runtime

  // ---------------------------------------------------------------------
  // What the host reports
  // ---------------------------------------------------------------------

  function View(summary: Summary): SubscriptionView {
    SubscriptionView(summary.tags != [], |summary.tags|, summary.tags)
  }

  // ---------------------------------------------------------------------
  // Operations
  // ---------------------------------------------------------------------

  /** The store is one optional cell; `None` outside means the controller has no store. */
  datatype ControllerState = ControllerState(host: ServiceState, shell: ShellState, store: Option<Option<Persisted>>)

  datatype HostCall = StartCalled | StopCalled

  datatype Outcome = Done | HostError | ShellBlocked

  datatype Stepped = Stepped(state: ControllerState, calls: seq<HostCall>, outcome: Outcome)

  /** `persist_current_subscription`; a failed save is only logged. */
  function Saved(c: ControllerState, saves: bool): ControllerState {
    if c.store.None? || c.host.config.None? || !saves then c else c.(store := Some(ToPersist(c.host)))
  }

  /** A successful host command that changed the subscription: summary and status go into the shell. */
  function Shown(c: ControllerState, host: ServiceState, view: SubscriptionView): ControllerState {
    c.(host := host, shell := WithStatus(WithSubscription(c.shell, Some(view)), HostStatus(host)))
  }

  /** The subscription an applied update reports goes into the shell. */
  function WithUpdate(c: ControllerState, update: Option<UpdateSummary>): ControllerState {
    if update.None? then c
    else c.(shell := WithSubscription(c.shell, Some(View(update.value.subscription))))
  }

  predicate OffersStart(s: ShellState) {
    s.primaryAction.enabled && (s.primaryAction.command == CommandStart || s.primaryAction.command == CommandRetry)
  }

  predicate OffersStop(s: ShellState) {
    s.primaryAction.enabled && s.primaryAction.command == CommandStop
  }

  /** The host answered: the status it gave and fresh dependencies go into the shell. */
  function Answered(c: ControllerState, host: ServiceState, status: StatusSnapshot, d: Dependencies): ControllerState {
    c.(host := host, shell := WithDependencies(WithStatus(c.shell, status), d))
  }

  datatype Op =
    | Dispatch(action: Action, start: StartEnv, clean: bool, dependencies: Dependencies)
    | RefreshAll(dependencies: Dependencies)
    | ShowPanel(panel: Option<string>)
    | ImportText(text: string, saves: bool)
    | ConnectPanel(login: Option<string>, batch: Option<string>, saves: bool)
    | ImportPanelNode(server: string, fetched: Option<string>, env: ReloadEnv, env2: ReloadEnv)
    | ImportFromUrl(fetched: Option<string>, saves: bool)
    | UpdateFromUrl(fetched: Option<string>, env: ReloadEnv, saves: bool)
    | SelectTag(tag: string, env: ReloadEnv, saves: bool)
    | RefreshHealth(notes: seq<string>, summary: string, diagnostic: string)
    | SetMode(mode: TrafficMode)
    | SetListenAddress(address: string)
    | InstallWintun(installs: bool, dependencies: Dependencies)

  function Quiet(c: ControllerState, outcome: Outcome): Stepped { Stepped(c, [], outcome) }

  /** `dispatch`. */
  function DispatchAction(parse: ConfigParser, c: ControllerState, action: Action, env: StartEnv, clean: bool, d: Dependencies)
    : Stepped
  {
    match action
    case RequestStart =>
      if !OffersStart(c.shell) then Quiet(c, ShellBlocked)
      else
        var (host, r) := StartService(parse, c.host, env);
        if r.Ok? then Stepped(Answered(c, host, r.value, d), [StartCalled], Done)
        else Stepped(c.(host := host), [StartCalled], HostError)
    case RequestStop =>
      if !OffersStop(c.shell) then Quiet(c, ShellBlocked)
      else
        var (host, r) := StopService(c.host, clean);
        if r.Ok? then Stepped(Answered(c, host, r.value, d), [StopCalled], Done)
        else Stepped(c.(host := host), [StopCalled], HostError)
    case _ => Quiet(c.(shell := Applied(c.shell, action)), Done)
  }

  /** `import_subscription_config`. */
  function ImportInto(parse: ConfigParser, c: ControllerState, text: string, saves: bool): Stepped {
    var (host, r) := Import(parse, c.host, text);
    if r.Err? then Quiet(c.(host := host), HostError)
    else Quiet(Saved(Shown(c, host, View(r.value)), saves), Done)
  }

  /** One controller operation. */
  function ControllerStep(parse: ConfigParser, c: ControllerState, op: Op): Stepped {
    match op
    case Dispatch(action, env, clean, d) => DispatchAction(parse, c, action, env, clean, d)
    case RefreshAll(d) => Quiet(Answered(c, c.host, HostStatus(c.host), d), Done)
    case ShowPanel(panel) => Quiet(c.(shell := WithPanel(c.shell, panel)), Done)
    case ImportText(text, saves) => ImportInto(parse, c, text, saves)
    case ConnectPanel(login, batch, saves) =>
      if login.None? then Quiet(c, HostError)
      else
        var shown := c.(shell := WithPanel(c.shell, login));
        if batch.None? then Quiet(shown, HostError) else ImportInto(parse, shown, batch.value, saves)
    case ImportPanelNode(server, fetched, env, env2) =>
      if fetched.None? then Quiet(c, HostError)
      else
        var (host, r) := ImportPanel(parse, c.host, server, fetched.value, env, env2);
        if r.Err? then Quiet(c.(host := host), HostError) else Quiet(Shown(c, host, View(r.value)), Done)
    case ImportFromUrl(fetched, saves) =>
      var (host, r) := ImportUrl(parse, c.host, fetched);
      if r.Err? then Quiet(c.(host := host), HostError)
      else if r.value.None? then Quiet(c.(host := host), Done)
      else Quiet(Saved(Shown(c, host, View(r.value.value)), saves), Done)
    case UpdateFromUrl(fetched, env, saves) =>
      var (host, r) := UpdateUrl(parse, c.host, fetched, env);
      var updated := c.(host := host);
      if r.Err? then Quiet(updated, HostError)
      else
        var stored := if r.value.applied then Saved(WithUpdate(updated, r.value.update), saves) else updated;
        Quiet(stored.(shell := WithStatus(stored.shell, r.value.status)), Done)
    case SelectTag(tag, env, saves) =>
      var (host, r) := Select(parse, c.host, tag, env);
      if r.Err? then Quiet(c.(host := host), HostError) else Quiet(Saved(Shown(c, host, View(r.value)), saves), Done)
    case RefreshHealth(notes, summary, diagnostic) =>
      var (host, r) := Refresh(parse, c.host, notes, summary, diagnostic);
      if r.Err? then Quiet(c.(host := host), HostError) else Quiet(Shown(c, host, View(r.value)), Done)
    case SetMode(mode) =>
      var host := c.host.(mode := mode);
      Quiet(c.(host := host, shell := WithStatus(c.shell, HostStatus(host))), Done)
    case SetListenAddress(address) =>
      var host := c.host.(listen := address);
      Quiet(c.(host := host, shell := WithStatus(c.shell, HostStatus(host))), Done)
    case InstallWintun(installs, d) =>
      if installs then Quiet(Answered(c, c.host, HostStatus(c.host), d), Done) else Quiet(c, HostError)
  }

  /** `restore_persisted_subscription`; `loads` says whether the store can be read. */
  function Restored(parse: ConfigParser, c: ControllerState, loads: bool, env: ReloadEnv): ControllerState {
    if c.store.None? || c.store.value.None? || !loads then c
    else
      var saved := c.store.value.value;
      var (imported, r) := Import(parse, c.host, saved.text);
      if r.Err? then c.(host := imported)
      else
        var shown := c.(host := imported, shell := WithSubscription(c.shell, Some(View(r.value))));
        var chosen :=
          if saved.selected.None? then shown
          else
            var (selected, s) := Select(parse, imported, saved.selected.value, env);
            if s.Err? then shown.(host := selected)
            else shown.(host := selected, shell := WithSubscription(shown.shell, Some(View(s.value))));
        chosen.(shell := WithStatus(chosen.shell, HostStatus(chosen.host)))
  }

  /** `from_parts`: a new shell over a new host, then whatever the store brings back. */
  function NewController(parse: ConfigParser, hasTun: bool, d: Dependencies, store: Option<Option<Persisted>>, loads: bool,
                         env: ReloadEnv): ControllerState
  {
    var host := DesktopService.Fresh(hasTun);
    Restored(parse, ControllerState(host, NewShell(HostStatus(host), d), store), loads, env)
  }

  // ---------------------------------------------------------------------
  // The controller object
  // ---------------------------------------------------------------------

  class DesktopShellController {
    const host: DesktopRuntimeService
    const shell: DesktopShellState
    var store: Option<Option<Persisted>>

    function State(): ControllerState
      reads this, host, shell
    {
      ControllerState(host.State(), shell.State(), store)
    }

    constructor (host: DesktopRuntimeService, d: Dependencies, store: Option<Option<Persisted>>)
      ensures this.host == host && fresh(shell) && this.store == store
      ensures State() == ControllerState(host.State(), NewShell(HostStatus(host.State()), d), store)
    {
      this.host, this.store := host, store;
      this.shell := new DesktopShellState(HostStatus(host.State()), d);
    }

    /** `persist_current_subscription`. */
    method PersistCurrentSubscription(saves: bool)
      modifies this
      ensures State() == Saved(old(State()), saves)
    {
      if store.None? { return; }
      var subscription := ToPersist(host.State());
      if subscription.None? { return; }
      if saves { store := Some(subscription); }
    }

    /** `restore_persisted_subscription`. */
    method RestorePersistedSubscription(loads: bool, env: ReloadEnv)
      modifies host, shell
      ensures State() == Restored(host.parse, old(State()), loads, env)
    {
      hide Import, Select, WithSubscription, WithStatus, HostStatus;
      if store.None? || store.value.None? || !loads { return; }
      var saved := store.value.value;
      var imported := host.ImportSubscriptionConfig(saved.text);
      if imported.Err? { return; }
      shell.RefreshSubscription(Some(View(imported.value)));
      if saved.selected.Some? {
        var selected := host.SelectNode(saved.selected.value, env);
        if selected.Ok? { shell.RefreshSubscription(Some(View(selected.value))); }
      }
      shell.RefreshStatus(HostStatus(host.State()));
    }

    /** `dispatch` with `request_start` and `request_stop`. */
    method DispatchEvent(action: Action, env: StartEnv, clean: bool, d: Dependencies)
      returns (outcome: Outcome, ghost calls: seq<HostCall>)
      modifies host, shell
      ensures Stepped(State(), calls, outcome) == DispatchAction(host.parse, old(State()), action, env, clean, d)
    {
      hide StartService, StopService, WithStatus, WithDependencies, HostStatus, Applied;
      calls := [];
      match action {
        case RequestStart =>
          if !OffersStart(shell.State()) { return ShellBlocked, calls; }
          calls := [StartCalled];
          var started := host.Start(env);
          if started.Err? { return HostError, calls; }
          shell.RefreshStatus(started.value);
        case RequestStop =>
          if !OffersStop(shell.State()) { return ShellBlocked, calls; }
          calls := [StopCalled];
          var stopped := host.Stop(clean);
          if stopped.Err? { return HostError, calls; }
          shell.RefreshStatus(stopped.value);
        case _ =>
          shell.Apply(action);
          return Done, calls;
      }
      shell.RefreshDependencies(d);
      outcome := Done;
    }

    /** The tail every successful subscription command shares: refresh the summary and the status. */
    method ShowSummary(view: SubscriptionView)
      modifies shell
      ensures State() == Shown(old(State()), host.State(), view)
    {
      shell.RefreshSubscription(Some(view));
      shell.RefreshStatus(HostStatus(host.State()));
    }

    method ImportSubscriptionText(text: string, saves: bool) returns (outcome: Outcome)
      modifies this, host, shell
      ensures Quiet(State(), outcome) == ImportInto(host.parse, old(State()), text, saves)
    {
      hide Import, Shown, Saved, View;
      var summary := host.ImportSubscriptionConfig(text);
      if summary.Err? { return HostError; }
      ghost var imported := State();
      ShownFrom(old(State()), imported, View(summary.value));
      ShowSummary(View(summary.value));
      PersistCurrentSubscription(saves);
      outcome := Done;
    }

    /** `connect_panel`: the panel snapshot is shown even when fetching its subscription fails. */
    method ConnectToPanel(login: Option<string>, batch: Option<string>, saves: bool) returns (outcome: Outcome)
      modifies this, host, shell
      ensures Quiet(State(), outcome) == ControllerStep(host.parse, old(State()), ConnectPanel(login, batch, saves))
    {
      hide ImportInto, WithPanel, Derived;
      if login.None? { return HostError; }
      shell.RefreshPanel(login);
      if batch.None? { return HostError; }
      outcome := ImportSubscriptionText(batch.value, saves);
    }

    /** `import_panel_config` and `import_panel_session_config`: nothing is saved here. */
    method ImportPanelServer(server: string, fetched: Option<string>, env: ReloadEnv, env2: ReloadEnv) returns (outcome: Outcome)
      modifies host, shell
      ensures Quiet(State(), outcome) == ControllerStep(host.parse, old(State()), ImportPanelNode(server, fetched, env, env2))
    {
      hide ImportPanel, Shown, View, Derived;
      if fetched.None? { return HostError; }
      var summary := host.ImportPanelConfig(server, fetched.value, env, env2);
      if summary.Err? { return HostError; }
      ghost var imported := State();
      ShownFrom(old(State()), imported, View(summary.value));
      ShowSummary(View(summary.value));
      outcome := Done;
    }

    method ImportSubscriptionFromUrl(fetched: Option<string>, saves: bool) returns (outcome: Outcome)
      modifies this, host, shell
      ensures Quiet(State(), outcome) == ControllerStep(host.parse, old(State()), ImportFromUrl(fetched, saves))
    {
      hide ImportUrl, Shown, Saved, View, Derived;
      var summary := host.ImportSubscriptionUrl(fetched);
      if summary.Err? { return HostError; }
      if summary.value.None? { return Done; }
      ghost var imported := State();
      ShownFrom(old(State()), imported, View(summary.value.value));
      ShowSummary(View(summary.value.value));
      PersistCurrentSubscription(saves);
      outcome := Done;
    }

    /** `refresh`, and `install_wintun_from_path` when it works. */
    method RefreshStatusAndDependencies(d: Dependencies)
      modifies shell
      ensures State() == Answered(old(State()), host.State(), HostStatus(host.State()), d)
    {
      shell.RefreshStatus(HostStatus(host.State()));
      shell.RefreshDependencies(d);
    }

    method SetTrafficModeTo(mode: TrafficMode)
      modifies host, shell
      ensures State() == ControllerStep(host.parse, old(State()), SetMode(mode)).state
    {
      hide HostStatus, WithStatus, Derived;
      host.SetTrafficMode(mode);
      shell.RefreshStatus(HostStatus(host.State()));
    }

    method SetListenTo(address: string)
      modifies host, shell
      ensures State() == ControllerStep(host.parse, old(State()), SetListenAddress(address)).state
    {
      hide HostStatus, WithStatus, Derived;
      host.SetListen(address);
      shell.RefreshStatus(HostStatus(host.State()));
    }

    method SelectNodeTag(tag: string, env: ReloadEnv, saves: bool) returns (outcome: Outcome)
      modifies this, host, shell
      ensures Quiet(State(), outcome) == ControllerStep(host.parse, old(State()), SelectTag(tag, env, saves))
    {
      hide Select, Shown, Saved, View;
      var summary := host.SelectNode(tag, env);
      if summary.Err? { return HostError; }
      ghost var selected := State();
      ShownFrom(old(State()), selected, View(summary.value));
      ShowSummary(View(summary.value));
      PersistCurrentSubscription(saves);
      outcome := Done;
    }

    method UpdateSubscriptionFromUrl(fetched: Option<string>, env: ReloadEnv, saves: bool) returns (outcome: Outcome)
      modifies this, host, shell
      ensures Quiet(State(), outcome) == ControllerStep(host.parse, old(State()), UpdateFromUrl(fetched, env, saves))
    {
      hide UpdateUrl, WithStatus, WithSubscription, HostStatus, View;
      var updated := host.UpdateSubscriptionUrl(fetched, env);
      if updated.Err? { return HostError; }
      if updated.value.applied {
        if updated.value.update.Some? {
          shell.RefreshSubscription(Some(View(updated.value.update.value.subscription)));
        }
        PersistCurrentSubscription(saves);
      }
      shell.RefreshStatus(updated.value.status);
      outcome := Done;
    }

    method RefreshNodes(notes: seq<string>, summary: string, diagnostic: string) returns (outcome: Outcome)
      modifies host, shell
      ensures Quiet(State(), outcome) == ControllerStep(host.parse, old(State()), RefreshHealth(notes, summary, diagnostic))
    {
      hide Refresh, Shown, View;
      var shown := host.RefreshNodeHealth(notes, summary, diagnostic);
      if shown.Err? { return HostError; }
      ghost var refreshed := State();
      ShownFrom(old(State()), refreshed, View(shown.value));
      ShowSummary(View(shown.value));
      outcome := Done;
    }
  }

  lemma ShownFrom(c: ControllerState, d: ControllerState, view: SubscriptionView)
    requires d == c.(host := d.host)
    ensures Shown(d, d.host, view) == Shown(c, d.host, view)
  {
  }

  // ---------------------------------------------------------------------
  // The gate
  // ---------------------------------------------------------------------

  /** The derived fields are in step with the base fields after every operation. */
  lemma StepDerived(parse: ConfigParser, c: ControllerState, op: Op)
    requires Derived(c.shell)
    ensures Derived(ControllerStep(parse, c, op).state.shell)
  {
    hide HostStatus, Import, Select, UpdateUrl, Refresh, StartService, StopService, ImportPanel, ImportUrl, View,
         ToPersist, Derived, OffersStart, OffersStop, Applied, WithStatus, WithSubscription, WithDependencies, WithPanel;
  }

  /**
   * The host's start is called exactly by a start request on a shell that is stopped or failed
   * with a usable subscription and a permitted mode, its stop exactly by a stop request on a
   * running shell.
   */
  lemma CallsAreGated(parse: ConfigParser, c: ControllerState, op: Op)
    requires Derived(c.shell)
    ensures ControllerStep(parse, c, op).calls
            == if !op.Dispatch? then []
               else if op.action == RequestStart && AtRest(c.shell) && MayStart(c.shell) then [StartCalled]
               else if op.action == RequestStop && c.shell.status.runState == RunState.Running then [StopCalled]
               else []
  {
    PrimaryMeaning(c.shell);
    hide DerivePrimary, DeriveTray, CanStartFor, HostStatus, Import, Select, UpdateUrl, Refresh, StartService, StopService,
         ImportPanel, ImportUrl, View, ToPersist, Rebuilt, Derived, MayStart,
         WithStatus, WithSubscription, WithDependencies, WithPanel, Applied;
  }

  /** A start or stop request is refused by the shell exactly when the primary button would not have sent it. */
  lemma BlockedIffNotOffered(parse: ConfigParser, c: ControllerState, action: Action, env: StartEnv, clean: bool, d: Dependencies)
    requires Derived(c.shell)
    ensures ControllerStep(parse, c, Dispatch(action, env, clean, d)).outcome == ShellBlocked
            <==> (action == RequestStart || action == RequestStop) && PrimaryEvent(c.shell) != Some(action)
    ensures PrimaryEvent(c.shell) == Some(action) ==>
              ControllerStep(parse, c, Dispatch(action, env, clean, d)).outcome != ShellBlocked
  {
    hide HostStatus, StartService, StopService, Rebuilt, Derived, Applied, WithStatus, WithDependencies;
  }

  // ---------------------------------------------------------------------
  // The snapshot and the core
  // ---------------------------------------------------------------------

  /** A status shows the run state the host is in and the mode it has stored. */
  predicate Shows(status: StatusSnapshot, s: ServiceState) {
    status.runState == HostStatus(s).runState && status.mode == s.mode
  }

  predicate Synced(c: ControllerState) { Shows(c.shell.status, c.host) }

  predicate Consistent(parse: ConfigParser, c: ControllerState) {
    Derived(c.shell) && CoreSound(parse, c.host.core)
  }

  /** A sound host reports running while its core runs and stopped otherwise. */
  lemma HostRunState(parse: ConfigParser, s: ServiceState)
    requires CoreSound(parse, s.core)
    ensures HostStatus(s).runState == if IsRunning(s.core) then RunState.Running else RunState.Stopped
    ensures HostStatus(s).mode == s.mode
  {
    hide Runtime.Consistent;
  }

  /** The host after an operation, as far as its core is concerned. */
  lemma StepCore(parse: ConfigParser, c: ControllerState, op: Op)
    requires CoreSound(parse, c.host.core)
    ensures CoreSound(parse, ControllerStep(parse, c, op).state.host.core)
    ensures !op.Dispatch? ==>
              IsRunning(ControllerStep(parse, c, op).state.host.core) == IsRunning(c.host.core)
  {
    hide CoreSound, Update, Select, Refresh, StartService, StopService, UpdateUrl, ImportPanel, HostStatus, Rebuilt,
         View, ToPersist, WithStatus, WithSubscription, WithDependencies, WithPanel, Applied;
    match op
    case Dispatch(action, env, clean, d) =>
      StartCore(parse, c.host, env);
      StopCore(parse, c.host, clean);
    case ImportPanelNode(server, fetched, env, env2) =>
      if fetched.Some? { ImportPanelCore(parse, c.host, server, fetched.value, env, env2); }
    case UpdateFromUrl(fetched, env, _) => UpdateUrlCore(parse, c.host, fetched, env);
    case SelectTag(tag, env, _) => SelectCore(parse, c.host, tag, env);
    case RefreshHealth(notes, summary, diagnostic) => RefreshCore(parse, c.host, notes, summary, diagnostic);
    case _ =>
  }

  /** A stop that reaches a running core and reports errors. */
  predicate UncleanStop(c: ControllerState, op: Op) {
    op.Dispatch? && op.action == RequestStop && OffersStop(c.shell) && IsRunning(c.host.core) && !op.clean
  }

  /** The shell's status is either what it was or shows the host after the operation. */
  lemma StepStatus(parse: ConfigParser, c: ControllerState, op: Op)
    requires CoreSound(parse, c.host.core)
    ensures var d := ControllerStep(parse, c, op).state;
            && (d.shell.status == c.shell.status || Shows(d.shell.status, d.host))
            && (op.SetMode? ==> Shows(d.shell.status, d.host))
  {
    hide Import, Select, UpdateUrl, Refresh, StartService, StopService, ImportPanel, ImportUrl, View, ToPersist,
         Applied, WithStatus, WithSubscription, WithDependencies, WithPanel, OffersStart, OffersStop, CoreSound, HostStatus,
         Shows;
    HostShows(ControllerStep(parse, c, op).state.host);
    match op
    case Dispatch(_, env, clean, _) =>
      DispatchState(parse, c, op);
      StartCore(parse, c.host, env);
      StopCore(parse, c.host, clean);
    case UpdateFromUrl(fetched, env, saves) =>
      UpdateUrlShows(parse, c.host, fetched, env);
      UpdateState(parse, c, op);
    case _ =>
  }

  lemma UpdateState(parse: ConfigParser, c: ControllerState, op: Op)
    requires op.UpdateFromUrl?
    ensures var d := ControllerStep(parse, c, op).state;
            var (host, r) := UpdateUrl(parse, c.host, op.fetched, op.env);
            d.host == host && d.shell.status == if r.Ok? then r.value.status else c.shell.status
  {
    hide UpdateUrl, WithStatus, WithSubscription, View, ToPersist;
    var (host, r) := UpdateUrl(parse, c.host, op.fetched, op.env);
    if r.Ok? {
      var updated := c.(host := host);
      var stored := if r.value.applied then Saved(WithUpdate(updated, r.value.update), op.saves) else updated;
      assert WithStatus(stored.shell, r.value.status).status == r.value.status;
    }
  }

  lemma HostShows(s: ServiceState)
    ensures Shows(HostStatus(s), s)
  {
  }

  lemma UpdateUrlShows(parse: ConfigParser, s: ServiceState, fetched: Option<string>, env: ReloadEnv)
    ensures var (t, r) := UpdateUrl(parse, s, fetched, env);
            r.Ok? ==> Shows(r.value.status, t)
  {
    hide HandleUpdate, UpdatedSummary;
  }

  /** The operation is a successful start. */
  predicate Starts(parse: ConfigParser, c: ControllerState, op: Op) {
    !IsRunning(c.host.core) && IsRunning(ControllerStep(parse, c, op).state.host.core)
  }

  /** Only setting it changes the stored mode, and only a successful start the one the core runs in. */
  lemma StepMode(parse: ConfigParser, c: ControllerState, op: Op)
    requires CoreSound(parse, c.host.core)
    ensures var d := ControllerStep(parse, c, op).state;
            && d.host.mode == (if op.SetMode? then op.mode else c.host.mode)
            && d.host.core.mode == if Starts(parse, c, op) then c.host.mode else c.host.core.mode
  {
    hide CoreSound, Update, Select, Refresh, StartService, StopService, UpdateUrl, ImportPanel, HostStatus, Rebuilt,
         View, ToPersist, WithStatus, WithSubscription, WithDependencies, WithPanel, Applied;
    match op
    case Dispatch(_, _, _, _) => DispatchMode(parse, c, op);
    case ImportPanelNode(server, fetched, env, env2) =>
      if fetched.Some? { ImportPanelCore(parse, c.host, server, fetched.value, env, env2); }
    case UpdateFromUrl(fetched, env, _) =>
      UpdateState(parse, c, op);
      UpdateUrlCore(parse, c.host, fetched, env);
    case SelectTag(tag, env, _) => SelectCore(parse, c.host, tag, env);
    case RefreshHealth(notes, summary, diagnostic) => RefreshCore(parse, c.host, notes, summary, diagnostic);
    case _ =>
  }

  lemma DispatchMode(parse: ConfigParser, c: ControllerState, op: Op)
    requires CoreSound(parse, c.host.core) && op.Dispatch?
    ensures var d := ControllerStep(parse, c, op).state;
            && d.host.mode == c.host.mode
            && d.host.core.mode == if Starts(parse, c, op) then c.host.mode else c.host.core.mode
  {
    hide CoreSound, StartService, StopService, ControllerStep, OffersStart, OffersStop;
    var d := ControllerStep(parse, c, op).state;
    DispatchState(parse, c, op);
    if op.action == RequestStart && OffersStart(c.shell) {
      StartCore(parse, c.host, op.start);
      assert d.host == StartService(parse, c.host, op.start).0;
    } else if op.action == RequestStop && OffersStop(c.shell) {
      StopCore(parse, c.host, op.clean);
      assert d.host == StopService(c.host, op.clean).0;
    }
  }

  /** A dispatched action leaves the core's run state to the shell, unless it was an unclean stop. */
  lemma DispatchSync(parse: ConfigParser, c: ControllerState, op: Op)
    requires op.Dispatch? && CoreSound(parse, c.host.core)
    ensures var d := ControllerStep(parse, c, op).state;
            || d.shell.status == HostStatus(d.host)
            || (d.shell.status == c.shell.status
                && (if UncleanStop(c, op) then IsRunning(c.host.core) && !IsRunning(d.host.core)
                    else IsRunning(d.host.core) == IsRunning(c.host.core)))
    ensures UncleanStop(c, op) ==> ControllerStep(parse, c, op).state.shell.status == c.shell.status
                                   && !IsRunning(ControllerStep(parse, c, op).state.host.core)
  {
    hide CoreSound, StartService, StopService, HostStatus, ControllerStep, OffersStart, OffersStop;
    DispatchState(parse, c, op);
    var d := ControllerStep(parse, c, op).state;
    if op.action == RequestStart && OffersStart(c.shell) {
      StartCore(parse, c.host, op.start);
      var (t, r) := StartService(parse, c.host, op.start);
      assert d.host == t && d.shell.status == if r.Ok? then r.value else c.shell.status;
    } else if op.action == RequestStop && OffersStop(c.shell) {
      StopCore(parse, c.host, op.clean);
      var (t, r) := StopService(c.host, op.clean);
      assert d.host == t && d.shell.status == if r.Ok? then r.value else c.shell.status;
    }
  }

  /** Where a dispatched start or stop leaves the controller. */
  lemma DispatchState(parse: ConfigParser, c: ControllerState, op: Op)
    requires op.Dispatch?
    ensures var d := ControllerStep(parse, c, op).state;
            var (started, r) := StartService(parse, c.host, op.start);
            var (stopped, q) := StopService(c.host, op.clean);
            var outcome := ControllerStep(parse, c, op).outcome;
            if op.action == RequestStart && OffersStart(c.shell) then
              && d.host == started && d.shell.status == (if r.Ok? then r.value else c.shell.status)
              && d.shell.dependencies == (if r.Ok? then op.dependencies else c.shell.dependencies)
              && outcome == if r.Ok? then Done else HostError
            else if op.action == RequestStop && OffersStop(c.shell) then
              && d.host == stopped && d.shell.status == (if q.Ok? then q.value else c.shell.status)
              && d.shell.dependencies == (if q.Ok? then op.dependencies else c.shell.dependencies)
              && outcome == if q.Ok? then Done else HostError
            else
              && d.host == c.host && d.shell.status == c.shell.status
              && outcome == if op.action == RequestStart || op.action == RequestStop then ShellBlocked else Done
  {
    hide StartService, StopService, WithStatus, WithDependencies, Applied, OffersStart, OffersStop;
  }

  /**
   * Every operation leaves the shell showing the run state and mode the host is really in, except
   * for exactly one case: a stop of a running core that reports errors. There the core is gone but
   * the shell still shows it running.
   */
  lemma SyncedIff(parse: ConfigParser, c: ControllerState, op: Op)
    requires Consistent(parse, c) && Synced(c)
    ensures Consistent(parse, ControllerStep(parse, c, op).state)
    ensures Synced(ControllerStep(parse, c, op).state) <==> !UncleanStop(c, op)
  {
    var d := ControllerStep(parse, c, op).state;
    StepDerived(parse, c, op);
    StepCore(parse, c, op);
    StepStatus(parse, c, op);
    StepMode(parse, c, op);
    HostRunState(parse, c.host);
    HostRunState(parse, d.host);
    if op.Dispatch? { DispatchSync(parse, c, op); }
    hide HostStatus, ControllerStep, CoreSound, OffersStop, Derived;
  }

  /** A new controller after importing a text with one node: stopped, and able to start in permitted modes. */
  function WithOneNode(d: Dependencies, reload: ReloadEnv): ControllerState {
    ControllerStep(OneNode(), NewController(OneNode(), false, d, None, true, reload), ImportText("a", true)).state
  }

  predicate Startable(c: ControllerState) {
    && c.host.config == Some("a") && c.host.selected == Some("a") && c.host.core == IDLE
    && c.shell.status.runState == RunState.Stopped && HasUsable(c.shell.subscription)
  }

  lemma OneNodeStartable(d: Dependencies, reload: ReloadEnv)
    ensures var c := WithOneNode(d, reload);
            Startable(c) && Derived(c.shell) && c.shell.status.mode == MixedInboundOnly == c.host.mode
            && c.shell.dependencies == d
  {
    hide DerivePrimary, DeriveTray, CanStartFor;
  }

  /** A permitted start of such a controller runs the core in the stored mode and shows that. */
  lemma OneNodeStarts(c: ControllerState, env: StartEnv, d: Dependencies)
    requires Startable(c) && Derived(c.shell) && ModePermitted(c.shell.status, c.shell.dependencies)
    requires StartWorks(env) && c.host.mode != Tun
    ensures var t := ControllerStep(OneNode(), c, Dispatch(RequestStart, env, true, d)).state;
            && IsRunning(t.host.core) && t.host.core.mode == c.host.mode && Derived(t.shell)
            && t.shell.status.runState == RunState.Running
  {
    PrimaryMeaning(c.shell);
    StartOutcome(OneNode(), c.host, env);
    StepDerived(OneNode(), c, Dispatch(RequestStart, env, true, d));
    DispatchState(OneNode(), c, Dispatch(RequestStart, env, true, d));
    hide ControllerStep, StartService, StopService, Derived, ModePermitted, HasUsable;
  }

  /** The one case does happen: the core is gone, the shell shows it running, and a refresh puts it right. */
  lemma UncleanStopHappens(d: Dependencies, env: StartEnv, reload: ReloadEnv)
    requires StartWorks(env)
    ensures var parse := OneNode();
            var c1 := WithOneNode(d, reload);
            var c2 := ControllerStep(parse, c1, Dispatch(RequestStart, env, true, d)).state;
            var c3 := ControllerStep(parse, c2, Dispatch(RequestStop, env, false, d)).state;
            && IsRunning(c2.host.core)
            && !IsRunning(c3.host.core) && c3.shell.status.runState == RunState.Running
            && Synced(ControllerStep(parse, c3, RefreshAll(d)).state)
  {
    var parse, c1 := OneNode(), WithOneNode(d, reload);
    OneNodeStartable(d, reload);
    hide WithOneNode;
    OneNodeStarts(c1, env, d);
    var c2 := ControllerStep(parse, c1, Dispatch(RequestStart, env, true, d)).state;
    hide ControllerStep;
    PrimaryMeaning(c2.shell);
    var stop := Dispatch(RequestStop, env, false, d);
    DispatchState(parse, c2, stop);
    StopFails(c2.host);
    RefreshShows(parse, ControllerStep(parse, c2, stop).state, d);
    hide Derived, Synced, StopService, StartService;
  }

  lemma StopFails(s: ServiceState)
    requires IsRunning(s.core)
    ensures !IsRunning(StopService(s, false).0.core) && StopService(s, false).1.Err?
  {
  }

  lemma RefreshShows(parse: ConfigParser, c: ControllerState, d: Dependencies)
    ensures Synced(ControllerStep(parse, c, RefreshAll(d)).state)
  {
    hide WithStatus, WithDependencies;
    assert WithDependencies(WithStatus(c.shell, HostStatus(c.host)), d).status == HostStatus(c.host);
  }

  /** In step with the host, the host's start is never called while its core runs, nor its stop while it does not. */
  lemma CallsFitCore(parse: ConfigParser, c: ControllerState, op: Op)
    requires Consistent(parse, c) && Synced(c)
    ensures StartCalled in ControllerStep(parse, c, op).calls ==> !IsRunning(c.host.core)
    ensures StopCalled in ControllerStep(parse, c, op).calls ==> IsRunning(c.host.core)
  {
    CallsAreGated(parse, c, op);
    HostRunState(parse, c.host);
    hide HostStatus, ControllerStep, CoreSound, Derived;
  }

  function After(parse: ConfigParser, c: ControllerState, ops: seq<Op>): ControllerState {
    if ops == [] then c
    else ControllerStep(parse, After(parse, c, ops[..|ops| - 1]), ops[|ops| - 1]).state
  }

  predicate NoUncleanStop(parse: ConfigParser, c: ControllerState, ops: seq<Op>) {
    forall i :: 0 <= i < |ops| ==> !UncleanStop(After(parse, c, ops[..i]), ops[i])
  }

  lemma NoUncleanPrefix(parse: ConfigParser, c: ControllerState, ops: seq<Op>, n: nat)
    requires NoUncleanStop(parse, c, ops) && n < |ops|
    ensures NoUncleanStop(parse, c, ops[..n]) && !UncleanStop(After(parse, c, ops[..n]), ops[n])
  {
    hide UncleanStop, After;
    assert forall i :: 0 <= i < n ==> ops[..n][i] == ops[i] && ops[..n][..i] == ops[..i];
  }

  /** A new controller is consistent and in step, whatever its store holds and whether it can be read. */
  lemma NewControllerReady(
    parse: ConfigParser, hasTun: bool, d: Dependencies, store: Option<Option<Persisted>>, loads: bool, env: ReloadEnv)
    ensures var c := NewController(parse, hasTun, d, store, loads, env);
            && Consistent(parse, c) && Synced(c)
            && !IsRunning(c.host.core) && c.host.mode == MixedInboundOnly && c.host.listen == "127.0.0.1:7890"
            && c.shell.status == HostStatus(c.host)
  {
    hide WithStatus, WithSubscription, View, DerivePrimary;
  }

  lemma {:induction false} StaysSynced(parse: ConfigParser, c: ControllerState, ops: seq<Op>)
    requires Consistent(parse, c) && Synced(c) && NoUncleanStop(parse, c, ops)
    ensures Consistent(parse, After(parse, c, ops)) && Synced(After(parse, c, ops))
  {
    if ops != [] {
      hide Consistent, Synced, ControllerStep, UncleanStop;
      var n := |ops| - 1;
      NoUncleanPrefix(parse, c, ops, n);
      hide NoUncleanStop;
      StaysSynced(parse, c, ops[..n]);
      SyncedIff(parse, After(parse, c, ops[..n]), ops[n]);
    }
  }

  /** Over every run of a new controller without an unclean stop, the shell stays in step with the host. */
  lemma RunSynced(
    parse: ConfigParser, hasTun: bool, d: Dependencies, store: Option<Option<Persisted>>, loads: bool, env: ReloadEnv,
    ops: seq<Op>)
    requires NoUncleanStop(parse, NewController(parse, hasTun, d, store, loads, env), ops)
    ensures var c := After(parse, NewController(parse, hasTun, d, store, loads, env), ops);
            Consistent(parse, c) && Synced(c)
  {
    hide NewController, Consistent, Synced, NoUncleanStop;
    NewControllerReady(parse, hasTun, d, store, loads, env);
    StaysSynced(parse, NewController(parse, hasTun, d, store, loads, env), ops);
  }

  lemma {:induction false} StaysConsistent(parse: ConfigParser, c: ControllerState, ops: seq<Op>)
    requires Consistent(parse, c)
    ensures Consistent(parse, After(parse, c, ops))
  {
    if ops != [] {
      hide ControllerStep, Derived, CoreSound;
      StaysConsistent(parse, c, ops[..|ops| - 1]);
      StepDerived(parse, After(parse, c, ops[..|ops| - 1]), ops[|ops| - 1]);
      StepCore(parse, After(parse, c, ops[..|ops| - 1]), ops[|ops| - 1]);
    }
  }

  /** Over every run of a new controller at all, the derived fields are right and the core is sound. */
  lemma RunDerived(
    parse: ConfigParser, hasTun: bool, d: Dependencies, store: Option<Option<Persisted>>, loads: bool, env: ReloadEnv,
    ops: seq<Op>)
    ensures Consistent(parse, After(parse, NewController(parse, hasTun, d, store, loads, env), ops))
  {
    hide NewController, Consistent;
    NewControllerReady(parse, hasTun, d, store, loads, env);
    StaysConsistent(parse, NewController(parse, hasTun, d, store, loads, env), ops);
  }

  // ---------------------------------------------------------------------
  // The mode shown and the mode running
  // ---------------------------------------------------------------------

  /** The mode last set in a run, or the initial one. */
  function ModeSet(ops: seq<Op>): TrafficMode {
    if ops == [] then MixedInboundOnly
    else if ops[|ops| - 1].SetMode? then ops[|ops| - 1].mode
    else ModeSet(ops[..|ops| - 1])
  }

  /** The mode that was set when the last successful start of a run happened. */
  function StartedMode(parse: ConfigParser, c: ControllerState, ops: seq<Op>): Option<TrafficMode> {
    if ops == [] then None
    else
      var before := ops[..|ops| - 1];
      if Starts(parse, After(parse, c, before), ops[|ops| - 1]) then Some(ModeSet(before))
      else StartedMode(parse, c, before)
  }

  predicate Modes(parse: ConfigParser, c: ControllerState, t: ControllerState, ops: seq<Op>) {
    && CoreSound(parse, t.host.core)
    && t.host.mode == ModeSet(ops) && t.shell.status.mode == ModeSet(ops)
    && (IsRunning(t.host.core) ==> StartedMode(parse, c, ops) == Some(t.host.core.mode))
  }

  lemma {:induction false} RunModes(parse: ConfigParser, c: ControllerState, ops: seq<Op>)
    requires CoreSound(parse, c.host.core) && !IsRunning(c.host.core)
    requires c.host.mode == MixedInboundOnly && c.shell.status.mode == MixedInboundOnly
    ensures Modes(parse, c, After(parse, c, ops), ops)
  {
    if ops != [] {
      var n := |ops| - 1;
      var t := After(parse, c, ops[..n]);
      RunModes(parse, c, ops[..n]);
      StepStatus(parse, t, ops[n]);
      StepMode(parse, t, ops[n]);
      StepCore(parse, t, ops[n]);
      hide ControllerStep, CoreSound, HostStatus;
    }
  }

  /**
   * The shell always shows the mode last set. Over every run of a new controller that is the mode
   * the running core works in if and only if it is also the mode that was set at the last
   * successful start: setting the mode of a running core changes what is shown and nothing else.
   */
  lemma ModeShownIff(
    parse: ConfigParser, hasTun: bool, d: Dependencies, store: Option<Option<Persisted>>, loads: bool, env: ReloadEnv,
    ops: seq<Op>)
    ensures var first := NewController(parse, hasTun, d, store, loads, env);
            var c := After(parse, first, ops);
            && c.shell.status.mode == ModeSet(ops)
            && (IsRunning(c.host.core) ==>
                  (c.shell.status.mode == c.host.core.mode <==> StartedMode(parse, first, ops) == Some(ModeSet(ops))))
  {
    NewControllerReady(parse, hasTun, d, store, loads, env);
    hide NewController, HostStatus, Derived, CoreSound;
    RunModes(parse, NewController(parse, hasTun, d, store, loads, env), ops);
    hide After, StartedMode, ModeSet;
  }

  /** It does happen: a core started as system proxy is shown in TUN mode after the mode is set. */
  lemma ModeMisleads(d: Dependencies, env: StartEnv, reload: ReloadEnv)
    requires StartWorks(env) && d.canStartSystemProxy
    ensures var parse := OneNode();
            var c1 := WithOneNode(d, reload);
            var c2 := ControllerStep(parse, c1, SetMode(SystemProxy)).state;
            var c3 := ControllerStep(parse, c2, Dispatch(RequestStart, env, true, d)).state;
            var c4 := ControllerStep(parse, c3, SetMode(Tun)).state;
            && IsRunning(c4.host.core) && c4.host.core.mode == SystemProxy
            && c4.shell.status.runState == RunState.Running && c4.shell.status.mode == Tun
  {
    var parse, c1 := OneNode(), WithOneNode(d, reload);
    OneNodeStartable(d, reload);
    hide WithOneNode;
    var c2 := ControllerStep(parse, c1, SetMode(SystemProxy)).state;
    ModeChanges(parse, c1, SystemProxy);
    OneNodeStarts(c2, env, d);
    ModeChanges(parse, ControllerStep(parse, c2, Dispatch(RequestStart, env, true, d)).state, Tun);
    hide ControllerStep, Derived;
  }

  lemma ModeChanges(parse: ConfigParser, c: ControllerState, mode: TrafficMode)
    ensures var t := ControllerStep(parse, c, SetMode(mode)).state;
            && t.host == c.host.(mode := mode) && Derived(t.shell) && t.shell.status == HostStatus(t.host)
            && t.shell.subscription == c.shell.subscription && t.shell.dependencies == c.shell.dependencies
  {
    hide DerivePrimary, DeriveTray, CanStartFor, HostStatus;
  }

  // ---------------------------------------------------------------------
  // The store
  // ---------------------------------------------------------------------

  /** The store holds what the host would save now. */
  predicate StoreCurrent(c: ControllerState) {
    c.store.Some? && c.host.config.Some? ==> c.store.value == ToPersist(c.host)
  }

  /**
   * Operations that keep the store current: saving works, no import goes around a running core, and
   * a panel node is only imported if the store holds the outcome already, because that path does
   * not save.
   */
  predicate Saving(parse: ConfigParser, c: ControllerState, op: Op) {
    match op
    case ImportText(_, saves) => saves && !IsRunning(c.host.core)
    case ConnectPanel(_, _, saves) => saves && !IsRunning(c.host.core)
    case ImportFromUrl(_, saves) => saves
    case UpdateFromUrl(_, _, saves) => saves
    case SelectTag(_, _, saves) => saves
    case ImportPanelNode(server, fetched, env, env2) =>
      fetched.Some? && c.store.Some? ==>
        var result := PanelResult(parse, c.host, server, fetched.value, env, env2);
        result.None? || c.store.value == result
    case _ => true
  }

  /** The service operation behind a controller operation, if the host is called at all. */
  function HostOp(c: ControllerState, op: Op): Option<DesktopService.Op> {
    match op
    case Dispatch(action, env, clean, _) =>
      if action == RequestStart && OffersStart(c.shell) then Some(DoStartService(env))
      else if action == RequestStop && OffersStop(c.shell) then Some(DoStopService(clean))
      else None
    case ImportText(text, _) => Some(DoImport(text))
    case ConnectPanel(login, batch, _) => if login.Some? && batch.Some? then Some(DoImport(batch.value)) else None
    case ImportPanelNode(server, fetched, env, env2) =>
      if fetched.Some? then Some(DoImportPanel(server, fetched.value, env, env2)) else None
    case ImportFromUrl(fetched, _) => Some(DoImportUrl(fetched))
    case UpdateFromUrl(fetched, env, _) => Some(DoUpdateUrl(fetched, env))
    case SelectTag(tag, env, _) => Some(DoSelect(tag, env))
    case RefreshHealth(notes, summary, diagnostic) => Some(DoRefresh(notes, summary, diagnostic))
    case SetMode(mode) => Some(DoSetMode(mode))
    case SetListenAddress(address) => Some(DoSetListen(address))
    case _ => None
  }

  lemma StepHost(parse: ConfigParser, c: ControllerState, op: Op)
    ensures ControllerStep(parse, c, op).state.host
            == match HostOp(c, op) case None => c.host case Some(h) => ServiceStep(parse, c.host, h)
  {
    hide Import, Select, UpdateUrl, Refresh, StartService, StopService, ImportPanel, ImportUrl, View, ToPersist,
         HostStatus, WithStatus, WithSubscription, WithDependencies, WithPanel, Applied, OffersStart, OffersStop, Derived;
  }

  /** Every controller operation keeps the host sound, except a direct import into a running core. */
  lemma StepHostSound(parse: ConfigParser, c: ControllerState, op: Op)
    requires Sound(parse, c.host) && Saving(parse, c, op)
    ensures Sound(parse, ControllerStep(parse, c, op).state.host)
  {
    hide Sound, ControllerStep;
    StepSoundHost(parse, c, op);
  }

  /** What a host operation leaves unsaved: nothing, unless it reports success. */
  lemma SelectUnchanged(parse: ConfigParser, s: ServiceState, tag: string, env: ReloadEnv)
    ensures Select(parse, s, tag, env).1.Err? ==> ToPersist(Select(parse, s, tag, env).0) == ToPersist(s)
  {
    hide HandleReload;
  }

  lemma ImportUnchanged(parse: ConfigParser, s: ServiceState, text: string, fetched: Option<string>)
    ensures Import(parse, s, text).1.Err? ==> Import(parse, s, text).0 == s
    ensures ImportUrl(parse, s, fetched).1.Err? || ImportUrl(parse, s, fetched).1.value.None?
            ==> ImportUrl(parse, s, fetched).0 == s
  {
  }

  lemma UpdateUnchanged(parse: ConfigParser, s: ServiceState, fetched: Option<string>, env: ReloadEnv)
    ensures UpdateUrl(parse, s, fetched, env).1.Err? || !UpdateUrl(parse, s, fetched, env).1.value.applied
            ==> ToPersist(UpdateUrl(parse, s, fetched, env).0) == ToPersist(s)
  {
    hide HandleUpdate, UpdatedSummary, Runtime.Step, CoreStatus;
  }

  lemma RunUnchanged(parse: ConfigParser, s: ServiceState, notes: seq<string>, summary: string, diagnostic: string,
                     start: StartEnv, clean: bool)
    requires Sound(parse, s)
    ensures ToPersist(Refresh(parse, s, notes, summary, diagnostic).0) == ToPersist(s)
    ensures ToPersist(StartService(parse, s, start).0) == ToPersist(s)
    ensures ToPersist(StopService(s, clean).0) == ToPersist(s)
  {
    if s.core.handle.Some? { ProbeHealthy(parse, s.core.handle.value, notes, summary, diagnostic); }
    hide Healthy, HandleProbe, CoreStart, CoreStop, CoreStatus, CoreSummary, Fits, ConfigOf;
  }

  lemma ConfigPersists(s: ServiceState, t: ServiceState)
    ensures ToPersist(s) == ToPersist(t) ==> s.config == t.config && (s.config.Some? ==> s.selected == t.selected)
    ensures ToPersist(s).Some? <==> s.config.Some?
  {
  }

  /** Either the operation saved, or what would be saved and the store are both as before. */
  lemma StepSaves(parse: ConfigParser, c: ControllerState, op: Op)
    requires Sound(parse, c.host) && StoreCurrent(c) && Saving(parse, c, op)
    ensures var d := ControllerStep(parse, c, op).state;
            || d == Saved(d, true)
            || (d.store == c.store && ToPersist(d.host) == ToPersist(c.host))
  {
    match op
    case Dispatch(action, env, clean, _) => SaveNothing(parse, c, op, env, clean, [], "", "");
    case RefreshHealth(notes, summary, diagnostic) =>
      SaveNothing(parse, c, op, StartEnv(None, true, true, true, 0), true, notes, summary, diagnostic);
    case ImportText(text, _) => SaveImport(parse, c, op, text);
    case ConnectPanel(_, batch, _) => SaveImport(parse, c, op, if batch.Some? then batch.value else "");
    case ImportFromUrl(fetched, _) => SaveFetched(parse, c, op, fetched, NO_RELOAD);
    case UpdateFromUrl(fetched, env, _) => SaveFetched(parse, c, op, fetched, env);
    case SelectTag(tag, env, _) => SaveSelect(parse, c, op, tag, env);
    case ImportPanelNode(_, _, _, _) => SavePanel(parse, c, op);
    case _ => hide HostStatus, Rebuilt;
  }

  const NO_RELOAD: ReloadEnv := ReloadEnv(true, true, 0, "", "")

  lemma SaveNothing(parse: ConfigParser, c: ControllerState, op: Op, env: StartEnv, clean: bool, notes: seq<string>,
                    summary: string, diagnostic: string)
    requires Sound(parse, c.host)
    requires (op.Dispatch? && op.start == env && op.clean == clean)
             || op == RefreshHealth(notes, summary, diagnostic)
    ensures var d := ControllerStep(parse, c, op).state;
            d.store == c.store && ToPersist(d.host) == ToPersist(c.host)
  {
    hide Sound, Refresh, StartService, StopService, Select, Import, ImportUrl, UpdateUrl, ToPersist;
    RunUnchanged(parse, c.host, notes, summary, diagnostic, env, clean);
    hide Sound, Refresh, StartService, StopService, HostStatus, WithStatus, WithSubscription, WithDependencies, Applied,
         ToPersist, OffersStart, OffersStop;
  }

  lemma SavedTwice(c: ControllerState, saves: bool)
    requires saves
    ensures Saved(Saved(c, saves), true) == Saved(c, saves)
  {
  }

  lemma SaveImport(parse: ConfigParser, c: ControllerState, op: Op, text: string)
    requires Sound(parse, c.host) && Saving(parse, c, op)
    requires op == ImportText(text, true) || (op.ConnectPanel? && (op.batch.Some? ==> op.batch.value == text))
    ensures var d := ControllerStep(parse, c, op).state;
            d == Saved(d, true) || (d.store == c.store && ToPersist(d.host) == ToPersist(c.host))
  {
    ImportUnchanged(parse, c.host, text, None);
    var (host, r) := Import(parse, c.host, text);
    if r.Ok? {
      SavedTwice(Shown(c, host, View(r.value)), true);
      if op.ConnectPanel? { SavedTwice(Shown(c.(shell := WithPanel(c.shell, op.login)), host, View(r.value)), true); }
    }
    hide Sound, Import, HostStatus, WithPanel, ToPersist, View, Shown, Saved;
  }

  lemma SaveSelect(parse: ConfigParser, c: ControllerState, op: Op, tag: string, env: ReloadEnv)
    requires Sound(parse, c.host) && op == SelectTag(tag, env, true)
    ensures var d := ControllerStep(parse, c, op).state;
            d == Saved(d, true) || (d.store == c.store && ToPersist(d.host) == ToPersist(c.host))
  {
    SelectUnchanged(parse, c.host, tag, env);
    var (host, r) := Select(parse, c.host, tag, env);
    if r.Ok? { SavedTwice(Shown(c, host, View(r.value)), true); }
    hide Sound, Select, HostStatus, ToPersist, View, Shown, Saved;
  }

  lemma SavePanel(parse: ConfigParser, c: ControllerState, op: Op)
    requires Sound(parse, c.host) && StoreCurrent(c) && op.ImportPanelNode? && Saving(parse, c, op)
    ensures var d := ControllerStep(parse, c, op).state;
            d == Saved(d, true) || (d.store == c.store && ToPersist(d.host) == ToPersist(c.host))
  {
    if op.fetched.Some? {
      if c.store.Some? { PanelImportStoreIff(parse, c, op.server, op.fetched.value, op.env, op.env2); }
      PanelImportState(parse, c, op.server, op.fetched.value, op.env, op.env2);
      hide ControllerStep, PanelResult, ImportPanel;
    }
  }

  lemma SaveFetched(parse: ConfigParser, c: ControllerState, op: Op, fetched: Option<string>, env: ReloadEnv)
    requires Sound(parse, c.host)
    requires op == ImportFromUrl(fetched, true) || op == UpdateFromUrl(fetched, env, true)
    ensures var d := ControllerStep(parse, c, op).state;
            d == Saved(d, true) || (d.store == c.store && ToPersist(d.host) == ToPersist(c.host))
  {
    hide Refresh, StartService, StopService, Select, Import;
    ImportUnchanged(parse, c.host, "", fetched);
    UpdateUnchanged(parse, c.host, fetched, env);
    hide Sound, ImportUrl, UpdateUrl, HostStatus, ToPersist, View, WithStatus, WithSubscription, Derived;
  }

  /** Under saving operations the host stays sound and the store current. */
  lemma StepStore(parse: ConfigParser, c: ControllerState, op: Op)
    requires Sound(parse, c.host) && StoreCurrent(c) && Saving(parse, c, op)
    ensures var d := ControllerStep(parse, c, op).state;
            Sound(parse, d.host) && StoreCurrent(d) && (d.store.Some? <==> c.store.Some?)
  {
    var d := ControllerStep(parse, c, op).state;
    StepHostSound(parse, c, op);
    StepSaves(parse, c, op);
    StoreStays(parse, c, op);
    ConfigPersists(c.host, d.host);
    hide Sound, ControllerStep, ToPersist;
  }

  lemma StoreStays(parse: ConfigParser, c: ControllerState, op: Op)
    ensures ControllerStep(parse, c, op).state.store.Some? <==> c.store.Some?
  {
    hide Import, Select, UpdateUrl, Refresh, StartService, StopService, ImportPanel, ImportUrl, View, ToPersist,
         HostStatus, WithStatus, WithSubscription, WithDependencies, WithPanel, Applied, OffersStart, OffersStop, Derived;
  }

  predicate AllSaving(parse: ConfigParser, c: ControllerState, ops: seq<Op>) {
    forall i :: 0 <= i < |ops| ==> Saving(parse, After(parse, c, ops[..i]), ops[i])
  }

  lemma AllSavingPrefix(parse: ConfigParser, c: ControllerState, ops: seq<Op>, n: nat)
    requires AllSaving(parse, c, ops) && n < |ops|
    ensures AllSaving(parse, c, ops[..n]) && Saving(parse, After(parse, c, ops[..n]), ops[n])
  {
    hide Saving, After;
    assert forall i :: 0 <= i < n ==> ops[..n][i] == ops[i] && ops[..n][..i] == ops[..i];
  }

  /** What a store may hold: nothing, a text that does not parse, or a text with a selection that fits it. */
  predicate StoreFits(parse: ConfigParser, store: Option<Option<Persisted>>) {
    store.Some? && store.value.Some? && parse(store.value.value.text).Ok? ==>
      Fits(parse, store.value.value.text, store.value.value.selected)
  }

  /** The store is only ever written with what the host has. */
  lemma StoreWritten(parse: ConfigParser, c: ControllerState, op: Op)
    ensures var d := ControllerStep(parse, c, op).state;
            d.store == c.store || (d.host.config.Some? && d.store == Some(ToPersist(d.host)))
  {
    hide Import, Select, UpdateUrl, Refresh, StartService, StopService, ImportPanel, ImportUrl, View, ToPersist,
         HostStatus, WithStatus, WithSubscription, WithDependencies, WithPanel, Applied, OffersStart, OffersStop, Derived;
  }

  /** A host with a subscription never loses it. */
  lemma ConfigStays(parse: ConfigParser, c: ControllerState, op: Op)
    requires c.host.config.Some?
    ensures ControllerStep(parse, c, op).state.host.config.Some?
  {
    StepHost(parse, c, op);
    hide ControllerStep, HandleReload, HandleUpdate, HandleProbe, CoreStart, CoreStop, PlanUpdate, UpdatedSummary,
         Runtime.Step, CoreStatus, CoreSummary;
  }

  /** What a run of saving operations keeps: a sound host, a current store, and nothing saved without a subscription. */
  predicate Kept(parse: ConfigParser, c: ControllerState, d: ControllerState) {
    && Sound(parse, d.host) && StoreCurrent(d) && d.store.Some? && StoreFits(parse, d.store)
    && (d.host.config.None? ==> d.store == c.store)
  }

  lemma StepKept(parse: ConfigParser, c: ControllerState, d: ControllerState, op: Op)
    requires Kept(parse, c, d) && Saving(parse, d, op)
    ensures Kept(parse, c, ControllerStep(parse, d, op).state)
  {
    StepStore(parse, d, op);
    StoreWritten(parse, d, op);
    if d.host.config.Some? { ConfigStays(parse, d, op); }
    hide ControllerStep, HealthyCore, Coupled, Fits;
  }

  lemma {:induction false} RunStore(parse: ConfigParser, c: ControllerState, ops: seq<Op>)
    requires Kept(parse, c, c) && AllSaving(parse, c, ops)
    ensures Kept(parse, c, After(parse, c, ops))
  {
    if ops != [] {
      hide Kept, ControllerStep, Saving;
      var n := |ops| - 1;
      AllSavingPrefix(parse, c, ops, n);
      hide AllSaving;
      RunStore(parse, c, ops[..n]);
      StepKept(parse, c, After(parse, c, ops[..n]), ops[n]);
    }
  }

  lemma NewControllerHost(parse: ConfigParser, hasTun: bool, d: Dependencies, saved: Persisted, env: ReloadEnv)
    ensures NewController(parse, hasTun, d, Some(Some(saved)), true, env).host
            == Restore(parse, DesktopService.Fresh(hasTun), saved, env)
  {
    hide Import, Select, HostStatus, View, WithStatus, WithSubscription, NewShell;
  }

  lemma NewControllerKeepsStore(
    parse: ConfigParser, hasTun: bool, d: Dependencies, store: Option<Option<Persisted>>, loads: bool, env: ReloadEnv)
    ensures var c := NewController(parse, hasTun, d, store, loads, env);
            && c.store == store
            && (store.None? || store.value.None? || !loads || parse(store.value.value.text).Err?
                ==> c.host == DesktopService.Fresh(hasTun))
  {
    hide Select, HostStatus, View, WithStatus, WithSubscription, NewShell;
  }

  lemma RestoreSound(parse: ConfigParser, hasTun: bool, saved: Persisted, env: ReloadEnv)
    ensures Sound(parse, Restore(parse, DesktopService.Fresh(hasTun), saved, env))
  {
    var s := DesktopService.Fresh(hasTun);
    assert Sound(parse, s);
    ImportSound(parse, s, saved.text);
    if saved.selected.Some? { SelectSound(parse, Import(parse, s, saved.text).0, saved.selected.value, env); }
    hide Sound, Import, Select;
  }

  /** A new controller on any such store starts out sound, with the store current. */
  lemma NewControllerKept(
    parse: ConfigParser, hasTun: bool, d: Dependencies, store: Option<Option<Persisted>>, loads: bool, env: ReloadEnv)
    requires store.Some? && StoreFits(parse, store)
    ensures var c := NewController(parse, hasTun, d, store, loads, env);
            Kept(parse, c, c)
  {
    NewControllerKeepsStore(parse, hasTun, d, store, loads, env);
    if store.value.Some? && loads && parse(store.value.value.text).Ok? {
      var saved := store.value.value;
      NewControllerHost(parse, hasTun, d, saved, env);
      RestoreSound(parse, hasTun, saved, env);
      RestoreIff(parse, DesktopService.Fresh(hasTun), saved, env);
      hide NewController, Restore, HealthyCore, Coupled, Fits;
    } else {
      hide NewController;
    }
  }

  /** A controller on a readable store brings back exactly what the store holds, if it parses. */
  lemma StoreRestores(parse: ConfigParser, hasTun: bool, d: Dependencies, saved: Persisted, env: ReloadEnv)
    requires Fits(parse, saved.text, saved.selected)
    ensures ToPersist(NewController(parse, hasTun, d, Some(Some(saved)), true, env).host) == Some(saved)
  {
    NewControllerHost(parse, hasTun, d, saved, env);
    FitsParses(parse, saved.text, saved.selected);
    RestoreIff(parse, DesktopService.Fresh(hasTun), saved, env);
    hide NewController, Restore, Fits;
  }

  /** One session: how the program comes up and what is done until it is closed. */
  datatype Session = Session(hasTun: bool, dependencies: Dependencies, loads: bool, env: ReloadEnv, ops: seq<Op>)

  function Opened(parse: ConfigParser, store: Option<Option<Persisted>>, s: Session): ControllerState {
    NewController(parse, s.hasTun, s.dependencies, store, s.loads, s.env)
  }

  function Closed(parse: ConfigParser, store: Option<Option<Persisted>>, s: Session): ControllerState {
    After(parse, Opened(parse, store, s), s.ops)
  }

  /** The store after a series of sessions, each opened on what the one before left. */
  function StoreAfter(parse: ConfigParser, store: Option<Option<Persisted>>, sessions: seq<Session>)
    : Option<Option<Persisted>>
  {
    if sessions == [] then store
    else
      var n := |sessions| - 1;
      Closed(parse, StoreAfter(parse, store, sessions[..n]), sessions[n]).store
  }

  predicate SessionsSave(parse: ConfigParser, store: Option<Option<Persisted>>, sessions: seq<Session>) {
    forall i :: 0 <= i < |sessions| ==>
                  var before := StoreAfter(parse, store, sessions[..i]);
                  AllSaving(parse, Opened(parse, before, sessions[i]), sessions[i].ops)
  }

  /** What the latest session that had a subscription ended with; without one, what was there at first. */
  function Latest(parse: ConfigParser, store: Option<Option<Persisted>>, sessions: seq<Session>): Option<Persisted> {
    if sessions == [] then if store.Some? then store.value else None
    else
      var n := |sessions| - 1;
      var last := Closed(parse, StoreAfter(parse, store, sessions[..n]), sessions[n]).host;
      if last.config.Some? then ToPersist(last) else Latest(parse, store, sessions[..n])
  }

  /** One session of saving operations on any store leaves there what it ended with, or what was there. */
  lemma SessionSaves(parse: ConfigParser, store: Option<Option<Persisted>>, s: Session)
    requires store.Some? && StoreFits(parse, store) && AllSaving(parse, Opened(parse, store, s), s.ops)
    ensures var c := Closed(parse, store, s);
            && c.store.Some? && StoreFits(parse, c.store)
            && c.store == if c.host.config.Some? then Some(ToPersist(c.host)) else store
  {
    NewControllerKept(parse, s.hasTun, s.dependencies, store, s.loads, s.env);
    NewControllerKeepsStore(parse, s.hasTun, s.dependencies, store, s.loads, s.env);
    hide NewController, AllSaving;
    RunStore(parse, Opened(parse, store, s), s.ops);
    hide After, Sound, StoreFits;
  }

  lemma SessionsPrefix(parse: ConfigParser, store: Option<Option<Persisted>>, sessions: seq<Session>, n: nat)
    requires SessionsSave(parse, store, sessions) && n < |sessions|
    ensures SessionsSave(parse, store, sessions[..n])
    ensures AllSaving(parse, Opened(parse, StoreAfter(parse, store, sessions[..n]), sessions[n]), sessions[n].ops)
  {
    hide StoreAfter, AllSaving, Opened;
    assert forall i :: 0 <= i < n ==> sessions[..n][i] == sessions[i] && sessions[..n][..i] == sessions[..i];
  }

  lemma {:induction false} SessionsKeepStore(parse: ConfigParser, store: Option<Option<Persisted>>, sessions: seq<Session>)
    requires store.Some? && StoreFits(parse, store) && SessionsSave(parse, store, sessions)
    ensures var t := StoreAfter(parse, store, sessions);
            t == Some(Latest(parse, store, sessions)) && StoreFits(parse, t)
  {
    if sessions != [] {
      hide StoreFits, Closed, Opened, AllSaving;
      var n := |sessions| - 1;
      SessionsPrefix(parse, store, sessions, n);
      hide SessionsSave;
      SessionsKeepStore(parse, store, sessions[..n]);
      SessionSaves(parse, StoreAfter(parse, store, sessions[..n]), sessions[n]);
    }
  }

  /**
   * Closing and reopening, any number of times: from any store whose selection fits its text, after
   * any sessions of saving operations, a new controller that can read the store comes up with the
   * text and selection of the latest session that had any.
   */
  lemma RestartRestores(
    parse: ConfigParser, store: Option<Option<Persisted>>, sessions: seq<Session>, hasTun: bool, d: Dependencies,
    env: ReloadEnv)
    requires store.Some? && StoreFits(parse, store) && SessionsSave(parse, store, sessions)
    ensures var latest := Latest(parse, store, sessions);
            var again := NewController(parse, hasTun, d, StoreAfter(parse, store, sessions), true, env).host;
            if latest.Some? && parse(latest.value.text).Ok? then ToPersist(again) == latest
            else again == DesktopService.Fresh(hasTun)
  {
    SessionsKeepStore(parse, store, sessions);
    var latest := Latest(parse, store, sessions);
    NewControllerKeepsStore(parse, hasTun, d, Some(latest), true, env);
    hide NewController, Latest, StoreAfter, SessionsSave;
    if latest.Some? && parse(latest.value.text).Ok? { StoreRestores(parse, hasTun, d, latest.value, env); }
  }

  /** What a session ended with does parse, so the restart after it always brings it back. */
  lemma LatestParses(parse: ConfigParser, store: Option<Option<Persisted>>, s: Session)
    requires store.Some? && StoreFits(parse, store) && AllSaving(parse, Opened(parse, store, s), s.ops)
    ensures var c := Closed(parse, store, s);
            c.host.config.Some? ==> parse(c.host.config.value).Ok?
  {
    NewControllerKept(parse, s.hasTun, s.dependencies, store, s.loads, s.env);
    hide NewController, AllSaving;
    RunStore(parse, Opened(parse, store, s), s.ops);
    hide After;
  }

  lemma FitsParses(parse: ConfigParser, text: string, selected: Option<string>)
    requires Fits(parse, text, selected)
    ensures parse(text).Ok?
  {
  }

  /**
   * Importing a panel node, which does not save, leaves the store current exactly when the store
   * already holds the text and selection the import ends with. Those follow from what is known
   * before: the stored text and selection, the tags of both texts and whether the reloads work.
   */
  lemma PanelImportStoreIff(
    parse: ConfigParser, c: ControllerState, server: string, text: string, env: ReloadEnv, env2: ReloadEnv)
    requires StoreCurrent(c) && c.store.Some? && (IsRunning(c.host.core) ==> Sound(parse, c.host))
    ensures var result := PanelResult(parse, c.host, server, text, env, env2);
            StoreCurrent(ControllerStep(parse, c, ImportPanelNode(server, Some(text), env, env2)).state)
            <==> result.None? || c.store.value == result
  {
    PanelImportResult(parse, c.host, server, text, env, env2);
    PanelImportState(parse, c, server, text, env, env2);
    hide ControllerStep, ImportPanel, PanelResult, Sound;
  }

  lemma PanelImportState(
    parse: ConfigParser, c: ControllerState, server: string, text: string, env: ReloadEnv, env2: ReloadEnv)
    ensures var d := ControllerStep(parse, c, ImportPanelNode(server, Some(text), env, env2)).state;
            d.host == ImportPanel(parse, c.host, server, text, env, env2).0 && d.store == c.store
  {
    hide ImportPanel, HostStatus, WithStatus, WithSubscription, View;
  }

  /** Importing a panel node changes the host without saving, so a restart does not bring it back. */
  lemma PanelImportIsLost(d: Dependencies, env: ReloadEnv)
    ensures var parse := OneNode();
            var first := NewController(parse, false, d, Some(None), true, env);
            var c := ControllerStep(parse, first, ImportPanelNode("n", Some("n"), env, env)).state;
            && c.host.config == Some("n") && c.host.selected == Some("n")
            && NewController(parse, false, d, c.store, true, env).host.config == None
  {
    hide HostStatus, WithStatus, WithSubscription, NewShell, View;
  }

  // ---------------------------------------------------------------------
  // The window, and the subscription shown
  // ---------------------------------------------------------------------

  function WindowAfter(w: Window, ops: seq<Op>): Window {
    if ops == [] then w
    else
      var before, op := WindowAfter(w, ops[..|ops| - 1]), ops[|ops| - 1];
      if op.Dispatch? then Moved(before, op.action) else before
  }

  function QuitAfter(quit: bool, ops: seq<Op>): bool {
    if ops == [] then quit
    else
      var before, op := QuitAfter(quit, ops[..|ops| - 1]), ops[|ops| - 1];
      if op.Dispatch? then Quitting(before, op.action) else before
  }

  /** The panel shown: the one last shown or connected to. */
  function PanelAfter(panel: Option<string>, ops: seq<Op>): Option<string> {
    if ops == [] then panel
    else
      var before, op := PanelAfter(panel, ops[..|ops| - 1]), ops[|ops| - 1];
      if op.ShowPanel? then op.panel else if op.ConnectPanel? && op.login.Some? then op.login else before
  }

  lemma StepWindow(parse: ConfigParser, c: ControllerState, op: Op)
    ensures var d := ControllerStep(parse, c, op).state;
            && d.shell.panel == (if op.ShowPanel? then op.panel
                                 else if op.ConnectPanel? && op.login.Some? then op.login else c.shell.panel)
            && d.shell.window == (if op.Dispatch? then Moved(c.shell.window, op.action) else c.shell.window)
            && d.shell.quitRequested == if op.Dispatch? then Quitting(c.shell.quitRequested, op.action) else c.shell.quitRequested
  {
    if op.Dispatch? {
      DispatchWindow(parse, c, op);
    } else {
      SameWindow(parse, c, op);
    }
    hide ControllerStep;
  }

  lemma SameWindow(parse: ConfigParser, c: ControllerState, op: Op)
    requires !op.Dispatch?
    ensures var d := ControllerStep(parse, c, op).state;
            && d.shell.window == c.shell.window && d.shell.quitRequested == c.shell.quitRequested
            && d.shell.panel == if op.ShowPanel? then op.panel
                                else if op.ConnectPanel? && op.login.Some? then op.login else c.shell.panel
  {
    hide Import, Select, UpdateUrl, Refresh, DispatchAction, ImportPanel, ImportUrl, View, ToPersist, HostStatus,
         WithStatus, WithSubscription, WithDependencies, WithPanel;
  }

  lemma DispatchWindow(parse: ConfigParser, c: ControllerState, op: Op)
    requires op.Dispatch?
    ensures var d := ControllerStep(parse, c, op).state;
            && d.shell.window == Moved(c.shell.window, op.action)
            && d.shell.quitRequested == Quitting(c.shell.quitRequested, op.action)
            && d.shell.panel == c.shell.panel
  {
    ActionMeaning(c.shell, op.action);
    hide StartService, StopService, HostStatus, OffersStart, OffersStop, WithStatus, WithDependencies, Applied;
  }

  /** Over every run, window and quit flag follow from the dispatched actions alone, and the panel from the logins. */
  lemma {:induction false} RunWindow(parse: ConfigParser, c: ControllerState, ops: seq<Op>)
    ensures After(parse, c, ops).shell.window == WindowAfter(c.shell.window, ops)
    ensures After(parse, c, ops).shell.quitRequested == QuitAfter(c.shell.quitRequested, ops)
    ensures After(parse, c, ops).shell.panel == PanelAfter(c.shell.panel, ops)
  {
    if ops != [] {
      hide ControllerStep, Moved, Quitting;
      var n := |ops| - 1;
      RunWindow(parse, c, ops[..n]);
      StepWindow(parse, After(parse, c, ops[..n]), ops[n]);
    }
  }

  /** The shell shows the nodes of the text the host has stored, and nothing before there is one. */
  predicate ShowsStored(parse: ConfigParser, c: ControllerState) {
    c.shell.subscription
    == match c.host.config
       case None => None
       case Some(text) => Some(ViewOf(TagsOf(parse, text)))
  }

  function ViewOf(tags: seq<string>): SubscriptionView { SubscriptionView(|tags| > 0, |tags|, tags) }

  lemma ViewShows(summary: Summary)
    ensures View(summary) == ViewOf(summary.tags)
  {
  }

  lemma ShownView(c: ControllerState, host: ServiceState, view: SubscriptionView, saves: bool)
    ensures Shown(c, host, view).shell.subscription == Some(view) && Shown(c, host, view).host == host
    ensures Saved(c, saves).shell == c.shell && Saved(c, saves).host == c.host
  {
    hide HostStatus;
  }

  /** A panel import that leaves the host with other nodes than the shell shows. */
  predicate HalfImported(parse: ConfigParser, c: ControllerState, op: Op) {
    && op.ImportPanelNode? && op.fetched.Some? && c.host.config.Some?
    && PanelStuck(parse, c.host, op.server, op.fetched.value, op.env, op.env2)
    && TagsOf(parse, op.fetched.value) != TagsOf(parse, c.host.config.value)
  }

  /** A direct import into a running core. */
  predicate HotImport(c: ControllerState, op: Op) { (op.ImportText? || op.ConnectPanel?) && IsRunning(c.host.core) }

  /**
   * Every operation on a sound host keeps the shell showing the stored subscription, except for
   * exactly one case: a panel import into a running core that applies a text with other nodes and
   * then fails to switch to the panel's node.
   */
  lemma ShowsStoredIff(parse: ConfigParser, c: ControllerState, op: Op)
    requires Sound(parse, c.host) && ShowsStored(parse, c) && !HotImport(c, op)
    ensures ShowsStored(parse, ControllerStep(parse, c, op).state) <==> !HalfImported(parse, c, op)
  {
    match op
    case Dispatch(_, _, _, _) => ShowsDispatch(parse, c, op);
    case ImportText(text, saves) => ShowsImport(parse, c, text, saves);
    case ConnectPanel(login, batch, saves) =>
      if login.Some? && batch.Some? {
        ShowsImport(parse, c.(shell := WithPanel(c.shell, login)), batch.value, saves);
      }
      hide ImportInto, Sound, Derived;
    case ImportFromUrl(fetched, saves) => ShowsFetched(parse, c, fetched, saves);
    case UpdateFromUrl(_, _, _) => ShowsUpdate(parse, c, op);
    case SelectTag(_, _, _) => ShowsSelect(parse, c, op);
    case RefreshHealth(_, _, _) => ShowsRefresh(parse, c, op);
    case ImportPanelNode(_, _, _, _) => ShowsPanel(parse, c, op);
    case _ => hide HostStatus, Rebuilt, Sound;
  }

  lemma ShowsDispatch(parse: ConfigParser, c: ControllerState, op: Op)
    requires ShowsStored(parse, c) && op.Dispatch?
    ensures ShowsStored(parse, ControllerStep(parse, c, op).state)
  {
    KeepsConfig(parse, c.host, op.start, op.clean);
    hide StartService, StopService, WithStatus, WithDependencies, Applied, OffersStart, OffersStop, HostStatus, TagsOf;
  }

  lemma KeepsConfig(parse: ConfigParser, s: ServiceState, start: StartEnv, clean: bool)
    ensures StartService(parse, s, start).0.config == s.config && StopService(s, clean).0.config == s.config
  {
    hide CoreStart, CoreStop, CoreStatus;
  }

  lemma ShowsImport(parse: ConfigParser, c: ControllerState, text: string, saves: bool)
    requires ShowsStored(parse, c)
    ensures ShowsStored(parse, ImportInto(parse, c, text, saves).state)
  {
    ImportStored(parse, c.host, text);
    var (host, r) := Import(parse, c.host, text);
    if r.Ok? {
      ViewShows(r.value);
      ShownView(c, host, View(r.value), saves);
      ShownView(Shown(c, host, View(r.value)), host, View(r.value), saves);
    }
    hide Import, View, Shown, Saved, ViewOf;
  }

  lemma ShowsFetched(parse: ConfigParser, c: ControllerState, fetched: Option<string>, saves: bool)
    requires ShowsStored(parse, c)
    ensures ShowsStored(parse, ControllerStep(parse, c, ImportFromUrl(fetched, saves)).state)
  {
    if fetched.Some? && !IsRunning(c.host.core) {
      ImportStored(parse, c.host, fetched.value);
      var (host, r) := Import(parse, c.host, fetched.value);
      if r.Ok? {
        ViewShows(r.value);
        ShownView(c, host, View(r.value), saves);
        ShownView(Shown(c, host, View(r.value)), host, View(r.value), saves);
      }
    }
    hide Import, View, Shown, Saved, ViewOf;
  }

  lemma ShowsUpdate(parse: ConfigParser, c: ControllerState, op: Op)
    requires Sound(parse, c.host) && ShowsStored(parse, c) && op.UpdateFromUrl?
    ensures ShowsStored(parse, ControllerStep(parse, c, op).state)
  {
    var (host, r) := UpdateUrl(parse, c.host, op.fetched, op.env);
    if IsRunning(c.host.core) {
      UpdateUrlStored(parse, c.host, op.fetched, op.env);
      ConfigPersists(host, c.host);
      if r.value.update.Some? { ViewShows(r.value.update.value.subscription); }
    }
    UpdateState(parse, c, op);
    UpdateView(parse, c, op);
    hide UpdateUrl, View, ViewOf, ControllerStep, TagsOf, ReloadWorks, Carried, Sound, CoreStatus;
  }

  lemma UpdateView(parse: ConfigParser, c: ControllerState, op: Op)
    requires op.UpdateFromUrl?
    ensures var d := ControllerStep(parse, c, op).state;
            var r := UpdateUrl(parse, c.host, op.fetched, op.env).1;
            d.shell.subscription == if r.Ok? && r.value.applied && r.value.update.Some?
                                    then Some(View(r.value.update.value.subscription)) else c.shell.subscription
  {
    hide UpdateUrl, WithStatus, WithSubscription, View, ToPersist;
  }

  lemma ShowsSelect(parse: ConfigParser, c: ControllerState, op: Op)
    requires ShowsStored(parse, c) && op.SelectTag?
    ensures ShowsStored(parse, ControllerStep(parse, c, op).state)
  {
    if c.host.config.Some? && op.tag in TagsOf(parse, c.host.config.value) {
      SelectOutcome(parse, c.host, op.tag, op.env);
    } else {
      SelectRefused(parse, c.host, op.tag, op.env);
    }
    var (host, r) := Select(parse, c.host, op.tag, op.env);
    if r.Ok? {
      ViewShows(r.value);
      ShownView(c, host, View(r.value), op.saves);
      ShownView(Shown(c, host, View(r.value)), host, View(r.value), op.saves);
    }
    hide Select, View, Shown, Saved, ViewOf, TagsOf, ReloadWorks;
  }

  lemma ShowsRefresh(parse: ConfigParser, c: ControllerState, op: Op)
    requires Sound(parse, c.host) && ShowsStored(parse, c) && op.RefreshHealth?
    ensures ShowsStored(parse, ControllerStep(parse, c, op).state)
  {
    var (host, r) := Refresh(parse, c.host, op.notes, op.summary, op.diagnostic);
    RefreshReport(parse, c.host, op.notes, op.summary, op.diagnostic);
    if r.Ok? {
      ViewShows(r.value);
      ShownView(c, host, View(r.value), true);
    }
    hide Refresh, View, Shown, Saved, ViewOf, TagsOf, Sound;
  }

  lemma RefreshReport(parse: ConfigParser, s: ServiceState, notes: seq<string>, summary: string, diagnostic: string)
    requires Sound(parse, s)
    ensures var (t, r) := Refresh(parse, s, notes, summary, diagnostic);
            && t.config == s.config && (r.Ok? <==> IsRunning(s.core))
            && (r.Ok? ==> s.config.Some? && r.value == Summary(TagsOf(parse, s.config.value), s.selected))
  {
    if s.core.handle.Some? {
      var h := s.core.handle.value;
      var g := HandleProbe(parse, h, notes, summary, diagnostic).0;
      ProbeHealthy(parse, h, notes, summary, diagnostic);
      ProbeRecorded(parse, h, notes, summary, diagnostic);
      RunningTags(parse, h);
      RunningTags(parse, g);
    }
    hide HandleProbe, Healthy, TagsOf, Fits;
  }

  lemma ShowsPanel(parse: ConfigParser, c: ControllerState, op: Op)
    requires Sound(parse, c.host) && ShowsStored(parse, c) && op.ImportPanelNode?
    ensures ShowsStored(parse, ControllerStep(parse, c, op).state) <==> !HalfImported(parse, c, op)
  {
    if op.fetched.Some? {
      PanelReport(parse, c.host, op.server, op.fetched.value, op.env, op.env2);
      var (host, r) := ImportPanel(parse, c.host, op.server, op.fetched.value, op.env, op.env2);
      if r.Ok? {
        ViewShows(r.value);
        ShownView(c, host, View(r.value), true);
      }
      RunningHasConfig(parse, c.host);
    }
    hide ImportPanel, View, Shown, TagsOf, Sound, PanelStuck;
  }

  lemma RunningHasConfig(parse: ConfigParser, s: ServiceState)
    requires Sound(parse, s)
    ensures IsRunning(s.core) ==> s.config.Some?
  {
  }

  lemma StepSoundHost(parse: ConfigParser, c: ControllerState, op: Op)
    requires Sound(parse, c.host) && !HotImport(c, op)
    ensures Sound(parse, ControllerStep(parse, c, op).state.host)
  {
    StepHost(parse, c, op);
    var h := HostOp(c, op);
    hide Sound, ControllerStep, ServiceStep;
    if h.Some? { StepSound(parse, c.host, h.value); }
  }

  /** No operation of a run is a hot import or stops half way through a panel import. */
  predicate Undisturbed(parse: ConfigParser, c: ControllerState, ops: seq<Op>) {
    forall i :: 0 <= i < |ops| ==>
      !HotImport(After(parse, c, ops[..i]), ops[i]) && !HalfImported(parse, After(parse, c, ops[..i]), ops[i])
  }

  lemma UndisturbedPrefix(parse: ConfigParser, c: ControllerState, ops: seq<Op>, n: nat)
    requires Undisturbed(parse, c, ops) && n < |ops|
    ensures Undisturbed(parse, c, ops[..n])
    ensures !HotImport(After(parse, c, ops[..n]), ops[n]) && !HalfImported(parse, After(parse, c, ops[..n]), ops[n])
  {
    hide HotImport, HalfImported, After;
    assert forall i :: 0 <= i < n ==> ops[..n][i] == ops[i] && ops[..n][..i] == ops[..i];
  }

  lemma {:induction false} StaysShown(parse: ConfigParser, c: ControllerState, ops: seq<Op>)
    requires Sound(parse, c.host) && ShowsStored(parse, c) && Undisturbed(parse, c, ops)
    ensures Sound(parse, After(parse, c, ops).host) && ShowsStored(parse, After(parse, c, ops))
  {
    if ops != [] {
      hide Sound, ShowsStored, ControllerStep, HotImport, HalfImported;
      var n := |ops| - 1;
      UndisturbedPrefix(parse, c, ops, n);
      hide Undisturbed;
      StaysShown(parse, c, ops[..n]);
      StepSoundHost(parse, After(parse, c, ops[..n]), ops[n]);
      ShowsStoredIff(parse, After(parse, c, ops[..n]), ops[n]);
    }
  }

  /** A new controller shows what its store brought back. */
  lemma NewControllerShows(
    parse: ConfigParser, hasTun: bool, d: Dependencies, store: Option<Option<Persisted>>, loads: bool, env: ReloadEnv)
    ensures var c := NewController(parse, hasTun, d, store, loads, env);
            Sound(parse, c.host) && ShowsStored(parse, c)
  {
    NewControllerKeepsStore(parse, hasTun, d, store, loads, env);
    if store.Some? && store.value.Some? && loads {
      NewControllerHost(parse, hasTun, d, store.value.value, env);
      RestoreSound(parse, hasTun, store.value.value, env);
      var host := DesktopService.Fresh(hasTun);
      RestoredShows(parse, ControllerState(host, NewShell(HostStatus(host), d), store), env);
    } else {
      assert Sound(parse, DesktopService.Fresh(hasTun));
    }
    hide Sound, Restored, Restore, HostStatus;
  }

  lemma RestoredShows(parse: ConfigParser, c: ControllerState, env: ReloadEnv)
    requires c.store.Some? && c.store.value.Some? && ShowsStored(parse, c)
    ensures ShowsStored(parse, Restored(parse, c, true, env))
  {
    var saved := c.store.value.value;
    ImportStored(parse, c.host, saved.text);
    var (imported, r) := Import(parse, c.host, saved.text);
    if r.Ok? && saved.selected.Some? {
      var tag := saved.selected.value;
      if tag in TagsOf(parse, saved.text) {
        SelectOutcome(parse, imported, tag, env);
      } else {
        SelectRefused(parse, imported, tag, env);
      }
    }
    hide Import, Select, HostStatus, WithSubscription, WithStatus, ReloadWorks;
  }

  /** Over every undisturbed run of a new controller, the shell shows the stored subscription. */
  lemma RunShows(
    parse: ConfigParser, hasTun: bool, d: Dependencies, store: Option<Option<Persisted>>, loads: bool, env: ReloadEnv,
    ops: seq<Op>)
    requires Undisturbed(parse, NewController(parse, hasTun, d, store, loads, env), ops)
    ensures ShowsStored(parse, After(parse, NewController(parse, hasTun, d, store, loads, env), ops))
  {
    NewControllerShows(parse, hasTun, d, store, loads, env);
    hide NewController, Undisturbed, ShowsStored, Sound;
    StaysShown(parse, NewController(parse, hasTun, d, store, loads, env), ops);
  }

  /** A parser that finds two nodes in every text. */
  function TwoNodes(): ConfigParser { (text: string) => Ok(ParsedConfig([text, text + "!"], [])) }

  lemma TwoNodesStart(d: Dependencies, env: StartEnv, reload: ReloadEnv)
    requires StartWorks(env)
    ensures var first := NewController(TwoNodes(), false, d, None, true, reload);
            var imported := ControllerStep(TwoNodes(), first, ImportText("a", true)).state;
            var running := ControllerStep(TwoNodes(), imported, Dispatch(RequestStart, env, true, d)).state;
            && Sound(TwoNodes(), running.host) && ShowsStored(TwoNodes(), running)
            && IsRunning(running.host.core) && running.host.config == Some("a") && running.host.selected == Some("a")
  {
    var first := NewController(TwoNodes(), false, d, None, true, reload);
    var imported := ControllerStep(TwoNodes(), first, ImportText("a", true)).state;
    NewControllerShows(TwoNodes(), false, d, None, true, reload);
    NewControllerReady(TwoNodes(), false, d, None, true, reload);
    NewControllerKeepsStore(TwoNodes(), false, d, None, true, reload);
    StepSoundHost(TwoNodes(), first, ImportText("a", true));
    ShowsStoredIff(TwoNodes(), first, ImportText("a", true));
    SyncedIff(TwoNodes(), first, ImportText("a", true));
    TwoNodesImported(first);
    hide NewController, ControllerStep, Sound;
    TwoNodesRun(imported, env, d);
  }

  lemma TwoNodesImported(c: ControllerState)
    requires c.host == DesktopService.Fresh(false)
    ensures var t := ControllerStep(TwoNodes(), c, ImportText("a", true)).state;
            t.host == c.host.(config := Some("a"), selected := Some("a"))
  {
    hide HostStatus, WithStatus, WithSubscription, View, ToPersist;
  }

  lemma TwoNodesRun(c: ControllerState, env: StartEnv, d: Dependencies)
    requires StartWorks(env) && Sound(TwoNodes(), c.host) && ShowsStored(TwoNodes(), c)
    requires Consistent(TwoNodes(), c) && Synced(c)
    requires c.host == DesktopService.Fresh(false).(config := Some("a"), selected := Some("a"))
    ensures var t := ControllerStep(TwoNodes(), c, Dispatch(RequestStart, env, true, d)).state;
            && Sound(TwoNodes(), t.host) && ShowsStored(TwoNodes(), t)
            && IsRunning(t.host.core) && t.host.config == Some("a") && t.host.selected == Some("a")
  {
    var op := Dispatch(RequestStart, env, true, d);
    PrimaryMeaning(c.shell);
    HostRunState(TwoNodes(), c.host);
    assert MayStart(c.shell);
    StartOutcome(TwoNodes(), c.host, env);
    DispatchState(TwoNodes(), c, op);
    StepSoundHost(TwoNodes(), c, op);
    ShowsStoredIff(TwoNodes(), c, op);
    hide ControllerStep, StartService, StopService, Sound, HostStatus, ShowsStored, ConfigOf, CoreSound, Derived;
  }

  /** A panel import that stops half way does happen: the host runs "b", the shell still shows the nodes of "a". */
  lemma HalfImportHappens(d: Dependencies, env: StartEnv, works: ReloadEnv, fails: ReloadEnv)
    requires StartWorks(env) && ReloadWorks(works) && !ReloadWorks(fails)
    ensures var first := NewController(TwoNodes(), false, d, None, true, works);
            var imported := ControllerStep(TwoNodes(), first, ImportText("a", true)).state;
            var running := ControllerStep(TwoNodes(), imported, Dispatch(RequestStart, env, true, d)).state;
            var half := ControllerStep(TwoNodes(), running, ImportPanelNode("b!", Some("b"), works, fails)).state;
            ShowsStored(TwoNodes(), running) && half.host.config == Some("b") && !ShowsStored(TwoNodes(), half)
  {
    var first := NewController(TwoNodes(), false, d, None, true, works);
    var imported := ControllerStep(TwoNodes(), first, ImportText("a", true)).state;
    var running := ControllerStep(TwoNodes(), imported, Dispatch(RequestStart, env, true, d)).state;
    TwoNodesStart(d, env, works);
    hide NewController, ControllerStep, Sound, ReloadWorks, ShowsStored, ImportPanel;
    TwoNodesHalf(running, works, fails);
  }

  lemma TwoNodesHalf(c: ControllerState, works: ReloadEnv, fails: ReloadEnv)
    requires Sound(TwoNodes(), c.host) && ShowsStored(TwoNodes(), c) && ReloadWorks(works) && !ReloadWorks(fails)
    requires IsRunning(c.host.core) && c.host.config == Some("a") && c.host.selected == Some("a")
    ensures var half := ControllerStep(TwoNodes(), c, ImportPanelNode("b!", Some("b"), works, fails)).state;
            half.host.config == Some("b") && !ShowsStored(TwoNodes(), half)
  {
    var op := ImportPanelNode("b!", Some("b"), works, fails);
    var tags := TagsOf(TwoNodes(), "b");
    assert tags == ["b", "b" + "!"] && "b" + "!" == "b!" && |"b!"| == 2;
    assert tags[1] == "b!" && tags[0] == "b" && "a"[0] != "b"[0];
    assert TagsOf(TwoNodes(), "a")[0] == "a";
    hide ReloadWorks, Sound, ControllerStep, ImportPanel, ShowsStored;
    assert Carried(Some("a"), tags) != Some("b!");
    assert HalfImported(TwoNodes(), c, op);
    PanelReport(TwoNodes(), c.host, "b!", "b", works, fails);
    PanelImportState(TwoNodes(), c, "b!", "b", works, fails);
    ShowsStoredIff(TwoNodes(), c, op);
  }

  // ---------------------------------------------------------------------
  // Which operations succeed
  // ---------------------------------------------------------------------

  /** Whether an operation other than a dispatch succeeds, from what is known before it. */
  predicate Succeeds(parse: ConfigParser, c: ControllerState, op: Op) {
    var running := IsRunning(c.host.core);
    match op
    case ImportText(text, _) => parse(text).Ok?
    case ConnectPanel(login, batch, _) => login.Some? && batch.Some? && parse(batch.value).Ok?
    case ImportPanelNode(server, fetched, env, env2) =>
      fetched.Some? && PanelWorks(parse, c.host, server, fetched.value, env, env2)
    case ImportFromUrl(fetched, _) => !running && (fetched.None? || parse(fetched.value).Ok?)
    case UpdateFromUrl(_, _, _) => running
    case SelectTag(tag, env, _) =>
      c.host.config.Some? && tag in TagsOf(parse, c.host.config.value) && (!running || ReloadWorks(env))
    case RefreshHealth(_, _, _) => running
    case InstallWintun(installs, _) => installs
    case _ => true
  }

  /** On a sound host the guards decide: success is reported exactly then, otherwise a host error. */
  lemma OutcomeIs(parse: ConfigParser, c: ControllerState, op: Op)
    requires Sound(parse, c.host) && !op.Dispatch?
    ensures ControllerStep(parse, c, op).outcome == if Succeeds(parse, c, op) then Done else HostError
  {
    hide Sound, Import, Select, UpdateUrl, Refresh, ImportPanel, View, Shown, Saved, HostStatus, PanelWorks, ReloadWorks,
         WithStatus, WithSubscription, WithDependencies, WithPanel, WithUpdate;
    match op
    case ImportText(text, _) => ImportStored(parse, c.host, text);
    case ConnectPanel(_, batch, _) => if batch.Some? { ImportStored(parse, c.host, batch.value); }
    case ImportPanelNode(server, fetched, env, env2) =>
      if fetched.Some? {
        PanelReport(parse, c.host, server, fetched.value, env, env2);
        var (_, r) := ImportPanel(parse, c.host, server, fetched.value, env, env2);
        assert r.Ok? <==> PanelWorks(parse, c.host, server, fetched.value, env, env2);
      }
    case ImportFromUrl(fetched, _) => if fetched.Some? { ImportStored(parse, c.host, fetched.value); }
    case UpdateFromUrl(fetched, env, _) =>
      UpdateUrlWorks(parse, c.host, fetched, env);
    case SelectTag(tag, env, _) =>
      if c.host.config.Some? && tag in TagsOf(parse, c.host.config.value) { SelectOutcome(parse, c.host, tag, env); }
      else { SelectRefused(parse, c.host, tag, env); }
    case RefreshHealth(notes, summary, diagnostic) =>
      RefreshReport(parse, c.host, notes, summary, diagnostic);
      var (_, r) := Refresh(parse, c.host, notes, summary, diagnostic);
      assert r.Ok? <==> IsRunning(c.host.core);
    case _ =>
  }

  lemma UpdateUrlWorks(parse: ConfigParser, s: ServiceState, fetched: Option<string>, env: ReloadEnv)
    requires Sound(parse, s)
    ensures UpdateUrl(parse, s, fetched, env).1.Ok? <==> IsRunning(s.core)
  {
    if IsRunning(s.core) { UpdateUrlStored(parse, s, fetched, env); hide UpdateUrl; }
  }

  /** The dependencies shown change only with a fresh report: on a refresh, an install, or a start or stop that worked. */
  lemma DependenciesShown(parse: ConfigParser, c: ControllerState, op: Op)
    ensures ControllerStep(parse, c, op).state.shell.dependencies
            == if op.RefreshAll? || (op.InstallWintun? && op.installs)
                  || (op.Dispatch? && ControllerStep(parse, c, op).calls != [] && ControllerStep(parse, c, op).outcome == Done)
               then op.dependencies else c.shell.dependencies
  {
    hide Import, Select, UpdateUrl, Refresh, StartService, StopService, ImportPanel, ImportUrl, View, ToPersist, HostStatus,
         OffersStart, OffersStop, WithStatus, WithSubscription, WithDependencies, WithPanel, Applied, Derived;
  }

  /** Operations that bring the status up to date when they succeed: all but window actions, panel views and failed fetches. */
  predicate Refreshes(op: Op) {
    match op
    case Dispatch(action, _, _, _) => action == RequestStart || action == RequestStop
    case ShowPanel(_) => false
    case ImportFromUrl(fetched, _) => fetched.Some?
    case _ => true
  }

  /** After each of them the shell shows all of the host's status: selection, generation and last error too. */
  lemma StatusShown(parse: ConfigParser, c: ControllerState, op: Op)
    requires Sound(parse, c.host) && CoreSound(parse, c.host.core) && Refreshes(op)
    requires ControllerStep(parse, c, op).outcome == Done
    ensures var d := ControllerStep(parse, c, op).state;
            d.shell.status == HostStatus(d.host)
  {
    match op
    case Dispatch(_, start, clean, _) =>
      DispatchState(parse, c, op);
      StartIff(parse, c.host, start);
      StopCore(parse, c.host, clean);
      hide ControllerStep, StartService, StopService, HostStatus, Sound, CoreSound;
    case UpdateFromUrl(fetched, env, _) =>
      UpdateState(parse, c, op);
      UpdateUrlWorks(parse, c.host, fetched, env);
      OutcomeIs(parse, c, op);
      UpdatedStatus(parse, c.host, fetched, env);
      hide ControllerStep, UpdateUrl, HostStatus, Sound;
    case _ => OtherStatus(parse, c, op);
  }

  lemma OtherStatus(parse: ConfigParser, c: ControllerState, op: Op)
    requires Refreshes(op) && !op.Dispatch? && !op.UpdateFromUrl? && ControllerStep(parse, c, op).outcome == Done
    ensures var d := ControllerStep(parse, c, op).state;
            d.shell.status == HostStatus(d.host)
  {
    hide Import, Select, Refresh, ImportPanel, View, ToPersist, HostStatus, WithStatus, WithSubscription, WithDependencies,
         WithPanel, DispatchAction, UpdateUrl;
  }

  lemma UpdatedStatus(parse: ConfigParser, s: ServiceState, fetched: Option<string>, env: ReloadEnv)
    requires Sound(parse, s) && CoreSound(parse, s.core) && IsRunning(s.core)
    ensures var (t, r) := UpdateUrl(parse, s, fetched, env);
            r.Ok? && r.value.status == HostStatus(t)
  {
    var (t, r) := UpdateUrl(parse, s, fetched, env);
    UpdateUrlStored(parse, s, fetched, env);
    UpdateUrlCore(parse, s, fetched, env);
    HostStatusMeaning(parse, t);
    RunningSelected(parse, t.core.handle.value);
    hide UpdateUrl, Sound, CoreSound, TagsOf, ReloadWorks, Carried;
  }

  lemma RunningSelected(parse: ConfigParser, h: Handle)
    ensures Healthy(parse, h) ==> h.selectedOutbound.Some?
  {
  }
}
