/**
 * The managed core behind the desktop service (crates/keli-cli/src/lib.rs): at most one running
 * handle, which owns a client runtime. Binding, building the proxy runtime, locks and threads are
 * outside the model; their outcomes are parameters.
 */
module ManagedCore {
  import opened Wrappers
  import opened Subscription
  import opened Runtime

  /** `ManagedMixedHandle`, as far as subscriptions are concerned. */
  datatype Handle = Handle(runtime: RuntimeState, listenAddr: string, selectedOutbound: Option<string>)

  datatype TrafficMode = SystemProxy | Tun | MixedInboundOnly

  /**
   * `DesktopManagedCoreService` with its `ManagedMixedController`: the handle while running, the
   * runtime of the last clean stop, and the mode of the last successful start.
   */
  datatype Core = Core(handle: Option<Handle>, lastStopped: Option<RuntimeState>, mode: TrafficMode)

  const IDLE: Core := Core(None, None, MixedInboundOnly)

  predicate IsRunning(c: Core) { c.handle.Some? }

  /** What happens around a start: the bound address or none, and whether the later steps work. */
  datatype StartEnv = StartEnv(bound: Option<string>, runtimeBuilds: bool, proxyApplies: bool, spawns: bool, now: nat)

  /** `start_from_subscription_config_text`, with or without a TUN controller; `true` is success. */
  function CoreStart(parse: ConfigParser, c: Core, text: string, outbound: Option<string>, mode: TrafficMode, env: StartEnv)
    : (Core, bool)
  {
    if c.handle.Some? || env.bound.None? then (c, false)
    else
      var config := RuntimeConfig(text, outbound, env.bound.value);
      var runtime := AfterStart(parse, INITIAL, config, env.now);
      if PlanFor(parse, config).Err? || !env.runtimeBuilds || !env.proxyApplies || !env.spawns then (c, false)
      else
        var selected := if runtime.status.Running? then Some(runtime.status.selectedOutbound) else None;
        (Core(Some(Handle(runtime, env.bound.value, selected)), None, mode), true)
  }

  /** What happens around a reload, and the texts that go into the event log. */
  datatype ReloadEnv = ReloadEnv(runtimeBuilds: bool, lockHeld: bool, now: nat, detail: string, note: string)

  /** `ManagedMixedHandle::reload_from_subscription_config_text`. */
  function HandleReload(parse: ConfigParser, h: Handle, text: string, outbound: Option<string>, env: ReloadEnv): (Handle, bool) {
    var config := RuntimeConfig(text, outbound, h.listenAddr);
    match PlanFor(parse, config)
    case Err(_) => (h.(runtime := AfterReload(parse, h.runtime, config, env.now)), false)
    case Ok(plan) =>
      if !env.runtimeBuilds then
        (h.(runtime := Step(parse, h.runtime, RecordReloadRejected(ConfigInvalid(env.detail)))), false)
      else if !env.lockHeld then (h, false)
      else (h.(runtime := AfterReload(parse, h.runtime, config, env.now), selectedOutbound := Some(plan.selectedOutbound)), true)
  }

  /** The result of a reload by update plan: rejected with an error, or a report that was applied or not. */
  datatype UpdateOutcome = Rejected | Planned(report: UpdateReport, applied: bool)

  /** `ManagedMixedHandle::reload_from_subscription_config_text_with_update_plan`. */
  function HandleUpdate(parse: ConfigParser, h: Handle, text: string, env: ReloadEnv): (Handle, UpdateOutcome) {
    var rejected := h.(runtime := Step(parse, h.runtime, RecordReloadRejected(ConfigInvalid(env.detail))));
    if h.runtime.activeConfig.None? then (rejected, Rejected)
    else
      var selected := if h.runtime.activePlan.Some? then Some(h.runtime.activePlan.value.selectedOutbound) else None;
      match PlanUpdate(parse, Some(h.runtime.activeConfig.value.configText), text, selected)
      case Err(_) => (rejected, Rejected)
      case Ok(report) =>
        if report.plannedSelected.None? then
          var noted := Step(parse, h.runtime, RecordReloadRejected(NoSupportedOutbounds));
          (h.(runtime := Step(parse, noted, RecordStatusNote(env.note))), Planned(report, false))
        else
          var (reloaded, ok) := HandleReload(parse, h, text, report.plannedSelected, env);
          if !ok then (reloaded, Rejected)
          else (reloaded.(runtime := Step(parse, reloaded.runtime, RecordStatusNote(env.note))), Planned(report, true))
  }

  /** The notes a node health sweep leaves in the log, one per probed node. */
  function NoteAll(parse: ConfigParser, s: RuntimeState, notes: seq<string>): RuntimeState
    decreases |notes|
  {
    if notes == [] then s else NoteAll(parse, Step(parse, s, RecordStatusNote(notes[0])), notes[1..])
  }

  /** `probe_all_node_health`; fails without an active plan or without nodes. */
  function HandleProbe(parse: ConfigParser, h: Handle, notes: seq<string>, summary: string, diagnostic: string): (Handle, bool) {
    if h.runtime.activePlan.None? || h.runtime.activePlan.value.preflight.supportedTags == [] then (h, false)
    else
      var noted := NoteAll(parse, h.runtime, notes);
      (h.(runtime := Step(parse, noted, RecordStatusDiagnostic(summary, diagnostic))), true)
  }

  /** `stop`: the handle is gone even when stopping reports errors. */
  function CoreStop(c: Core, clean: bool): (Core, bool) {
    if c.handle.None? then (c, false)
    else if clean then (Core(None, Some(AfterStop(c.handle.value.runtime)), c.mode), true)
    else (c.(handle := None), false)
  }

  // ---------------------------------------------------------------------
  // What a running handle keeps
  // ---------------------------------------------------------------------

  /** A running handle owns a consistent, running runtime that listens where the handle does. */
  predicate Healthy(parse: ConfigParser, h: Handle) {
    && Consistent(parse, h.runtime)
    && h.runtime.status.Running?
    && h.runtime.activeConfig.value.listen == h.listenAddr
    && h.selectedOutbound == Some(h.runtime.activePlan.value.selectedOutbound)
  }

  predicate HealthyCore(parse: ConfigParser, c: Core) {
    c.handle.Some? ==> Healthy(parse, c.handle.value)
  }

  function ConfigOf(h: Handle): Option<string> {
    if h.runtime.activeConfig.Some? then Some(h.runtime.activeConfig.value.configText) else None
  }

  /** A selection that fits a text: one of its supported tags, or none when there are none. */
  predicate Fits(parse: ConfigParser, text: string, selected: Option<string>) {
    && parse(text).Ok?
    && (if selected.Some? then selected.value in parse(text).value.tags else parse(text).value.tags == [])
  }

  /** The handle's selection is always a supported tag of the configuration it runs. */
  lemma HealthyFits(parse: ConfigParser, h: Handle)
    requires Healthy(parse, h)
    ensures Fits(parse, h.runtime.activeConfig.value.configText, h.selectedOutbound)
  {
    var config := h.runtime.activeConfig.value;
    assert PlanFor(parse, config).Ok?;
    if config.preferredOutbound.None? {
      var tags := parse(config.configText).value.tags;
      assert tags[0] in tags;
    }
  }

  lemma StartedHealthy(parse: ConfigParser, c: Core, text: string, outbound: Option<string>, mode: TrafficMode, env: StartEnv)
    requires HealthyCore(parse, c)
    ensures var (d, ok) := CoreStart(parse, c, text, outbound, mode, env);
            && HealthyCore(parse, d)
            && (!ok ==> d == c)
            && (ok ==> c.handle.None? && d.handle.Some? && d.mode == mode && ConfigOf(d.handle.value) == Some(text)
                       && BuildPlan(parse, text, outbound, d.handle.value.listenAddr)
                          == Ok(d.handle.value.runtime.activePlan.value))
  {
    var (d, ok) := CoreStart(parse, c, text, outbound, mode, env);
    if ok {
      var config := RuntimeConfig(text, outbound, env.bound.value);
      StepKeepsConsistent(parse, INITIAL, DoStart(config, env.now));
      hide BuildPlan, LastN;
    }
  }

  lemma RecordHealthy(parse: ConfigParser, h: Handle, op: Op)
    requires Healthy(parse, h) && !op.DoStart? && !op.DoReload? && !op.DoStop? && !op.RecordFailure?
    ensures var t := h.(runtime := Step(parse, h.runtime, op));
            Healthy(parse, t) && ConfigOf(t) == ConfigOf(h)
  {
    StepKeepsConsistent(parse, h.runtime, op);
    hide Consistent, LastN;
  }

  /** A reload either takes over the new text and selection or leaves both as they were. */
  lemma ReloadHealthy(parse: ConfigParser, h: Handle, text: string, outbound: Option<string>, env: ReloadEnv)
    requires Healthy(parse, h)
    ensures var (t, ok) := HandleReload(parse, h, text, outbound, env);
            && Healthy(parse, t) && t.listenAddr == h.listenAddr
            && (!ok ==> ConfigOf(t) == ConfigOf(h) && t.selectedOutbound == h.selectedOutbound)
            && (ok ==> ConfigOf(t) == Some(text) && (outbound.Some? ==> t.selectedOutbound == outbound))
  {
    var config := RuntimeConfig(text, outbound, h.listenAddr);
    StepKeepsConsistent(parse, h.runtime, DoReload(config, env.now));
    StepKeepsConsistent(parse, h.runtime, RecordReloadRejected(ConfigInvalid(env.detail)));
    hide LastN;
  }

  lemma UpdateHealthy(parse: ConfigParser, h: Handle, text: string, env: ReloadEnv)
    requires Healthy(parse, h)
    ensures var (t, outcome) := HandleUpdate(parse, h, text, env);
            && Healthy(parse, t) && t.listenAddr == h.listenAddr
            && (outcome.Planned? && outcome.applied ==>
                  ConfigOf(t) == Some(text) && t.selectedOutbound == outcome.report.plannedSelected)
            && (!(outcome.Planned? && outcome.applied) ==>
                  ConfigOf(t) == ConfigOf(h) && t.selectedOutbound == h.selectedOutbound)
            && (outcome.Planned? ==>
                  PlanUpdate(parse, ConfigOf(h), text, h.selectedOutbound) == Ok(outcome.report))
  {
    hide Consistent, PlanUpdate, Step, HandleReload;
    RecordHealthy(parse, h, RecordReloadRejected(ConfigInvalid(env.detail)));
    RecordHealthy(parse, h, RecordReloadRejected(NoSupportedOutbounds));
    var noted := h.(runtime := Step(parse, h.runtime, RecordReloadRejected(NoSupportedOutbounds)));
    RecordHealthy(parse, noted, RecordStatusNote(env.note));
    assert h.runtime.activeConfig.Some? && h.runtime.activePlan.Some? by { RunningHasAll(parse, h.runtime); }
    var selected := Some(h.runtime.activePlan.value.selectedOutbound);
    var plan := PlanUpdate(parse, ConfigOf(h), text, selected);
    if plan.Ok? && plan.value.plannedSelected.Some? {
      ReloadHealthy(parse, h, text, plan.value.plannedSelected, env);
      var (reloaded, ok) := HandleReload(parse, h, text, plan.value.plannedSelected, env);
      RecordHealthy(parse, reloaded, RecordStatusNote(env.note));
    }
  }

  lemma RunningHasAll(parse: ConfigParser, s: RuntimeState)
    requires Consistent(parse, s) && s.status.Running?
    ensures s.activeConfig.Some? && s.activePlan.Some? && s.startedAt.Some?
  {
  }

  lemma {:induction false} NotesHealthy(parse: ConfigParser, h: Handle, notes: seq<string>)
    requires Healthy(parse, h)
    ensures var t := h.(runtime := NoteAll(parse, h.runtime, notes));
            Healthy(parse, t) && ConfigOf(t) == ConfigOf(h)
    decreases |notes|
  {
    hide Healthy, Step, ConfigOf;
    if notes != [] {
      RecordHealthy(parse, h, RecordStatusNote(notes[0]));
      NotesHealthy(parse, h.(runtime := Step(parse, h.runtime, RecordStatusNote(notes[0]))), notes[1..]);
    }
  }

  lemma ProbeHealthy(parse: ConfigParser, h: Handle, notes: seq<string>, summary: string, diagnostic: string)
    requires Healthy(parse, h)
    ensures var (t, ok) := HandleProbe(parse, h, notes, summary, diagnostic);
            && Healthy(parse, t) && ConfigOf(t) == ConfigOf(h) && t.selectedOutbound == h.selectedOutbound
  {
    NotesHealthy(parse, h, notes);
    RecordHealthy(parse, h.(runtime := NoteAll(parse, h.runtime, notes)), RecordStatusDiagnostic(summary, diagnostic));
    hide Healthy, NoteAll, ConfigOf, Step;
  }

  // ---------------------------------------------------------------------
  // What a handle's runtime records
  // ---------------------------------------------------------------------

  /** A start gives a first generation at the bound address; a clean stop keeps its log as a stopped runtime. */
  lemma StartedRuntime(parse: ConfigParser, c: Core, text: string, outbound: Option<string>, mode: TrafficMode, env: StartEnv)
    ensures var (d, ok) := CoreStart(parse, c, text, outbound, mode, env);
            && (ok <==> && c.handle.None? && env.bound.Some? && env.runtimeBuilds && env.proxyApplies && env.spawns
                        && BuildPlan(parse, text, outbound, env.bound.value).Ok?)
            && (ok ==> && d.handle.value.listenAddr == env.bound.value && d.lastStopped == None
                       && d.handle.value.runtime
                          == After(parse, [DoStart(RuntimeConfig(text, outbound, env.bound.value), env.now)]))
  {
    var ops := [DoStart(RuntimeConfig(text, outbound, if env.bound.Some? then env.bound.value else ""), env.now)];
    assert ops[..0] == [];
    assert After(parse, ops) == Step(parse, After(parse, []), ops[0]);
    hide BuildPlan, LastN;
  }

  /** Stopping ends the run; only a clean stop keeps its runtime, and that shows stopped with the generation it had. */
  lemma StoppedRuntime(parse: ConfigParser, c: Core, clean: bool)
    requires HealthyCore(parse, c)
    ensures var (d, ok) := CoreStop(c, clean);
            && d.handle == None && d.mode == c.mode
            && (ok <==> c.handle.Some? && clean)
            && (!ok ==> d.lastStopped == c.lastStopped)
            && (ok ==> && d.lastStopped.Some? && d.lastStopped.value.status == Stopped
                       && d.lastStopped.value.generation == c.handle.value.runtime.generation
                       && d.lastStopped.value.lastError == c.handle.value.runtime.lastError)
  {
    hide LastN, Consistent;
  }

  /**
   * A reload works exactly when the text yields a plan, the new proxy runtime builds and its lock
   * is held; it then is one more generation. A bad text and a failed build are the last error.
   */
  lemma ReloadRecorded(parse: ConfigParser, h: Handle, text: string, outbound: Option<string>, env: ReloadEnv)
    ensures var (t, ok) := HandleReload(parse, h, text, outbound, env);
            var plan := BuildPlan(parse, text, outbound, h.listenAddr);
            && (ok <==> plan.Ok? && env.runtimeBuilds && env.lockHeld)
            && t.listenAddr == h.listenAddr
            && t.selectedOutbound == (if ok then Some(plan.value.selectedOutbound) else h.selectedOutbound)
            && t.runtime.generation == (if ok then h.runtime.generation + 1 else h.runtime.generation)
            && t.runtime.lastError == (if plan.Err? then Some(plan.error)
                                       else if !env.runtimeBuilds then Some(ConfigInvalid(env.detail))
                                       else h.runtime.lastError)
            && (plan.Ok? && env.runtimeBuilds && !env.lockHeld ==> t == h)
  {
    hide BuildPlan, LastN;
  }

  /** A sweep over the nodes logs one event for each note and one for the summary, and reports no failure. */
  lemma {:induction false} NotesRecorded(parse: ConfigParser, s: RuntimeState, notes: seq<string>)
    ensures NoteAll(parse, s, notes).eventCount == s.eventCount + |notes|
    ensures var t := NoteAll(parse, s, notes);
            t == s.(eventCount := t.eventCount, events := t.events,
                    lastError := if notes != [] && s.status.Failed? then Some(s.status.error) else s.lastError)
    decreases |notes|
  {
    hide LastN;
    if notes != [] { NotesRecorded(parse, Step(parse, s, RecordStatusNote(notes[0])), notes[1..]); }
  }

  lemma ProbeRecorded(parse: ConfigParser, h: Handle, notes: seq<string>, summary: string, diagnostic: string)
    requires Healthy(parse, h)
    ensures var (t, ok) := HandleProbe(parse, h, notes, summary, diagnostic);
            && ok
            && t.runtime.eventCount == h.runtime.eventCount + |notes| + 1
            && t.runtime.events != [] && t.runtime.events[|t.runtime.events| - 1]
                                         == Event(h.runtime.status, summary, Some(diagnostic))
            && t.runtime.status == h.runtime.status && t.runtime.generation == h.runtime.generation
            && t.runtime.lastError == h.runtime.lastError
  {
    NotesRecorded(parse, h.runtime, notes);
    RunningHasAll(parse, h.runtime);
    PlanHasTags(parse, h.runtime.activeConfig.value);
    hide NoteAll;
  }

  lemma PlanHasTags(parse: ConfigParser, config: RuntimeConfig)
    ensures PlanFor(parse, config).Ok? ==> PlanFor(parse, config).value.preflight.supportedTags != []
  {
  }
}
