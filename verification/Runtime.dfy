/** The client runtime (crates/keli-client-core/src/lib.rs): start, reload, stop, failures and the event log. */
module Runtime {
  import opened Wrappers
  import opened Subscription

  const EVENT_HISTORY_LIMIT: nat := 256

  datatype Status =
    | Stopped
    | Starting
    | Running(generation: nat, selectedOutbound: string, listen: string)
    | Reloading(generation: nat)
    | Stopping(generation: nat)
    | Failed(error: ClientError)

  datatype RuntimeConfig = RuntimeConfig(configText: string, preferredOutbound: Option<string>, listen: string)

  /** An event without its time stamp. */
  datatype Event = Event(status: Status, note: string, diagnostic: Option<string>)

  datatype RuntimeState = RuntimeState(
    status: Status,
    activePlan: Option<ConnectionPlan>,
    activeConfig: Option<RuntimeConfig>,
    generation: nat,
    startedAt: Option<nat>,
    lastError: Option<ClientError>,
    eventCount: nat,
    events: seq<Event>)

  function Noted(status: Status, note: string): Event { Event(status, note, None) }

  const INITIAL_EVENT: Event := Event(Stopped, "runtime initialized", None)

  const INITIAL: RuntimeState := RuntimeState(Stopped, None, None, 0, None, None, 1, [INITIAL_EVENT])

  function PlanFor(parse: ConfigParser, config: RuntimeConfig): Result<ConnectionPlan, ClientError> {
    BuildPlan(parse, config.configText, config.preferredOutbound, config.listen)
  }

  function RunningStatus(generation: nat, plan: ConnectionPlan): Status {
    Running(generation, plan.selectedOutbound, plan.listen)
  }

  // ---------------------------------------------------------------------
  // Transitions
  // ---------------------------------------------------------------------

  /** The last `n` entries. */
  function LastN<T>(s: seq<T>, n: nat): seq<T> { if |s| <= n then s else s[|s| - n..] }

  /** `push_event`. */
  function Pushed(s: RuntimeState, e: Event): RuntimeState {
    s.(lastError := if e.status.Failed? then Some(e.status.error) else s.lastError,
       eventCount := s.eventCount + 1,
       events := LastN(s.events + [e], EVENT_HISTORY_LIMIT))
  }

  /** `fail`. */
  function AfterFail(s: RuntimeState, error: ClientError): RuntimeState {
    Pushed(s.(activePlan := None, activeConfig := None, startedAt := None, status := Failed(error)),
              Noted(Failed(error), "runtime failed"))
  }

  /** `start`. */
  function AfterStart(parse: ConfigParser, s: RuntimeState, config: RuntimeConfig, now: nat): RuntimeState {
    var starting := Pushed(s.(status := Starting), Noted(Starting, "runtime starting"));
    match PlanFor(parse, config)
    case Err(error) => AfterFail(starting, error)
    case Ok(plan) =>
      var running := RunningStatus(s.generation + 1, plan);
      Pushed(starting.(generation := s.generation + 1, startedAt := Some(now), status := running,
                          activePlan := Some(plan), activeConfig := Some(config)),
                Noted(running, "runtime running"))
  }

  /** `reload`: a rejected configuration puts the old status, plan and configuration back. */
  function AfterReload(parse: ConfigParser, s: RuntimeState, config: RuntimeConfig, now: nat): RuntimeState {
    var reloading := Pushed(s.(status := Reloading(s.generation)), Noted(Reloading(s.generation), "runtime reloading"));
    match PlanFor(parse, config)
    case Err(error) => Pushed(reloading.(status := s.status), Noted(Failed(error), "runtime reload rejected"))
    case Ok(plan) =>
      var running := RunningStatus(s.generation + 1, plan);
      Pushed(reloading.(generation := s.generation + 1,
                           startedAt := if s.startedAt.None? then Some(now) else s.startedAt,
                           status := running, activePlan := Some(plan), activeConfig := Some(config)),
                Noted(running, "runtime reload applied"))
  }

  /** `stop`. */
  function AfterStop(s: RuntimeState): RuntimeState {
    if s.status == Stopped then s
    else
      var stopping := Pushed(s.(status := Stopping(s.generation)), Noted(Stopping(s.generation), "runtime stopping"));
      Pushed(stopping.(activePlan := None, activeConfig := None, startedAt := None, status := Stopped),
                Noted(Stopped, "runtime stopped"))
  }

  datatype Op =
    | DoStart(config: RuntimeConfig, now: nat)
    | DoReload(config: RuntimeConfig, now: nat)
    | DoStop
    | RecordFailure(error: ClientError)
    | RecordReloadRejected(error: ClientError)
    | RecordControlRejected(error: ClientError, note: string)
    | RecordStatusNote(note: string)
    | RecordStatusDiagnostic(note: string, diagnostic: string)

  function Step(parse: ConfigParser, s: RuntimeState, op: Op): RuntimeState {
    match op
    case DoStart(config, now) => AfterStart(parse, s, config, now)
    case DoReload(config, now) => AfterReload(parse, s, config, now)
    case DoStop => AfterStop(s)
    case RecordFailure(error) => AfterFail(s, error)
    case RecordReloadRejected(error) => Pushed(s, Noted(Failed(error), "runtime reload rejected"))
    case RecordControlRejected(error, note) => Pushed(s, Noted(Failed(error), note))
    case RecordStatusNote(note) => Pushed(s, Noted(s.status, note))
    case RecordStatusDiagnostic(note, diagnostic) => Pushed(s, Event(s.status, note, Some(diagnostic)))
  }

  /** `ClientRuntime`: the same transitions by updates in place. */
  class ClientRuntime {
    const parse: ConfigParser
    var status: Status
    var activePlan: Option<ConnectionPlan>
    var activeConfig: Option<RuntimeConfig>
    var generation: nat
    var startedAt: Option<nat>
    var lastError: Option<ClientError>
    var eventCount: nat
    var events: seq<Event>

    function State(): RuntimeState
      reads this
    {
      RuntimeState(status, activePlan, activeConfig, generation, startedAt, lastError, eventCount, events)
    }

    constructor (parse: ConfigParser)
      ensures State() == INITIAL && this.parse == parse
    {
      this.parse := parse;
      status, activePlan, activeConfig, generation := Stopped, None, None, 0;
      startedAt, lastError, eventCount, events := None, None, 1, [INITIAL_EVENT];
    }

    method PushEvent(e: Event)
      modifies this
      ensures State() == Pushed(old(State()), e)
    {
      if e.status.Failed? { lastError := Some(e.status.error); }
      eventCount := eventCount + 1;
      events := events + [e];
      if |events| > EVENT_HISTORY_LIMIT {
        var excess := |events| - EVENT_HISTORY_LIMIT;
        events := events[excess..];
      }
    }

    method Record(newStatus: Status, note: string)
      modifies this
      ensures State() == Pushed(old(State()).(status := newStatus), Noted(newStatus, note))
    {
      status := newStatus;
      PushEvent(Noted(newStatus, note));
    }

    method Fail(error: ClientError)
      modifies this
      ensures State() == AfterFail(old(State()), error)
    {
      activePlan, activeConfig, startedAt := None, None, None;
      status := Failed(error);
      PushEvent(Noted(Failed(error), "runtime failed"));
    }

    method Start(config: RuntimeConfig, now: nat) returns (result: Result<ConnectionPlan, ClientError>)
      modifies this
      ensures State() == AfterStart(parse, old(State()), config, now)
      ensures result == PlanFor(parse, config)
    {
      Record(Starting, "runtime starting");
      result := BuildPlan(parse, config.configText, config.preferredOutbound, config.listen);
      if result.Err? {
        Fail(result.error);
        return;
      }
      generation := generation + 1;
      startedAt := Some(now);
      status := Running(generation, result.value.selectedOutbound, result.value.listen);
      activePlan := Some(result.value);
      activeConfig := Some(config);
      PushEvent(Noted(status, "runtime running"));
    }

    method Reload(config: RuntimeConfig, now: nat) returns (result: Result<ConnectionPlan, ClientError>)
      modifies this
      ensures State() == AfterReload(parse, old(State()), config, now)
      ensures result == PlanFor(parse, config)
    {
      var previousStatus, previousPlan, previousConfig := status, activePlan, activeConfig;
      Record(Reloading(generation), "runtime reloading");
      result := BuildPlan(parse, config.configText, config.preferredOutbound, config.listen);
      if result.Ok? {
        generation := generation + 1;
        if startedAt.None? { startedAt := Some(now); }
        status := Running(generation, result.value.selectedOutbound, result.value.listen);
        activePlan := Some(result.value);
        activeConfig := Some(config);
        PushEvent(Noted(status, "runtime reload applied"));
      } else {
        status := previousStatus;
        activePlan := previousPlan;
        activeConfig := previousConfig;
        PushEvent(Noted(Failed(result.error), "runtime reload rejected"));
      }
    }

    method Stop()
      modifies this
      ensures State() == AfterStop(old(State()))
    {
      if status == Stopped { return; }
      Record(Stopping(generation), "runtime stopping");
      activePlan, activeConfig, startedAt := None, None, None;
      status := Stopped;
      PushEvent(Noted(Stopped, "runtime stopped"));
    }

    /** The five `record_*` entry points. */
    method RecordOnly(op: Op)
      requires !op.DoStart? && !op.DoReload? && !op.DoStop?
      modifies this
      ensures State() == Step(parse, old(State()), op)
    {
      match op
      case RecordFailure(error) => Fail(error);
      case RecordReloadRejected(error) => PushEvent(Noted(Failed(error), "runtime reload rejected"));
      case RecordControlRejected(error, note) => PushEvent(Noted(Failed(error), note));
      case RecordStatusNote(note) => PushEvent(Noted(status, note));
      case RecordStatusDiagnostic(note, diagnostic) => PushEvent(Event(status, note, Some(diagnostic)));
    }
  }

  // ---------------------------------------------------------------------
  // Every reachable state
  // ---------------------------------------------------------------------

  function After(parse: ConfigParser, ops: seq<Op>): RuntimeState {
    if ops == [] then INITIAL else Step(parse, After(parse, ops[..|ops| - 1]), ops[|ops| - 1])
  }

  /**
   * Between calls the runtime is stopped, running or failed. It is running exactly when plan,
   * configuration and start time are all there, the status repeats the plan and the generation,
   * and the plan is what rebuilding it from the configuration gives.
   */
  predicate Consistent(parse: ConfigParser, s: RuntimeState) {
    && (s.status.Stopped? || s.status.Running? || s.status.Failed?)
    && (s.status.Running? <==> s.activePlan.Some?)
    && (s.status.Running? <==> s.activeConfig.Some?)
    && (s.status.Running? <==> s.startedAt.Some?)
    && (s.status.Running? ==>
          && s.status.generation == s.generation
          && s.status.selectedOutbound == s.activePlan.value.selectedOutbound
          && s.status.listen == s.activePlan.value.listen == s.activeConfig.value.listen
          && PlanFor(parse, s.activeConfig.value) == Ok(s.activePlan.value))
  }

  lemma StepKeepsConsistent(parse: ConfigParser, s: RuntimeState, op: Op)
    requires Consistent(parse, s)
    ensures Consistent(parse, Step(parse, s, op))
  {
    hide PlanFor;
    if op.DoStart? || op.DoReload? { PlanListens(parse, op.config); }
  }

  /** A plan listens where its configuration says. */
  lemma PlanListens(parse: ConfigParser, config: RuntimeConfig)
    ensures PlanFor(parse, config).Ok? ==> PlanFor(parse, config).value.listen == config.listen
  {
  }

  lemma {:induction false} ReachableConsistent(parse: ConfigParser, ops: seq<Op>)
    ensures Consistent(parse, After(parse, ops))
  {
    if ops != [] {
      var n := |ops| - 1;
      ReachableConsistent(parse, ops[..n]);
      StepKeepsConsistent(parse, After(parse, ops[..n]), ops[n]);
    }
  }

  /** An operation that starts or reloads with a configuration that yields a plan. */
  predicate Succeeds(parse: ConfigParser, op: Op) {
    (op.DoStart? || op.DoReload?) && PlanFor(parse, op.config).Ok?
  }

  function Successes(parse: ConfigParser, ops: seq<Op>): nat {
    if ops == [] then 0
    else Successes(parse, ops[..|ops| - 1]) + if Succeeds(parse, ops[|ops| - 1]) then 1 else 0
  }

  /** The generation counts the successful starts and reloads of the whole run. */
  lemma {:induction false} GenerationCounts(parse: ConfigParser, ops: seq<Op>)
    ensures After(parse, ops).generation == Successes(parse, ops)
  {
    hide PlanFor, LastN;
    if ops != [] { GenerationCounts(parse, ops[..|ops| - 1]); }
  }

  /** A rejected reload changes nothing but the events, their count and the last error. */
  lemma RejectedReload(parse: ConfigParser, s: RuntimeState, config: RuntimeConfig, now: nat)
    requires PlanFor(parse, config).Err?
    ensures var t := AfterReload(parse, s, config, now);
            && t == s.(events := t.events, eventCount := s.eventCount + 2, lastError := Some(PlanFor(parse, config).error))
            && t.events == LastN(s.events + [Event(Reloading(s.generation), "runtime reloading", None),
                                             Event(Failed(PlanFor(parse, config).error), "runtime reload rejected", None)],
                                 256)
  {
    var a, b := Noted(Reloading(s.generation), "runtime reloading"),
                Noted(Failed(PlanFor(parse, config).error), "runtime reload rejected");
    LastNAgain(s.events, [a], b);
    assert s.events + [a] + [b] == s.events + [a, b];
    hide PlanFor, LastN;
  }

  // ---------------------------------------------------------------------
  // The event log
  // ---------------------------------------------------------------------

  lemma LastNAgain<T>(s: seq<T>, more: seq<T>, last: T)
    ensures LastN(LastN(s + more, EVENT_HISTORY_LIMIT) + [last], EVENT_HISTORY_LIMIT)
            == LastN(s + more + [last], EVENT_HISTORY_LIMIT)
  {
  }

  /** The events an operation records in a state, told apart from how they are stored. */
  function EventsOf(parse: ConfigParser, s: RuntimeState, op: Op): seq<Event> {
    match op
    case DoStart(config, _) =>
      [Event(Starting, "runtime starting", None),
       match PlanFor(parse, config)
       case Ok(plan) => Event(Running(s.generation + 1, plan.selectedOutbound, plan.listen), "runtime running", None)
       case Err(error) => Event(Failed(error), "runtime failed", None)]
    case DoReload(config, _) =>
      [Event(Reloading(s.generation), "runtime reloading", None),
       match PlanFor(parse, config)
       case Ok(plan) => Event(Running(s.generation + 1, plan.selectedOutbound, plan.listen), "runtime reload applied", None)
       case Err(error) => Event(Failed(error), "runtime reload rejected", None)]
    case DoStop =>
      if s.status == Stopped then []
      else [Event(Stopping(s.generation), "runtime stopping", None), Event(Stopped, "runtime stopped", None)]
    case RecordFailure(error) => [Event(Failed(error), "runtime failed", None)]
    case RecordReloadRejected(error) => [Event(Failed(error), "runtime reload rejected", None)]
    case RecordControlRejected(error, note) => [Event(Failed(error), note, None)]
    case RecordStatusNote(note) => [Event(s.status, note, None)]
    case RecordStatusDiagnostic(note, diagnostic) => [Event(s.status, note, Some(diagnostic))]
  }

  /** Every event of a run since the runtime was created. */
  function History(parse: ConfigParser, ops: seq<Op>): seq<Event> {
    if ops == [] then [Event(Stopped, "runtime initialized", None)]
    else
      var front := ops[..|ops| - 1];
      History(parse, front) + EventsOf(parse, After(parse, front), ops[|ops| - 1])
  }

  /** The error of the latest event that reports a failure. */
  function LatestError(history: seq<Event>): Option<ClientError> {
    if history == [] then None
    else
      var last := history[|history| - 1];
      if last.status.Failed? then Some(last.status.error) else LatestError(history[..|history| - 1])
  }

  /** The stored fields are the tail, the length and the latest error of a history. */
  predicate Logs(s: RuntimeState, history: seq<Event>) {
    && s.events == (if |history| <= 256 then history else history[|history| - 256..])
    && s.eventCount == |history|
    && s.lastError == LatestError(history)
  }

  /** Fields that logging does not look at. */
  predicate SameLog(s: RuntimeState, t: RuntimeState) {
    s.events == t.events && s.eventCount == t.eventCount && s.lastError == t.lastError
  }

  lemma PushLogs(s: RuntimeState, t: RuntimeState, history: seq<Event>, e: Event)
    requires Logs(s, history) && SameLog(s, t)
    ensures Logs(Pushed(t, e), history + [e])
  {
    LastNAgain(history, [], e);
    assert history + [] == history;
    assert (history + [e])[..|history|] == history;
    hide LastN;
  }

  /** Logging two events in a row. */
  lemma PushTwice(s: RuntimeState, t: RuntimeState, u: RuntimeState, history: seq<Event>, a: Event, b: Event)
    requires Logs(s, history) && SameLog(s, t) && SameLog(Pushed(t, a), u)
    ensures Logs(Pushed(u, b), history + [a, b])
  {
    PushLogs(s, t, history, a);
    PushLogs(Pushed(t, a), u, history + [a], b);
    assert history + [a] + [b] == history + [a, b];
  }

  lemma StepLogs(parse: ConfigParser, s: RuntimeState, op: Op, history: seq<Event>)
    requires Logs(s, history)
    ensures Logs(Step(parse, s, op), history + EventsOf(parse, s, op))
  {
    hide Logs, LastN, PlanFor;
    match op
    case DoStart(config, now) => StartLogs(parse, s, config, now, history);
    case DoReload(config, now) => ReloadLogs(parse, s, config, now, history);
    case DoStop => StopLogs(s, history);
    case RecordFailure(error) =>
      PushLogs(s, s.(activePlan := None, activeConfig := None, startedAt := None, status := Failed(error)), history,
               Noted(Failed(error), "runtime failed"));
    case RecordReloadRejected(error) => PushLogs(s, s, history, Noted(Failed(error), "runtime reload rejected"));
    case RecordControlRejected(error, note) => PushLogs(s, s, history, Noted(Failed(error), note));
    case RecordStatusNote(note) => PushLogs(s, s, history, Noted(s.status, note));
    case RecordStatusDiagnostic(note, diagnostic) => PushLogs(s, s, history, Event(s.status, note, Some(diagnostic)));
  }

  lemma StartLogs(parse: ConfigParser, s: RuntimeState, config: RuntimeConfig, now: nat, history: seq<Event>)
    requires Logs(s, history)
    ensures Logs(AfterStart(parse, s, config, now), history + EventsOf(parse, s, DoStart(config, now)))
  {
    hide Logs, LastN, PlanFor;
    var a := Noted(Starting, "runtime starting");
    var t := s.(status := Starting);
    var u := Pushed(t, a);
    match PlanFor(parse, config)
    case Err(error) =>
      PushTwice(s, t, u.(activePlan := None, activeConfig := None, startedAt := None, status := Failed(error)), history,
                a, Noted(Failed(error), "runtime failed"));
    case Ok(plan) =>
      var running := RunningStatus(s.generation + 1, plan);
      PushTwice(s, t, u.(generation := s.generation + 1, startedAt := Some(now), status := running,
                         activePlan := Some(plan), activeConfig := Some(config)), history,
                a, Noted(running, "runtime running"));
  }

  lemma ReloadLogs(parse: ConfigParser, s: RuntimeState, config: RuntimeConfig, now: nat, history: seq<Event>)
    requires Logs(s, history)
    ensures Logs(AfterReload(parse, s, config, now), history + EventsOf(parse, s, DoReload(config, now)))
  {
    hide Logs, LastN, PlanFor;
    var a := Noted(Reloading(s.generation), "runtime reloading");
    var t := s.(status := Reloading(s.generation));
    var u := Pushed(t, a);
    match PlanFor(parse, config)
    case Err(error) =>
      PushTwice(s, t, u.(status := s.status), history, a, Noted(Failed(error), "runtime reload rejected"));
    case Ok(plan) =>
      var running := RunningStatus(s.generation + 1, plan);
      PushTwice(s, t, u.(generation := s.generation + 1,
                         startedAt := if s.startedAt.None? then Some(now) else s.startedAt,
                         status := running, activePlan := Some(plan), activeConfig := Some(config)), history,
                a, Noted(running, "runtime reload applied"));
  }

  lemma StopLogs(s: RuntimeState, history: seq<Event>)
    requires Logs(s, history)
    ensures Logs(AfterStop(s), history + if s.status == Stopped then []
                                    else [Noted(Stopping(s.generation), "runtime stopping"), Noted(Stopped, "runtime stopped")])
  {
    hide Logs, LastN;
    if s.status == Stopped {
      assert history + [] == history;
    } else {
      var a := Noted(Stopping(s.generation), "runtime stopping");
      var t := s.(status := Stopping(s.generation));
      PushTwice(s, t, Pushed(t, a).(activePlan := None, activeConfig := None, startedAt := None, status := Stopped),
                history, a, Noted(Stopped, "runtime stopped"));
    }
  }

  /**
   * Over every run, the stored events are the last 256 of the full history, the count is its
   * length, and the last error is the one of the latest failure event in the full history, even
   * after that event has been trimmed away.
   */
  lemma {:induction false} RunLogs(parse: ConfigParser, ops: seq<Op>)
    ensures Logs(After(parse, ops), History(parse, ops))
  {
    if ops == [] {
      var history := [INITIAL_EVENT];
      assert history[..|history| - 1] == [];
      assert LatestError(history) == LatestError([]) == None;
      assert History(parse, ops) == history && After(parse, ops) == INITIAL;
    } else {
      hide Logs, Step, EventsOf;
      var front := ops[..|ops| - 1];
      RunLogs(parse, front);
      StepLogs(parse, After(parse, front), ops[|ops| - 1], History(parse, front));
    }
  }

  // ---------------------------------------------------------------------
  // The status told from the operations
  // ---------------------------------------------------------------------

  /** The configuration that runs after a run of operations, if any. */
  function Applied(parse: ConfigParser, ops: seq<Op>): Option<RuntimeConfig> {
    if ops == [] then None
    else
      var before, op := Applied(parse, ops[..|ops| - 1]), ops[|ops| - 1];
      match op
      case DoStart(config, _) => if Succeeds(parse, op) then Some(config) else None
      case DoReload(config, _) => if Succeeds(parse, op) then Some(config) else before
      case DoStop => None
      case RecordFailure(_) => None
      case _ => before
  }

  /** The failure a run of operations ends in, if any. */
  function FailedWith(parse: ConfigParser, ops: seq<Op>): Option<ClientError> {
    if ops == [] then None
    else
      var before, op := FailedWith(parse, ops[..|ops| - 1]), ops[|ops| - 1];
      match op
      case DoStart(config, _) => if Succeeds(parse, op) then None else Some(PlanFor(parse, config).error)
      case DoReload(_, _) => if Succeeds(parse, op) then None else before
      case DoStop => None
      case RecordFailure(error) => Some(error)
      case _ => before
  }

  /**
   * Over every run: the runtime runs the configuration last applied and shows its address, the
   * outbound its plan selects and the number of successes; otherwise it shows the failure the run
   * ended in, or is stopped.
   */
  lemma {:induction false} StatusMeaning(parse: ConfigParser, ops: seq<Op>)
    ensures var s, config := After(parse, ops), Applied(parse, ops);
            && s.activeConfig == config
            && match config
               case Some(c) =>
                 && PlanFor(parse, c).Ok? && FailedWith(parse, ops).None?
                 && s.activePlan == Some(PlanFor(parse, c).value)
                 && s.status == Running(Successes(parse, ops), PlanFor(parse, c).value.selectedOutbound, c.listen)
               case None =>
                 && s.activePlan == None
                 && s.status == match FailedWith(parse, ops) { case Some(error) => Failed(error) case None => Stopped }
  {
    hide PlanFor, LastN, Consistent;
    GenerationCounts(parse, ops);
    if ops != [] {
      var op := ops[|ops| - 1];
      StatusMeaning(parse, ops[..|ops| - 1]);
      if op.DoStart? || op.DoReload? { PlanListens(parse, op.config); }
    }
  }

  // ---------------------------------------------------------------------
  // Uptime
  // ---------------------------------------------------------------------

  /** When the current running period began, told from the operations alone. */
  function RunningSince(parse: ConfigParser, ops: seq<Op>): Option<nat> {
    if ops == [] then None
    else
      var before, op := RunningSince(parse, ops[..|ops| - 1]), ops[|ops| - 1];
      match op
      case DoStart(_, now) => if Succeeds(parse, op) then Some(now) else None
      case DoReload(_, now) => if Succeeds(parse, op) && before.None? then Some(now) else before
      case DoStop => None
      case RecordFailure(_) => None
      case _ => before
  }

  /** A reload keeps the start time, a start resets it, stopping and failing clear it. */
  lemma {:induction false} StartTimeMeaning(parse: ConfigParser, ops: seq<Op>)
    ensures After(parse, ops).startedAt == RunningSince(parse, ops)
  {
    hide PlanFor, LastN;
    if ops != [] {
      StartTimeMeaning(parse, ops[..|ops| - 1]);
      ReachableConsistent(parse, ops[..|ops| - 1]);
    }
  }
}
