/** What the desktop shows of the core (crates/keli-desktop/src/status.rs and managed.rs). */
module DesktopStatus {
  import opened Wrappers
  import opened Subscription
  import opened ManagedCore
  import Runtime

  datatype RunState = Stopped | Starting | Running | Reloading | Stopping | Failed

  /** `DesktopStatusSnapshot` without metrics, listen address and recent events. */
  datatype StatusSnapshot = StatusSnapshot(
    runState: RunState, mode: TrafficMode, selected: Option<string>, generation: nat, lastError: Option<ClientError>)

  function RunStateOf(status: Runtime.Status): RunState {
    match status
    case Stopped => RunState.Stopped
    case Starting => RunState.Starting
    case Running(_, _, _) => RunState.Running
    case Reloading(_) => RunState.Reloading
    case Stopping(_) => RunState.Stopping
    case Failed(_) => RunState.Failed
  }

  /** The shown run state tells the six statuses apart. */
  lemma RunStateIff(status: Runtime.Status)
    ensures RunStateOf(status) == RunState.Stopped <==> status.Stopped?
    ensures RunStateOf(status) == RunState.Starting <==> status.Starting?
    ensures RunStateOf(status) == RunState.Running <==> status.Running?
    ensures RunStateOf(status) == RunState.Reloading <==> status.Reloading?
    ensures RunStateOf(status) == RunState.Stopping <==> status.Stopping?
    ensures RunStateOf(status) == RunState.Failed <==> status.Failed?
  {
  }

  /** `DesktopManagedCoreService::status`: shows the mode the core was last started in. */
  function CoreStatus(c: Core): StatusSnapshot {
    if c.handle.Some? then
      var h := c.handle.value;
      StatusSnapshot(RunStateOf(h.runtime.status), c.mode, h.selectedOutbound, h.runtime.generation, h.runtime.lastError)
    else if c.lastStopped.Some? then
      var r := c.lastStopped.value;
      StatusSnapshot(RunStateOf(r.status), c.mode, None, r.generation, r.lastError)
    else StatusSnapshot(RunState.Stopped, c.mode, None, 0, None)
  }
}
