/** The shell snapshot (crates/keli-desktop/src/shell.rs): base fields and the fields derived from them. */
module Shell {
  import opened Wrappers
  import opened Subscription
  import opened DesktopStatus
  import opened ManagedCore

  /** The first-run part of `DesktopDependencyReport`. */
  datatype Dependencies = Dependencies(canStartSystemProxy: bool, canStartTun: bool, blockers: seq<string>)

  /** `DesktopSubscriptionSummary`, as far as the shell looks at it. */
  datatype SubscriptionView = SubscriptionView(usable: bool, supportedCount: nat, nodes: seq<string>)

  datatype Action =
    | ShowMainWindow
    | HideMainWindow
    | ToggleMainWindow
    | OpenDiagnostics
    | CloseDiagnostics
    | RequestStart
    | RequestStop
    | RequestQuit
    | CancelQuit

  datatype Command = CommandStart | CommandStop | CommandBusy | CommandRetry | CommandBlocked

  datatype Reason = NoReason | MissingSubscription | Blocked(blockers: seq<string>) | LastError(error: ClientError)

  /** `DesktopShellPrimaryAction` without its display label. */
  datatype PrimaryAction = PrimaryAction(id: string, command: Command, enabled: bool, reason: Reason)

  datatype Window = Window(mainVisible: bool, diagnosticsVisible: bool)

  datatype TrayItem = TrayItem(id: string, enabled: bool, checked: bool, action: Action)

  datatype ShellState = ShellState(
    window: Window,
    status: StatusSnapshot,
    dependencies: Dependencies,
    panel: Option<string>,
    subscription: Option<SubscriptionView>,
    primaryAction: PrimaryAction,
    trayMenu: seq<TrayItem>,
    canStart: bool,
    quitRequested: bool)

  // ---------------------------------------------------------------------
  // Derived fields
  // ---------------------------------------------------------------------

  predicate HasUsable(subscription: Option<SubscriptionView>) {
    subscription.Some? && subscription.value.usable && subscription.value.supportedCount > 0
    && subscription.value.nodes != []
  }

  predicate ModePermitted(status: StatusSnapshot, dependencies: Dependencies) {
    match status.mode
    case MixedInboundOnly => true
    case SystemProxy => dependencies.canStartSystemProxy
    case Tun => dependencies.canStartTun
  }

  predicate CanStartFor(status: StatusSnapshot, dependencies: Dependencies, subscription: Option<SubscriptionView>) {
    HasUsable(subscription) && ModePermitted(status, dependencies)
  }

  function BlockedAction(dependencies: Dependencies, subscription: Option<SubscriptionView>): PrimaryAction {
    PrimaryAction("blocked-service", CommandBlocked, false,
                  if HasUsable(subscription) then Blocked(dependencies.blockers) else MissingSubscription)
  }

  /** `derive_primary_action`. */
  function DerivePrimary(status: StatusSnapshot, dependencies: Dependencies, subscription: Option<SubscriptionView>)
    : PrimaryAction
  {
    match status.runState
    case Stopped =>
      if CanStartFor(status, dependencies, subscription) then PrimaryAction("start-service", CommandStart, true, NoReason)
      else BlockedAction(dependencies, subscription)
    case Running => PrimaryAction("stop-service", CommandStop, true, NoReason)
    case Failed =>
      if CanStartFor(status, dependencies, subscription) then
        PrimaryAction("retry-service", CommandRetry, true,
                      if status.lastError.Some? then LastError(status.lastError.value) else NoReason)
      else BlockedAction(dependencies, subscription)
    case _ => PrimaryAction("busy-service", CommandBusy, false, NoReason)
  }

  /** `derive_tray_menu`. */
  function DeriveTray(window: Window, primary: PrimaryAction): seq<TrayItem> {
    [TrayItem("show-main-window", true, window.mainVisible, if window.mainVisible then HideMainWindow else ShowMainWindow),
     TrayItem("toggle-service", primary.enabled, primary.command == CommandStop,
              if primary.command == CommandStop then RequestStop else RequestStart),
     TrayItem("open-diagnostics", true, window.diagnosticsVisible, OpenDiagnostics),
     TrayItem("quit", true, false, RequestQuit)]
  }

  /** `rebuild_derived`. */
  function Rebuilt(s: ShellState): ShellState {
    var primary := DerivePrimary(s.status, s.dependencies, s.subscription);
    s.(canStart := CanStartFor(s.status, s.dependencies, s.subscription),
       primaryAction := primary,
       trayMenu := DeriveTray(s.window, primary))
  }

  /** The derived fields are what recomputing them from the base fields gives. */
  predicate Derived(s: ShellState) { Rebuilt(s) == s }

  function NewShell(status: StatusSnapshot, dependencies: Dependencies): (t: ShellState)
    ensures Derived(t)
  {
    var window, primary := Window(false, false), DerivePrimary(status, dependencies, None);
    ShellState(window, status, dependencies, None, None, primary, DeriveTray(window, primary),
               CanStartFor(status, dependencies, None), false)
  }

  /** `apply`. */
  function Applied(s: ShellState, action: Action): (t: ShellState)
    ensures Derived(t) && t.status == s.status && t.subscription == s.subscription
    ensures t.panel == s.panel && t.dependencies == s.dependencies
  {
    var w := s.window;
    Rebuilt(match action
            case ShowMainWindow => s.(window := w.(mainVisible := true))
            case HideMainWindow => s.(window := w.(mainVisible := false))
            case ToggleMainWindow => s.(window := w.(mainVisible := !w.mainVisible))
            case OpenDiagnostics => s.(window := Window(true, true))
            case CloseDiagnostics => s.(window := w.(diagnosticsVisible := false))
            case RequestQuit => s.(quitRequested := true)
            case CancelQuit => s.(quitRequested := false)
            case RequestStart => s
            case RequestStop => s)
  }

  /** `refresh_status` and its siblings: replace one base field, then rebuild. */
  function WithStatus(s: ShellState, status: StatusSnapshot): (t: ShellState)
    ensures Derived(t) && t.status == status && t.subscription == s.subscription
    ensures t.window == s.window && t.quitRequested == s.quitRequested && t.panel == s.panel && t.dependencies == s.dependencies
  {
    Rebuilt(s.(status := status))
  }

  function WithDependencies(s: ShellState, d: Dependencies): (t: ShellState)
    ensures Derived(t) && t.status == s.status && t.subscription == s.subscription && t.dependencies == d
    ensures t.window == s.window && t.quitRequested == s.quitRequested && t.panel == s.panel
  {
    Rebuilt(s.(dependencies := d))
  }

  function WithSubscription(s: ShellState, v: Option<SubscriptionView>): (t: ShellState)
    ensures Derived(t) && t.status == s.status && t.subscription == v
    ensures t.window == s.window && t.quitRequested == s.quitRequested && t.panel == s.panel && t.dependencies == s.dependencies
  {
    Rebuilt(s.(subscription := v))
  }

  function WithPanel(s: ShellState, p: Option<string>): (t: ShellState)
    ensures Derived(t) && t.status == s.status && t.subscription == s.subscription
    ensures t.window == s.window && t.quitRequested == s.quitRequested && t.panel == p && t.dependencies == s.dependencies
  {
    Rebuilt(s.(panel := p))
  }

  /** `DesktopShellState`: fields assigned one by one, then the derived ones. */
  class DesktopShellState {
    var window: Window
    var status: StatusSnapshot
    var dependencies: Dependencies
    var panel: Option<string>
    var subscription: Option<SubscriptionView>
    var primaryAction: PrimaryAction
    var trayMenu: seq<TrayItem>
    var canStart: bool
    var quitRequested: bool

    function State(): ShellState
      reads this
    {
      ShellState(window, status, dependencies, panel, subscription, primaryAction, trayMenu, canStart, quitRequested)
    }

    constructor (status: StatusSnapshot, dependencies: Dependencies)
      ensures State() == NewShell(status, dependencies) && Derived(State())
    {
      var w := Window(false, false);
      var primary := DerivePrimary(status, dependencies, None);
      this.window, this.status, this.dependencies := w, status, dependencies;
      this.panel, this.subscription := None, None;
      this.primaryAction, this.trayMenu := primary, DeriveTray(w, primary);
      this.canStart, this.quitRequested := CanStartFor(status, dependencies, None), false;
    }

    method RebuildDerived()
      modifies this
      ensures State() == Rebuilt(old(State()))
    {
      canStart := CanStartFor(status, dependencies, subscription);
      primaryAction := DerivePrimary(status, dependencies, subscription);
      trayMenu := DeriveTray(window, primaryAction);
    }

    method Apply(action: Action)
      modifies this
      ensures State() == Applied(old(State()), action) && Derived(State())
    {
      match action {
      case ShowMainWindow => window := window.(mainVisible := true);
      case HideMainWindow => window := window.(mainVisible := false);
      case ToggleMainWindow => window := window.(mainVisible := !window.mainVisible);
      case OpenDiagnostics =>
        window := window.(mainVisible := true);
        window := window.(diagnosticsVisible := true);
      case CloseDiagnostics => window := window.(diagnosticsVisible := false);
      case RequestQuit => quitRequested := true;
      case CancelQuit => quitRequested := false;
      case RequestStart =>
      case RequestStop =>
      }
      RebuildDerived();
    }

    method RefreshStatus(latest: StatusSnapshot)
      modifies this
      ensures State() == WithStatus(old(State()), latest) && Derived(State())
    {
      status := latest;
      RebuildDerived();
    }

    method RefreshDependencies(latest: Dependencies)
      modifies this
      ensures State() == WithDependencies(old(State()), latest) && Derived(State())
    {
      dependencies := latest;
      RebuildDerived();
    }

    method RefreshSubscription(latest: Option<SubscriptionView>)
      modifies this
      ensures State() == WithSubscription(old(State()), latest) && Derived(State())
    {
      subscription := latest;
      RebuildDerived();
    }

    method RefreshPanel(latest: Option<string>)
      modifies this
      ensures State() == WithPanel(old(State()), latest) && Derived(State())
    {
      panel := latest;
      RebuildDerived();
    }
  }

  // ---------------------------------------------------------------------
  // What the primary action means
  // ---------------------------------------------------------------------

  /** A subscription with nodes, and a mode whose needs are met. */
  predicate MayStart(s: ShellState) {
    && (match s.subscription case None => false case Some(v) => v.usable && v.supportedCount != 0 && |v.nodes| != 0)
    && (s.status.mode == SystemProxy ==> s.dependencies.canStartSystemProxy)
    && (s.status.mode == Tun ==> s.dependencies.canStartTun)
  }

  /** Neither running nor on the way somewhere. */
  predicate AtRest(s: ShellState) { s.status.runState == Stopped || s.status.runState == Failed }

  /** Starting is offered exactly in a stopped or failed shell that may start, stopping exactly in a running one. */
  lemma PrimaryMeaning(s: ShellState)
    requires Derived(s)
    ensures var p := s.primaryAction;
            && (p.enabled && p.command == CommandStart <==> s.status.runState == Stopped && MayStart(s))
            && (p.enabled && p.command == CommandRetry <==> s.status.runState == Failed && MayStart(s))
            && (p.enabled && p.command == CommandStop <==> s.status.runState == Running)
            && (p.command == CommandBlocked <==> AtRest(s) && !MayStart(s))
            && (p.command == CommandBusy <==> !AtRest(s) && s.status.runState != Running)
            && (p.enabled <==> s.status.runState == Running || (AtRest(s) && MayStart(s)))
            && (s.canStart <==> MayStart(s))
  {
    assert s.primaryAction == DerivePrimary(s.status, s.dependencies, s.subscription);
    assert s.canStart == CanStartFor(s.status, s.dependencies, s.subscription);
  }

  /** Blocked for want of a subscription first, then for the missing dependencies; a retry names the last error. */
  lemma ReasonGiven(s: ShellState)
    requires Derived(s)
    ensures var p, needs := s.primaryAction, s.subscription;
            && (p.command == CommandBlocked ==>
                  p.reason == if needs.Some? && needs.value.usable && needs.value.supportedCount != 0 && |needs.value.nodes| != 0
                              then Blocked(s.dependencies.blockers) else MissingSubscription)
            && (p.command == CommandRetry ==>
                  p.reason == match s.status.lastError case Some(error) => LastError(error) case None => NoReason)
            && (p.command == CommandStart || p.command == CommandStop || p.command == CommandBusy ==> p.reason == NoReason)
            && p.id == match p.command { case CommandStart => "start-service" case CommandStop => "stop-service"
                                         case CommandBusy => "busy-service" case CommandRetry => "retry-service"
                                         case CommandBlocked => "blocked-service" }
  {
    assert s.primaryAction == DerivePrimary(s.status, s.dependencies, s.subscription);
  }

  // ---------------------------------------------------------------------
  // What an action does
  // ---------------------------------------------------------------------

  /** The window after an action. */
  function Moved(w: Window, action: Action): Window {
    Window(action == ShowMainWindow || action == OpenDiagnostics
           || (if action == ToggleMainWindow then !w.mainVisible else action != HideMainWindow && w.mainVisible),
           action == OpenDiagnostics || (action != CloseDiagnostics && w.diagnosticsVisible))
  }

  /** Whether quitting is asked for after an action. */
  predicate Quitting(before: bool, action: Action) { action == RequestQuit || (action != CancelQuit && before) }

  /** An action moves the window and the quit flag and leaves every other base field alone. */
  lemma ActionMeaning(s: ShellState, action: Action)
    ensures var t := Applied(s, action);
            && t.window == Moved(s.window, action)
            && t.quitRequested == Quitting(s.quitRequested, action)
            && t.status == s.status && t.dependencies == s.dependencies && t.panel == s.panel
            && t.subscription == s.subscription
  {
    hide DerivePrimary, DeriveTray, CanStartFor;
  }

  /** The other tray items: the first flips the window, the third opens the diagnostics, the last asks to quit. */
  lemma TrayMeaning(s: ShellState)
    requires Derived(s)
    ensures |s.trayMenu| == 4
    ensures var items := s.trayMenu;
            && items[0].enabled && items[0].checked == s.window.mainVisible
            && Moved(s.window, items[0].action) == s.window.(mainVisible := !s.window.mainVisible)
            && items[2].enabled && items[2].checked == s.window.diagnosticsVisible
            && Moved(s.window, items[2].action) == Window(true, true)
            && items[3].enabled && !items[3].checked && Quitting(s.quitRequested, items[3].action)
            && [items[0].id, items[1].id, items[2].id, items[3].id]
               == ["show-main-window", "toggle-service", "open-diagnostics", "quit"]
  {
    assert s.trayMenu == DeriveTray(s.window, s.primaryAction);
  }

  /** `primary_event` (crates/keli-desktop-shell/src/actions.rs): what the primary button asks for. */
  function PrimaryEvent(s: ShellState): Option<Action> {
    if !s.primaryAction.enabled then None
    else match s.primaryAction.command
      case CommandStart => Some(RequestStart)
      case CommandRetry => Some(RequestStart)
      case CommandStop => Some(RequestStop)
      case CommandBusy => None
      case CommandBlocked => None
  }

  /** The tray's service item is enabled exactly when the button acts, and then asks for the same thing. */
  lemma TrayFollowsPrimary(s: ShellState)
    requires Derived(s)
    ensures |s.trayMenu| == 4
    ensures s.trayMenu[1].enabled <==> PrimaryEvent(s).Some?
    ensures PrimaryEvent(s).Some? ==> PrimaryEvent(s) == Some(s.trayMenu[1].action)
    ensures s.trayMenu[1].checked <==> s.status.runState == Running
  {
    assert s.trayMenu == DeriveTray(s.window, s.primaryAction);
    assert s.primaryAction == DerivePrimary(s.status, s.dependencies, s.subscription);
  }
}
