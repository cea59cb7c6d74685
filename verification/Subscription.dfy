/**
 * Subscriptions and connection plans (crates/keli-client-core/src/lib.rs): preflight, outbound
 * selection, and the planner that carries a selection over to an updated subscription.
 */
module Subscription {
  import opened Wrappers

  datatype ClientError =
    | CoreNotStarted
    | DnsTimeout
    | TcpConnectTimeout
    | TlsHandshakeFailed
    | WebSocketUpgradeFailed
    | ProxyAuthFailed
    | RelayStalled
    | TunPermissionMissing
    | SystemProxyLoop
    | RouteNoOutbound
    | NoSupportedOutbounds
    | OutboundNotFound(tag: string)
    | PanelTrafficRestricted(accountState: string, riskControl: string)
    | ConfigInvalid(detail: string)

  /** What the subscription parser extracts: the tags of the supported profiles and the skipped ones. */
  datatype ParsedConfig = ParsedConfig(tags: seq<string>, skipped: seq<string>)

  /** `parse_subscription_outbound_profiles` belongs to another crate and is a parameter here. */
  type ConfigParser = string -> Result<ParsedConfig, string>

  /** `SubscriptionPreflightReport`. */
  datatype Preflight = Preflight(supportedTags: seq<string>, skipped: seq<string>, defaultOutbound: Option<string>)

  function First(tags: seq<string>): Option<string> {
    if tags == [] then None else Some(tags[0])
  }

  /** `preflight_subscription_config`. */
  function PreflightConfig(parse: ConfigParser, text: string): Result<Preflight, ClientError> {
    match parse(text)
    case Err(detail) => Err(ConfigInvalid(detail))
    case Ok(parsed) => Ok(Preflight(parsed.tags, parsed.skipped, First(parsed.tags)))
  }

  /** Reports have private fields and come only from `preflight_subscription_config`. */
  predicate Genuine(p: Preflight) { p.defaultOutbound == First(p.supportedTags) }

  predicate Usable(p: Preflight) { p.supportedTags != [] }

  /** `select_outbound`. */
  function SelectOutbound(p: Preflight, preferred: Option<string>): Result<string, ClientError> {
    match preferred
    case Some(tag) => if tag in p.supportedTags then Ok(tag) else Err(OutboundNotFound(tag))
    case None => if p.defaultOutbound.Some? then Ok(p.defaultOutbound.value) else Err(NoSupportedOutbounds)
  }

  datatype ConnectionPlan = ConnectionPlan(selectedOutbound: string, listen: string, preflight: Preflight)

  /** `build_connection_plan`. */
  function BuildPlan(parse: ConfigParser, text: string, preferred: Option<string>, listen: string)
    : Result<ConnectionPlan, ClientError>
  {
    match PreflightConfig(parse, text)
    case Err(e) => Err(e)
    case Ok(preflight) =>
      match SelectOutbound(preflight, preferred)
      case Err(e) => Err(e)
      case Ok(tag) => Ok(ConnectionPlan(tag, listen, preflight))
  }

  // ---------------------------------------------------------------------
  // The update planner
  // ---------------------------------------------------------------------

  datatype UpdateReason =
    | InitialSubscription
    | SelectedOutboundPreserved
    | SelectedOutboundMissingUseDefault
    | SelectedOutboundMissingNoDefault
    | NoSupportedOutboundsLeft

  datatype UpdateReport = UpdateReport(
    currentSupportedCount: nat,
    newSupportedCount: nat,
    newSkippedCount: nat,
    currentDefault: Option<string>,
    newDefault: Option<string>,
    currentSelected: Option<string>,
    plannedSelected: Option<string>,
    preserved: bool,
    changed: bool,
    usable: bool,
    added: seq<string>,
    removed: seq<string>,
    retained: seq<string>,
    reason: UpdateReason)

  /** The tags of `from` that are, or are not, among `other`, in order and with repeats. */
  function Keep(from: seq<string>, other: seq<string>, present: bool): seq<string> {
    if from == [] then []
    else (if (from[0] in other) == present then [from[0]] else []) + Keep(from[1..], other, present)
  }

  function OrElse(a: Option<string>, b: Option<string>): Option<string> { if a.Some? then a else b }

  /** The planned selection, whether it is the old one, and why. */
  function PlanSelection(usable: bool, effective: Option<string>, newTags: seq<string>, newDefault: Option<string>)
    : (Option<string>, bool, UpdateReason)
  {
    if !usable then (None, false, NoSupportedOutboundsLeft)
    else if effective.Some? then
      if effective.value in newTags then (effective, true, SelectedOutboundPreserved)
      else if newDefault.Some? then (newDefault, false, SelectedOutboundMissingUseDefault)
      else (None, false, SelectedOutboundMissingNoDefault)
    else (newDefault, false, InitialSubscription)
  }

  /** `subscription_update_report_from_preflights`. */
  function UpdateFrom(current: Option<Preflight>, latest: Preflight, selected: Option<string>): UpdateReport {
    var currentTags := if current.Some? then current.value.supportedTags else [];
    var currentDefault := if current.Some? then current.value.defaultOutbound else None;
    var effective := OrElse(selected, currentDefault);
    var (planned, preserved, reason) :=
      PlanSelection(Usable(latest), effective, latest.supportedTags, latest.defaultOutbound);
    UpdateReport(|currentTags|, |latest.supportedTags|, |latest.skipped|, currentDefault, latest.defaultOutbound,
                 effective, planned, preserved, effective != planned, Usable(latest),
                 Keep(latest.supportedTags, currentTags, false),
                 Keep(currentTags, latest.supportedTags, false),
                 Keep(latest.supportedTags, currentTags, true),
                 reason)
  }

  /** `plan_subscription_update`. */
  function PlanUpdate(parse: ConfigParser, currentText: Option<string>, newText: string, selected: Option<string>)
    : Result<UpdateReport, ClientError>
  {
    if currentText.None? then
      match PreflightConfig(parse, newText)
      case Err(e) => Err(e)
      case Ok(latest) => Ok(UpdateFrom(None, latest, selected))
    else match PreflightConfig(parse, currentText.value)
      case Err(e) => Err(e)
      case Ok(current) =>
        match PreflightConfig(parse, newText)
        case Err(e) => Err(e)
        case Ok(latest) => Ok(UpdateFrom(Some(current), latest, selected))
  }

  // ---------------------------------------------------------------------
  // Plans and reports told from what the parser gives
  // ---------------------------------------------------------------------

  /** A plan is built exactly when the text parses and the asked tag, or any tag, is there; else the error says why. */
  lemma BuildPlanIff(parse: ConfigParser, text: string, preferred: Option<string>, listen: string)
    ensures var plan := BuildPlan(parse, text, preferred, listen);
            if parse(text).Err? then plan == Err(ConfigInvalid(parse(text).error))
            else
              var tags := parse(text).value.tags;
              if preferred.Some? && preferred.value !in tags then plan == Err(OutboundNotFound(preferred.value))
              else if preferred.None? && tags == [] then plan == Err(NoSupportedOutbounds)
              else
                && plan.Ok? && plan.value.listen == listen
                && plan.value.selectedOutbound == (if preferred.Some? then preferred.value else tags[0])
                && plan.value.preflight.supportedTags == tags
                && plan.value.preflight.skipped == parse(text).value.skipped
                && plan.value.preflight.defaultOutbound == (if tags == [] then None else Some(tags[0]))
  {
  }

  /** An update is planned exactly when both texts parse; the current text's error comes first. */
  lemma PlanUpdateIff(parse: ConfigParser, current: Option<string>, text: string, selected: Option<string>)
    ensures var r := PlanUpdate(parse, current, text, selected);
            if current.Some? && parse(current.value).Err? then r == Err(ConfigInvalid(parse(current.value).error))
            else if parse(text).Err? then r == Err(ConfigInvalid(parse(text).error))
            else
              var was := if current.Some? then parse(current.value).value.tags else [];
              var tags := parse(text).value.tags;
              var before := if selected.Some? then selected else if was == [] then None else Some(was[0]);
              var planned := if tags == [] then None
                             else if before.Some? && before.value in tags then before
                             else Some(tags[0]);
              && r.Ok?
              && r.value.currentSupportedCount == |was|
              && r.value.newSupportedCount == |tags|
              && r.value.newSkippedCount == |parse(text).value.skipped|
              && r.value.currentDefault == (if was == [] then None else Some(was[0]))
              && r.value.newDefault == (if tags == [] then None else Some(tags[0]))
              && r.value.currentSelected == before
              && r.value.plannedSelected == planned
              && (r.value.preserved <==> planned.Some? && planned == before)
              && (r.value.changed <==> planned != before)
              && (r.value.usable <==> tags != [])
              && r.value.reason == (if tags == [] then NoSupportedOutboundsLeft
                                    else if before.None? then InitialSubscription
                                    else if planned == before then SelectedOutboundPreserved
                                    else SelectedOutboundMissingUseDefault)
  {
    hide Keep;
  }

  /** The kept tags stand in their old order: keeping goes through the list from front to back. */
  lemma {:induction false} KeepAppend(a: seq<string>, b: seq<string>, other: seq<string>, present: bool)
    ensures Keep(a + b, other, present) == Keep(a, other, present) + Keep(b, other, present)
  {
    if a == [] {
      assert a + b == b;
    } else {
      assert (a + b)[1..] == a[1..] + b;
      KeepAppend(a[1..], b, other, present);
    }
  }

  // ---------------------------------------------------------------------
  // What a report means
  // ---------------------------------------------------------------------

  /**
   * The planner is sound and complete: building a plan from the new text with the planned outbound
   * succeeds exactly when the report says usable, and then selects the planned outbound.
   */
  lemma PlannedOutboundBuilds(parse: ConfigParser, current: Option<string>, text: string, selected: Option<string>, listen: string)
    requires PlanUpdate(parse, current, text, selected).Ok?
    ensures var r := PlanUpdate(parse, current, text, selected).value;
            var plan := BuildPlan(parse, text, r.plannedSelected, listen);
            && (plan.Ok? <==> r.usable)
            && (r.usable ==> r.plannedSelected == Some(plan.value.selectedOutbound))
            && (!r.usable ==> r.plannedSelected.None? && plan == Err(NoSupportedOutbounds))
  {
    hide Keep;
  }

  /**
   * With a genuine report of the new subscription, the reason is decided by four cases and the
   * no-default one is not among them; the selection counts as preserved exactly when the plan
   * keeps a selection unchanged.
   */
  lemma ReasonMeaning(current: Option<Preflight>, latest: Preflight, selected: Option<string>)
    requires Genuine(latest)
    ensures var r := UpdateFrom(current, latest, selected);
            && r.reason != SelectedOutboundMissingNoDefault
            && (r.reason == NoSupportedOutboundsLeft <==> latest.supportedTags == [])
            && (r.reason == SelectedOutboundPreserved <==> r.preserved)
            && (r.preserved <==> !r.changed && r.plannedSelected.Some?)
            && (r.plannedSelected.Some? ==> r.plannedSelected.value in latest.supportedTags)
            && (r.plannedSelected.None? <==> latest.supportedTags == [])
  {
    hide Keep;
    if latest.supportedTags != [] { assert latest.supportedTags[0] in latest.supportedTags; }
  }

  lemma {:induction false} KeepMeaning(from: seq<string>, other: seq<string>, present: bool, tag: string)
    ensures multiset(Keep(from, other, present))[tag] == if (tag in other) == present then multiset(from)[tag] else 0
  {
    if from != [] {
      KeepMeaning(from[1..], other, present, tag);
      assert from == [from[0]] + from[1..];
    }
  }

  /**
   * The tag differences are exact, with repeats: added and retained together are the new tags, no
   * removed tag is a new one, and every current tag is removed or still there.
   */
  lemma TagDifferences(current: Option<Preflight>, latest: Preflight, selected: Option<string>, tag: string)
    ensures var r := UpdateFrom(current, latest, selected);
            var old_ := if current.Some? then current.value.supportedTags else [];
            && multiset(r.added)[tag] + multiset(r.retained)[tag] == multiset(latest.supportedTags)[tag]
            && (tag in r.removed <==> tag in old_ && tag !in latest.supportedTags)
            && (tag in r.added <==> tag in latest.supportedTags && tag !in old_)
            && (tag in r.retained <==> tag in latest.supportedTags && tag in old_)
            && multiset(r.removed)[tag] == if tag in latest.supportedTags then 0 else multiset(old_)[tag]
  {
    var old_ := if current.Some? then current.value.supportedTags else [];
    KeepMeaning(latest.supportedTags, old_, false, tag);
    KeepMeaning(latest.supportedTags, old_, true, tag);
    KeepMeaning(old_, latest.supportedTags, false, tag);
    hide Keep, PlanSelection, OrElse, Usable;
    var r := UpdateFrom(current, latest, selected);
    InMultiset(r.added, tag); InMultiset(r.retained, tag); InMultiset(r.removed, tag);
    InMultiset(latest.supportedTags, tag); InMultiset(old_, tag);
  }

  lemma InMultiset(tags: seq<string>, tag: string)
    ensures tag in tags <==> multiset(tags)[tag] > 0
  {
    assert tag in tags <==> tag in multiset(tags);
  }

  /** The selection after a chain of updates, each planned from the text and selection before it. */
  function SelectionAfter(parse: ConfigParser, text: Option<string>, selected: Option<string>, updates: seq<string>)
    : Option<string>
    decreases |updates|
  {
    if updates == [] then selected
    else match PlanUpdate(parse, text, updates[0], selected)
      case Err(_) => SelectionAfter(parse, text, selected, updates[1..])
      case Ok(r) => SelectionAfter(parse, Some(updates[0]), r.plannedSelected, updates[1..])
  }

  /** A selection survives any chain of updates whose tags all contain it. */
  lemma {:induction false} SelectionSurvives(parse: ConfigParser, text: Option<string>, tag: string, updates: seq<string>)
    requires forall i :: 0 <= i < |updates| && parse(updates[i]).Ok? ==> tag in parse(updates[i]).value.tags
    ensures SelectionAfter(parse, text, Some(tag), updates) == Some(tag)
    decreases |updates|
  {
    hide Keep;
    if updates != [] {
      var rest := updates[1..];
      assert forall i :: 0 <= i < |rest| ==> rest[i] == updates[i + 1];
      SelectionSurvives(parse, text, tag, rest);
      SelectionSurvives(parse, Some(updates[0]), tag, rest);
    }
  }
}
