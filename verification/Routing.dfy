/** The route engine (crates/keli-net-core/src/lib.rs): first matching rule wins. */
module Routing {
  import opened Wrappers
  import opened Bytes
  import opened Text
  import opened Net
  import opened Cidr

  type Block = c: RouteIpCidr | Valid(c) witness RouteIpCidr(V4(0), 0)

  datatype RouteTarget = Domain(name: bytes) | Ip(ip: IpAddr)

  datatype Destination = Destination(target: RouteTarget, port: u16)

  datatype RouteAction = Direct | Block_ | Outbound(tag: bytes) | HijackDns

  datatype RouteMatcher =
    | DomainExact(domain: bytes)
    | DomainKeyword(keyword: bytes)
    | DomainSuffix(suffix: bytes)
    | IpExact(ip: IpAddr)
    | IpCidr(cidr: Block)
    | PortExact(port: u16)
    | PortRange(start: u16, end: u16)

  datatype RouteRule = RouteRule(name: bytes, matcher: RouteMatcher, action: RouteAction)

  datatype RouteDecision = RouteDecision(action: RouteAction, matchedRule: Option<bytes>)

  /** A domain under a suffix: the suffix itself, or anything ending in a dot and the suffix. */
  predicate SuffixMatches(suffix: bytes, actual: bytes) {
    var expected := TrimStartDots(suffix);
    EqIgnoreCase(actual, expected) || EndsWith(Lower(actual), [46] + Lower(expected))
  }

  /** `RouteMatcher::matches`. */
  predicate Matches(m: RouteMatcher, d: Destination) {
    match m
    case DomainExact(expected) => d.target.Domain? && EqIgnoreCase(expected, d.target.name)
    case DomainKeyword(expected) => d.target.Domain? && Contains(Lower(d.target.name), Lower(expected))
    case DomainSuffix(expected) => d.target.Domain? && SuffixMatches(expected, d.target.name)
    case IpExact(expected) => d.target.Ip? && expected == d.target.ip
    case IpCidr(cidr) => d.target.Ip? && CidrMatches(cidr, d.target.ip)
    case PortExact(expected) => d.port == expected
    case PortRange(start, end) => start <= d.port <= end
  }

  function DecisionOf(rule: RouteRule): RouteDecision { RouteDecision(rule.action, Some(rule.name)) }

  /** The decision of a rule list. */
  function Decide(rules: seq<RouteRule>, defaultAction: RouteAction, d: Destination): RouteDecision {
    if rules == [] then RouteDecision(defaultAction, None)
    else if Matches(rules[0].matcher, d) then DecisionOf(rules[0])
    else Decide(rules[1..], defaultAction, d)
  }

  class RouteEngine {
    var rules: seq<RouteRule>
    const defaultAction: RouteAction

    constructor (defaultAction: RouteAction)
      ensures rules == [] && this.defaultAction == defaultAction
    {
      this.rules, this.defaultAction := [], defaultAction;
    }

    /** `add_rule`. */
    method AddRule(rule: RouteRule)
      modifies this
      ensures rules == old(rules) + [rule]
    {
      rules := rules + [rule];
    }

    /** `decide_destination`: the loop with its early return. */
    method DecideDestination(d: Destination) returns (decision: RouteDecision)
      ensures decision == Decide(rules, defaultAction, d)
    {
      hide Matches;
      var i := 0;
      while i < |rules|
        invariant 0 <= i <= |rules|
        invariant Decide(rules[i..], defaultAction, d) == Decide(rules, defaultAction, d)
      {
        if Matches(rules[i].matcher, d) {
          return DecisionOf(rules[i]);
        }
        assert rules[i..][1..] == rules[i + 1..];
        i := i + 1;
      }
      decision := RouteDecision(defaultAction, None);
    }

    /** `decide`: a bare target is decided at port 0. */
    method DecideTarget(target: RouteTarget) returns (decision: RouteDecision)
      ensures decision == Decide(rules, defaultAction, Destination(target, 0))
    {
      decision := DecideDestination(Destination(target, 0));
    }
  }

  // ---------------------------------------------------------------------
  // First match
  // ---------------------------------------------------------------------

  predicate SomeMatch(rules: seq<RouteRule>, d: Destination) {
    exists i :: 0 <= i < |rules| && Matches(rules[i].matcher, d)
  }

  /** The first rule that matches decides: its action is taken and its name is reported. */
  lemma {:induction false} FirstMatchDecides(rules: seq<RouteRule>, defaultAction: RouteAction, d: Destination, i: nat)
    requires i < |rules| && Matches(rules[i].matcher, d) && !SomeMatch(rules[..i], d)
    ensures Decide(rules, defaultAction, d).action == rules[i].action
    ensures Decide(rules, defaultAction, d).matchedRule == Some(rules[i].name)
  {
    hide Matches;
    if i > 0 {
      SomeMatchCons(rules[..i], d);
      assert rules[1..][..i - 1] == rules[..i][1..];
      FirstMatchDecides(rules[1..], defaultAction, d, i - 1);
    }
  }

  /** Without a match the default is taken and no rule is reported. */
  lemma {:induction false} NoMatchDefault(rules: seq<RouteRule>, defaultAction: RouteAction, d: Destination)
    requires !SomeMatch(rules, d)
    ensures Decide(rules, defaultAction, d).action == defaultAction
    ensures Decide(rules, defaultAction, d).matchedRule == None
  {
    hide Matches;
    if rules != [] {
      SomeMatchCons(rules, d);
      NoMatchDefault(rules[1..], defaultAction, d);
    }
  }

  /** A list decides by its front part if something there matches, otherwise by the rest. */
  lemma {:induction false} DecideAppend(a: seq<RouteRule>, b: seq<RouteRule>, defaultAction: RouteAction, d: Destination)
    ensures Decide(a + b, defaultAction, d)
            == if SomeMatch(a, d) then Decide(a, defaultAction, d) else Decide(b, defaultAction, d)
  {
    hide Matches;
    if a == [] {
      assert a + b == b;
    } else {
      assert (a + b)[1..] == a[1..] + b;
      DecideAppend(a[1..], b, defaultAction, d);
      SomeMatchCons(a, d);
    }
  }

  lemma SomeMatchCons(rules: seq<RouteRule>, d: Destination)
    requires rules != []
    ensures SomeMatch(rules, d) <==> Matches(rules[0].matcher, d) || SomeMatch(rules[1..], d)
  {
    hide Matches;
    if SomeMatch(rules[1..], d) {
      var i :| 0 <= i < |rules[1..]| && Matches(rules[1..][i].matcher, d);
      assert rules[i + 1] == rules[1..][i];
    }
    if SomeMatch(rules, d) {
      var i :| 0 <= i < |rules| && Matches(rules[i].matcher, d);
      assert i > 0 ==> rules[1..][i - 1] == rules[i];
    }
  }

  lemma DecideOne(rule: RouteRule, rest: seq<RouteRule>, defaultAction: RouteAction, d: Destination)
    ensures Decide([rule] + rest, defaultAction, d)
            == if Matches(rule.matcher, d) then DecisionOf(rule) else Decide(rest, defaultAction, d)
  {
    hide Matches;
    assert ([rule] + rest)[1..] == rest;
  }

  // ---------------------------------------------------------------------
  // What a domain matcher matches, letter by letter
  // ---------------------------------------------------------------------

  /** The same text up to the case of its letters. */
  predicate SameText(a: bytes, b: bytes) {
    |a| == |b| && forall i :: 0 <= i < |a| ==> SameLetter(a[i], b[i])
  }

  predicate SameTextAt(s: bytes, needle: bytes, i: nat) {
    i + |needle| <= |s| && SameText(s[i..i + |needle|], needle)
  }

  /** An exact domain matches the same text. */
  lemma ExactMatchIff(domain: bytes, name: bytes, port: u16)
    ensures Matches(DomainExact(domain), Destination(Domain(name), port)) <==> SameText(domain, name)
  {
    EqIgnoreCaseIff(domain, name);
  }

  /** A keyword matches wherever its text occurs. */
  lemma KeywordMatchIff(keyword: bytes, name: bytes, port: u16)
    ensures Matches(DomainKeyword(keyword), Destination(Domain(name), port))
            <==> exists i: nat :: SameTextAt(name, keyword, i)
  {
    forall i: nat
      ensures OccursAt(Lower(name), Lower(keyword), i) <==> SameTextAt(name, keyword, i)
    {
      SameTextOccurs(name, keyword, i);
    }
    hide OccursAt, SameTextAt, Lower;
    if i: nat :| SameTextAt(name, keyword, i) {
      assert OccursAt(Lower(name), Lower(keyword), i);
      OccursInside(Lower(name), Lower(keyword), i);
    }
  }

  lemma OccursInside(s: bytes, needle: bytes, i: nat)
    requires OccursAt(s, needle, i)
    ensures Contains(s, needle)
  {
  }

  lemma SameTextOccurs(s: bytes, needle: bytes, i: nat)
    ensures OccursAt(Lower(s), Lower(needle), i) <==> SameTextAt(s, needle, i)
  {
    if i + |needle| <= |s| {
      assert Lower(s[i..i + |needle|]) == Lower(s)[i..i + |needle|];
      EqIgnoreCaseIff(s[i..i + |needle|], needle);
    }
  }

  /** A suffix without its leading dots matches its own text, and any text that ends in a dot and it. */
  lemma SuffixMatchIff(dots: nat, suffix: bytes, name: bytes, port: u16)
    requires dots <= |suffix| && (forall k :: 0 <= k < dots ==> suffix[k] == 46) && (dots < |suffix| ==> suffix[dots] != 46)
    ensures var rest := suffix[dots..];
            var front := |name| - |rest|;
            Matches(DomainSuffix(suffix), Destination(Domain(name), port))
            <==> SameText(name, rest) || (front > 0 && name[front - 1] == 46 && SameText(name[front..], rest))
  {
    hide *;
    TrimStartDotsIs(suffix, dots);
    TrimmedMatchIff(suffix, suffix[dots..], name, port);
  }

  lemma TrimmedMatchIff(suffix: bytes, rest: bytes, name: bytes, port: u16)
    requires TrimStartDots(suffix) == rest
    ensures var front := |name| - |rest|;
            Matches(DomainSuffix(suffix), Destination(Domain(name), port))
            <==> SameText(name, rest) || (front > 0 && name[front - 1] == 46 && SameText(name[front..], rest))
  {
    EqIgnoreCaseIff(name, rest);
    hide TrimStartDots, EqIgnoreCase, Lower;
    if |name| > |rest| { DotSuffixIff(name, rest); }
  }

  lemma DotSuffixIff(name: bytes, rest: bytes)
    requires |name| > |rest|
    ensures var front := |name| - |rest|;
            EndsWith(Lower(name), [46] + Lower(rest)) <==> name[front - 1] == 46 && SameText(name[front..], rest)
  {
    var low, at := Lower(name), |name| - |rest| - 1;
    var end := low[at..];
    assert end == [low[at]] + low[at + 1..];
    assert low[at + 1..] == Lower(name[at + 1..]);
    EqIgnoreCaseIff(name[at + 1..], rest);
    hide Lower;
    if end == [46] + Lower(rest) {
      assert end[0] == 46 && end[1..] == Lower(rest) && end[1..] == low[at + 1..];
    }
  }

  // ---------------------------------------------------------------------
  // Rewrites that preserve every decision
  // ---------------------------------------------------------------------

  ghost predicate Covers(outer: RouteMatcher, inner: RouteMatcher) {
    forall d :: Matches(inner, d) ==> Matches(outer, d)
  }

  ghost predicate Disjoint(a: RouteMatcher, b: RouteMatcher) {
    forall d :: !(Matches(a, d) && Matches(b, d))
  }

  datatype Rewrite = Drop(at: nat) | Swap(at: nat)

  /** A rule may be dropped when the rules before it cover it, and swapped with a disjoint neighbour. */
  ghost predicate Sound(w: Rewrite, rules: seq<RouteRule>) {
    match w
    case Drop(at) => at < |rules| && forall d :: Matches(rules[at].matcher, d) ==> SomeMatch(rules[..at], d)
    case Swap(at) => at + 1 < |rules| && Disjoint(rules[at].matcher, rules[at + 1].matcher)
  }

  ghost function Rewritten(w: Rewrite, rules: seq<RouteRule>): seq<RouteRule>
    requires Sound(w, rules)
  {
    match w
    case Drop(at) => rules[..at] + rules[at + 1..]
    case Swap(at) => rules[..at] + ([rules[at + 1]] + ([rules[at]] + rules[at + 2..]))
  }

  /** One sound rewrite leaves every decision of every destination as it was. */
  lemma RewriteKeepsDecision(w: Rewrite, rules: seq<RouteRule>, defaultAction: RouteAction, d: Destination)
    requires Sound(w, rules)
    ensures Decide(Rewritten(w, rules), defaultAction, d) == Decide(rules, defaultAction, d)
  {
    hide Matches, Decide, SomeMatch, DecisionOf;
    var front := rules[..w.at];
    if w.Drop? {
      var rest := rules[w.at + 1..];
      assert rules == front + ([rules[w.at]] + rest);
      DecideAppend(front, [rules[w.at]] + rest, defaultAction, d);
      DecideAppend(front, rest, defaultAction, d);
      DecideOne(rules[w.at], rest, defaultAction, d);
    } else {
      var x, y, rest := rules[w.at], rules[w.at + 1], rules[w.at + 2..];
      assert rules == front + ([x] + ([y] + rest));
      DecideAppend(front, [x] + ([y] + rest), defaultAction, d);
      DecideAppend(front, [y] + ([x] + rest), defaultAction, d);
      DecideOne(x, [y] + rest, defaultAction, d);
      DecideOne(y, rest, defaultAction, d);
      DecideOne(y, [x] + rest, defaultAction, d);
      DecideOne(x, rest, defaultAction, d);
    }
  }

  /** Each rewrite of a list of them is sound where it is applied. */
  ghost predicate AllSound(ws: seq<Rewrite>, rules: seq<RouteRule>) {
    ws == [] || (Sound(ws[0], rules) && AllSound(ws[1..], Rewritten(ws[0], rules)))
  }

  ghost function RewrittenAll(ws: seq<Rewrite>, rules: seq<RouteRule>): seq<RouteRule>
    requires AllSound(ws, rules)
  {
    if ws == [] then rules else RewrittenAll(ws[1..], Rewritten(ws[0], rules))
  }

  /** Any sequence of sound drops and swaps preserves all decisions. */
  lemma {:induction false} RewritesKeepDecisions(ws: seq<Rewrite>, rules: seq<RouteRule>, defaultAction: RouteAction, d: Destination)
    requires AllSound(ws, rules)
    ensures Decide(RewrittenAll(ws, rules), defaultAction, d) == Decide(rules, defaultAction, d)
    decreases |ws|
  {
    hide Decide, Matches, Sound, Rewritten;
    if ws != [] {
      RewriteKeepsDecision(ws[0], rules, defaultAction, d);
      RewritesKeepDecisions(ws[1..], Rewritten(ws[0], rules), defaultAction, d);
    }
  }

  /** A rule covered by one earlier rule may be dropped. */
  lemma CoveredRuleDrops(rules: seq<RouteRule>, i: nat, j: nat)
    requires i < j < |rules| && Covers(rules[i].matcher, rules[j].matcher)
    ensures Sound(Drop(j), rules)
  {
    hide Matches;
    forall d | Matches(rules[j].matcher, d)
      ensures SomeMatch(rules[..j], d)
    {
      assert rules[..j][i] == rules[i];
    }
  }

  /** Appending a rule changes only destinations that used to take the default. */
  lemma AppendChangesDefaultOnly(rules: seq<RouteRule>, rule: RouteRule, defaultAction: RouteAction, d: Destination)
    ensures Decide(rules + [rule], defaultAction, d)
            == if SomeMatch(rules, d) then Decide(rules, defaultAction, d)
               else if Matches(rule.matcher, d) then RouteDecision(rule.action, Some(rule.name))
               else RouteDecision(defaultAction, None)
    ensures !SomeMatch(rules, d) ==> Decide(rules, defaultAction, d) == RouteDecision(defaultAction, None)
  {
    DecideAppend(rules, [rule], defaultAction, d);
    DecideOne(rule, [], defaultAction, d);
    DecideAppend(rules, [], defaultAction, d);
    assert [rule] + [] == [rule] && rules + [] == rules;
  }

  // ---------------------------------------------------------------------
  // When one matcher covers another or meets it: checks that hold exactly then
  // ---------------------------------------------------------------------

  predicate OnDomains(m: RouteMatcher) { m.DomainExact? || m.DomainSuffix? || m.DomainKeyword? }

  predicate OnIps(m: RouteMatcher) { m.IpExact? || m.IpCidr? }

  predicate OnPorts(m: RouteMatcher) { m.PortExact? || m.PortRange? }

  /** The ports a matcher lets through, from `PortLow` to `PortHigh`. */
  function PortLow(m: RouteMatcher): u16 {
    match m case PortExact(p) => p case PortRange(low, _) => low case _ => 0
  }

  function PortHigh(m: RouteMatcher): u16 {
    match m case PortExact(p) => p case PortRange(_, high) => high case _ => 65535
  }

  /** A range that runs backwards matches nothing; every other matcher matches something. */
  predicate Void(m: RouteMatcher) { PortLow(m) > PortHigh(m) }

  /** The block of an address matcher. */
  function BlockOf(m: RouteMatcher): Block
    requires OnIps(m)
  {
    if m.IpCidr? then m.cidr else SingleValid(m.ip); Single(m.ip)
  }

  /** Whether `outer` covers `inner`, from the two matchers alone. */
  predicate CoverCheck(outer: RouteMatcher, inner: RouteMatcher) {
    Void(inner) ||
    match outer
    case DomainExact(a) => inner.DomainExact? && EqIgnoreCase(a, inner.domain)
    case DomainSuffix(a) => (inner.DomainExact? || inner.DomainSuffix?) && SuffixMatches(a, Sample(inner))
    case DomainKeyword(a) => OnDomains(inner) && Contains(Lower(Sample(inner)), Lower(a))
    case IpExact(_) => OnIps(inner) && WithinCheck(BlockOf(inner), BlockOf(outer))
    case IpCidr(_) => OnIps(inner) && WithinCheck(BlockOf(inner), BlockOf(outer))
    case PortExact(_) => PortLow(outer) <= PortLow(inner) && PortHigh(inner) <= PortHigh(outer)
    case PortRange(_, _) => PortLow(outer) <= PortLow(inner) && PortHigh(inner) <= PortHigh(outer)
  }

  /** A keyword can be combined with any other keyword and any suffix in one domain. */
  predicate Combinable(a: RouteMatcher, b: RouteMatcher) {
    || (a.DomainKeyword? && (b.DomainKeyword? || b.DomainSuffix?))
    || (b.DomainKeyword? && a.DomainSuffix?)
  }

  /** Whether no destination matches both, from the two matchers alone. */
  predicate DisjointCheck(a: RouteMatcher, b: RouteMatcher) {
    || Void(a) || Void(b)
    || if OnPorts(a) || OnPorts(b) then PortHigh(a) < PortLow(b) || PortHigh(b) < PortLow(a)
       else !Combinable(a, b) && !CoverCheck(a, b) && !CoverCheck(b, a)
  }

  /** The shortest domain a domain matcher matches. */
  function Sample(m: RouteMatcher): bytes
    requires OnDomains(m)
  {
    match m
    case DomainExact(a) => a
    case DomainSuffix(a) => TrimStartDots(a)
    case DomainKeyword(a) => a
  }

  lemma KeywordOccurs(before: bytes, keyword: bytes, after: bytes)
    ensures Contains(Lower(before + keyword + after), Lower(keyword))
  {
    var s := before + keyword + after;
    assert Lower(s)[|before|..|before| + |keyword|] == Lower(keyword);
    assert OccursAt(Lower(s), Lower(keyword), |before|);
  }

  lemma SampleMatches(m: RouteMatcher, p: u16)
    requires OnDomains(m)
    ensures Matches(m, Destination(Domain(Sample(m)), p))
  {
    if m.DomainKeyword? {
      KeywordOccurs([], m.keyword, []);
      assert [] + m.keyword + [] == m.keyword;
    }
  }

  /** A destination a matcher matches at a port it lets through; for a port matcher, of the asked kind. */
  function Witness(m: RouteMatcher, p: u16, onIp: bool): Destination {
    if OnDomains(m) then Destination(Domain(Sample(m)), p)
    else if OnIps(m) then Destination(Ip(BlockOf(m).network), p)
    else Destination(if onIp then Ip(V4(0)) else Domain([]), p)
  }

  lemma WitnessMatches(m: RouteMatcher, p: u16, onIp: bool)
    requires PortLow(m) <= p <= PortHigh(m)
    ensures Matches(m, Witness(m, p, onIp))
  {
    hide CidrMatches, MaskIp;
    if OnDomains(m) {
      SampleMatches(m, p);
    } else if m.IpCidr? {
      NetworkMatches(m.cidr);
    }
  }

  /** An address matcher is its block. */
  lemma BlockMatches(m: RouteMatcher, d: Destination)
    requires OnIps(m)
    ensures Matches(m, d) <==> d.target.Ip? && CidrMatches(BlockOf(m), d.target.ip)
  {
    hide CidrMatches, MaskIp;
    if m.IpExact? && d.target.Ip? { SingleMatches(m.ip, d.target.ip); }
  }

  /** Whatever a domain matcher other than a keyword matches ends, in lower case, with its sample. */
  lemma MatchEndsWithSample(m: RouteMatcher, actual: bytes)
    requires m.DomainExact? || m.DomainSuffix?
    requires Matches(m, Destination(Domain(actual), 0))
    ensures EndsWith(Lower(actual), Lower(Sample(m)))
  {
    var a, e := Lower(actual), Lower(Sample(m));
    if a == e {
      assert a[0..] == a;
    } else {
      assert ([46] + e)[1..] == e;
      EndsWithTransitive(a, [46] + e, e);
    }
  }

  lemma SuffixTransitive(outer: bytes, inner: bytes, actual: bytes)
    requires SuffixMatches(outer, TrimStartDots(inner)) && SuffixMatches(inner, actual)
    ensures SuffixMatches(outer, actual)
  {
    var a, e, o := Lower(actual), Lower(TrimStartDots(inner)), Lower(TrimStartDots(outer));
    hide Lower, TrimStartDots;
    if a != e {
      assert ([46] + e)[1..] == e;
      EndsWithTransitive(a, [46] + e, e);
      if e != o { EndsWithTransitive(a, e, [46] + o); }
    }
  }

  lemma SuffixOfEqual(outer: bytes, x: bytes, y: bytes)
    requires EqIgnoreCase(x, y)
    ensures SuffixMatches(outer, x) == SuffixMatches(outer, y)
  {
  }

  /** Matching does not depend on the port for a domain matcher. */
  lemma DomainIgnoresPort(m: RouteMatcher, name: bytes, p: u16, q: u16)
    requires OnDomains(m)
    ensures Matches(m, Destination(Domain(name), p)) == Matches(m, Destination(Domain(name), q))
  {
  }

  lemma DomainCovers(outer: RouteMatcher, inner: RouteMatcher, actual: bytes)
    requires OnDomains(outer) && OnDomains(inner)
    requires CoverCheck(outer, inner) && Matches(inner, Destination(Domain(actual), 0))
    ensures Matches(outer, Destination(Domain(actual), 0))
  {
    match outer
    case DomainExact(_) =>
    case DomainSuffix(a) =>
      if inner.DomainExact? { SuffixOfEqual(a, actual, inner.domain); }
      else { SuffixTransitive(a, inner.suffix, actual); }
    case DomainKeyword(a) =>
      if !inner.DomainKeyword? {
        MatchEndsWithSample(inner, actual);
        SuffixOccurs(Lower(actual), Lower(Sample(inner)));
      }
      ContainsTransitive(Lower(actual), Lower(Sample(inner)), Lower(a));
  }

  /** A domain that holds a keyword and does not lie under a suffix. */
  function Beside(suffix: bytes, keyword: bytes): bytes {
    var e := TrimStartDots(suffix);
    keyword + [if e != [] && e[|e| - 1] == 48 then 49 else 48]
  }

  /** A domain whose last octet is another than the suffix's does not lie under it. */
  lemma NotUnder(suffix: bytes, actual: bytes)
    requires actual != []
    requires var e := TrimStartDots(suffix);
             LowerByte(actual[|actual| - 1]) != if e == [] then 46 else LowerByte(e[|e| - 1])
    ensures !SuffixMatches(suffix, actual)
  {
    var a, e := Lower(actual), Lower(TrimStartDots(suffix));
    var o := [46] + e;
    assert o[|o| - 1] != a[|a| - 1];
    hide Lower, TrimStartDots;
    if |o| <= |a| { assert a[|a| - |o|..][|o| - 1] == a[|a| - 1]; }
  }

  lemma BesideEscapes(suffix: bytes, keyword: bytes)
    ensures Contains(Lower(Beside(suffix, keyword)), Lower(keyword))
    ensures !SuffixMatches(suffix, Beside(suffix, keyword))
  {
    var x := Beside(suffix, keyword);
    var last := x[|keyword|..];
    KeywordOccurs([], keyword, last);
    assert [] + keyword + last == x;
    hide SuffixMatches, Contains, Lower;
    NotUnder(suffix, x);
  }

  /** A longer domain that a suffix or keyword matches besides its sample. */
  lemma SecondSample(m: RouteMatcher)
    requires m.DomainSuffix? || m.DomainKeyword?
    ensures Matches(m, Destination(Domain([46] + Sample(m)), 0))
  {
    var s := Sample(m);
    if m.DomainKeyword? {
      KeywordOccurs([46], s, []);
      assert [46] + s + [] == [46] + s;
    } else {
      LowerAppend([46], s);
      assert Lower([46]) == [46];
      assert Lower([46] + s)[0..] == [46] + Lower(s);
    }
  }

  /** Between domain matchers the check decides coverage. */
  lemma DomainCoverIff(outer: RouteMatcher, inner: RouteMatcher)
    requires OnDomains(outer) && OnDomains(inner)
    ensures Covers(outer, inner) <==> CoverCheck(outer, inner)
  {
    if CoverCheck(outer, inner) {
      forall d | Matches(inner, d)
        ensures Matches(outer, d)
      {
        DomainIgnoresPort(inner, d.target.name, d.port, 0);
        DomainIgnoresPort(outer, d.target.name, d.port, 0);
        DomainCovers(outer, inner, d.target.name);
      }
    } else {
      DomainEscapes(outer, inner);
    }
  }

  /** Without the check, some domain matches only the inner matcher. */
  lemma DomainEscapes(outer: RouteMatcher, inner: RouteMatcher)
    requires OnDomains(outer) && OnDomains(inner) && !CoverCheck(outer, inner)
    ensures !Covers(outer, inner)
  {
    var d := Destination(Domain(Sample(inner)), 0);
    SampleMatches(inner, 0);
    if outer.DomainExact? && !inner.DomainExact? {
      SecondSample(inner);
      var e := Destination(Domain([46] + Sample(inner)), 0);
      assert Matches(inner, d) && Matches(inner, e);
      assert |Lower(outer.domain)| != |Sample(inner)| || |Lower(outer.domain)| != |Sample(inner)| + 1;
      hide Sample;
    } else if outer.DomainSuffix? && inner.DomainKeyword? {
      BesideEscapes(outer.suffix, inner.keyword);
      var e := Destination(Domain(Beside(outer.suffix, inner.keyword)), 0);
      hide SuffixMatches, Contains, Beside;
      assert Matches(inner, e) && !Matches(outer, e);
    } else {
      assert Matches(inner, d) && !Matches(outer, d);
    }
  }

  lemma IpCoverIff(outer: RouteMatcher, inner: RouteMatcher)
    requires OnIps(outer) && OnIps(inner)
    ensures Covers(outer, inner) <==> CoverCheck(outer, inner)
  {
    hide CidrMatches, MaskIp, Matches, BlockOf;
    var o, i := BlockOf(outer), BlockOf(inner);
    WithinIff(i, o);
    if Covers(outer, inner) {
      forall ip | CidrMatches(i, ip)
        ensures CidrMatches(o, ip)
      {
        BlockMatches(inner, Destination(Ip(ip), 0));
        BlockMatches(outer, Destination(Ip(ip), 0));
      }
    }
    if Within(i, o) {
      forall d | Matches(inner, d)
        ensures Matches(outer, d)
      {
        BlockMatches(inner, d);
        BlockMatches(outer, d);
      }
    }
  }

  lemma PortCoverIff(outer: RouteMatcher, inner: RouteMatcher)
    requires OnPorts(outer) && !Void(inner)
    ensures Covers(outer, inner) <==> CoverCheck(outer, inner)
  {
    WitnessMatches(inner, PortLow(inner), false);
    WitnessMatches(inner, PortHigh(inner), false);
    var low, high := Witness(inner, PortLow(inner), false), Witness(inner, PortHigh(inner), false);
    assert low.port == PortLow(inner) && high.port == PortHigh(inner);
    hide Witness;
  }

  /** For any two matchers, the check decides coverage over all destinations, both ways. */
  lemma CoverIff(outer: RouteMatcher, inner: RouteMatcher)
    ensures Covers(outer, inner) <==> CoverCheck(outer, inner)
  {
    hide CidrMatches, MaskIp, SuffixMatches, Contains;
    if Void(inner) {
    } else if OnPorts(outer) {
      PortCoverIff(outer, inner);
    } else if OnDomains(outer) && OnDomains(inner) {
      DomainCoverIff(outer, inner);
    } else if OnIps(outer) && OnIps(inner) {
      IpCoverIff(outer, inner);
    } else {
      WitnessMatches(inner, PortLow(inner), OnDomains(outer));
      assert !Matches(outer, Witness(inner, PortLow(inner), OnDomains(outer)));
    }
  }

  lemma MatchPort(m: RouteMatcher, d: Destination)
    requires Matches(m, d)
    ensures PortLow(m) <= d.port <= PortHigh(m)
  {
    hide CidrMatches, MaskIp, SuffixMatches, Contains;
  }

  lemma PortDisjointIff(a: RouteMatcher, b: RouteMatcher)
    requires !Void(a) && !Void(b) && OnPorts(a)
    ensures Disjoint(a, b) <==> PortHigh(a) < PortLow(b) || PortHigh(b) < PortLow(a)
  {
    var p := if PortLow(a) < PortLow(b) then PortLow(b) else PortLow(a);
    if PortHigh(a) < PortLow(b) || PortHigh(b) < PortLow(a) {
      forall d | Matches(a, d)
        ensures !Matches(b, d)
      {
        MatchPort(a, d);
        if Matches(b, d) { MatchPort(b, d); }
      }
    } else {
      WitnessMatches(b, p, false);
      assert Witness(b, p, false).port == p;
      assert Matches(a, Witness(b, p, false));
    }
  }

  lemma IpDisjointIff(a: RouteMatcher, b: RouteMatcher)
    requires OnIps(a) && OnIps(b)
    ensures Disjoint(a, b) <==> !CoverCheck(a, b) && !CoverCheck(b, a)
  {
    hide CidrMatches, MaskIp, Matches, BlockOf;
    var x, y := BlockOf(a), BlockOf(b);
    WithinIff(x, y);
    WithinIff(y, x);
    NestedOrApart(x, y);
    NetworkMatches(x);
    NetworkMatches(y);
    forall d
      ensures Matches(a, d) <==> d.target.Ip? && CidrMatches(x, d.target.ip)
      ensures Matches(b, d) <==> d.target.Ip? && CidrMatches(y, d.target.ip)
    {
      BlockMatches(a, d);
      BlockMatches(b, d);
    }
    assert Matches(a, Destination(Ip(x.network), 0)) && Matches(b, Destination(Ip(y.network), 0));
  }

  /** Two suffixes of one domain: the longer lies under the shorter. */
  lemma SuffixesMeet(a: bytes, b: bytes, actual: bytes)
    requires SuffixMatches(a, actual) && SuffixMatches(b, actual)
    requires |TrimStartDots(a)| <= |TrimStartDots(b)|
    ensures SuffixMatches(a, TrimStartDots(b))
  {
    var s, x, y := Lower(actual), Lower(TrimStartDots(a)), Lower(TrimStartDots(b));
    assert |x| <= |y|;
    hide Lower, TrimStartDots;
    UnderEnds(s, x);
    UnderEnds(s, y);
    if |x| == |y| {
      assert x == s[|s| - |x|..] == y;
    } else {
      DropTwice(s, |s| - |y|, |y| - |x| - 1);
    }
  }

  lemma UnderEnds(s: bytes, x: bytes)
    requires s == x || EndsWith(s, [46] + x)
    ensures EndsWith(s, x)
  {
    if s == x { assert s[0..] == s; } else { assert ([46] + x)[1..] == x; EndsWithTransitive(s, [46] + x, x); }
  }

  /** One domain that holds a keyword and matches another keyword or a suffix. */
  lemma Combined(a: RouteMatcher, b: RouteMatcher)
    requires a.DomainKeyword? && (b.DomainKeyword? || b.DomainSuffix?)
    ensures !Disjoint(a, b)
  {
    var e := if b.DomainKeyword? then b.keyword else [46] + TrimStartDots(b.suffix);
    var name := a.keyword + e;
    KeywordOccurs([], a.keyword, e);
    assert [] + a.keyword + e == name;
    if b.DomainKeyword? {
      KeywordOccurs(a.keyword, e, []);
      assert a.keyword + e + [] == name;
    } else {
      LowerAppend(a.keyword, e);
      LowerAppend([46], TrimStartDots(b.suffix));
      assert Lower([46]) == [46];
      assert Lower(name)[|a.keyword|..] == Lower(e);
    }
    hide Lower, Contains, TrimStartDots;
    assert Matches(a, Destination(Domain(name), 0)) && Matches(b, Destination(Domain(name), 0));
  }

  /** A domain that matches both decides coverage one way or the other. */
  lemma DomainMeet(a: RouteMatcher, b: RouteMatcher, actual: bytes)
    requires OnDomains(a) && OnDomains(b) && !Combinable(a, b)
    requires Matches(a, Destination(Domain(actual), 0)) && Matches(b, Destination(Domain(actual), 0))
    ensures CoverCheck(a, b) || CoverCheck(b, a)
  {
    if a.DomainExact? {
      if b.DomainSuffix? { SuffixOfEqual(b.suffix, actual, a.domain); }
    } else if b.DomainExact? {
      if a.DomainSuffix? { SuffixOfEqual(a.suffix, actual, b.domain); }
    } else if |TrimStartDots(a.suffix)| <= |TrimStartDots(b.suffix)| {
      SuffixesMeet(a.suffix, b.suffix, actual);
    } else {
      SuffixesMeet(b.suffix, a.suffix, actual);
    }
  }

  lemma DomainDisjointIff(a: RouteMatcher, b: RouteMatcher)
    requires OnDomains(a) && OnDomains(b)
    ensures Disjoint(a, b) <==> !Combinable(a, b) && !CoverCheck(a, b) && !CoverCheck(b, a)
  {
    if Combinable(a, b) {
      if a.DomainKeyword? { Combined(a, b); } else { Combined(b, a); }
    } else {
      SampleMatches(a, 0);
      SampleMatches(b, 0);
      DomainCoverIff(a, b);
      DomainCoverIff(b, a);
      hide CoverCheck, Matches;
      forall d | Matches(a, d) && Matches(b, d)
        ensures CoverCheck(a, b) || CoverCheck(b, a)
      {
        OnDomain(a, d);
        DomainIgnoresPort(a, d.target.name, d.port, 0);
        DomainIgnoresPort(b, d.target.name, d.port, 0);
        DomainMeet(a, b, d.target.name);
      }
    }
  }

  lemma OnDomain(m: RouteMatcher, d: Destination)
    requires OnDomains(m) && Matches(m, d)
    ensures d.target.Domain?
  {
  }

  /** For any two matchers, the check decides whether some destination matches both: when they may be swapped. */
  lemma DisjointIff(a: RouteMatcher, b: RouteMatcher)
    ensures Disjoint(a, b) <==> DisjointCheck(a, b)
  {
    hide CidrMatches, MaskIp, SuffixMatches, Contains, WithinCheck;
    if Void(a) || Void(b) {
    } else if OnPorts(a) {
      PortDisjointIff(a, b);
    } else if OnPorts(b) {
      PortDisjointIff(b, a);
    } else if OnDomains(a) && OnDomains(b) {
      DomainDisjointIff(a, b);
    } else if OnIps(a) && OnIps(b) {
      IpDisjointIff(a, b);
    }
  }
}
