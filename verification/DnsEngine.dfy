/** The caching resolver (crates/keli-net-core/src/dns.rs): TTL cache, local-resolution and family policies. */
module DnsEngine {
  import opened Wrappers
  import opened Bytes
  import opened Text
  import opened Net

  datatype LocalPolicy = AllowSystem | PreventPublicLeak
  datatype FamilyPolicy = DualStack | Ipv4Only | Ipv6Only

  datatype DnsError =
    | ResolveFailed(host: bytes, detail: bytes)
    | NoRecords(host: bytes)
    | LocalResolutionBlocked(host: bytes, policy: LocalPolicy)
    | AddressFamilyFiltered(host: bytes, family: FamilyPolicy)

  datatype ResolvedAddress = ResolvedAddress(ip: IpAddr, port: u16)

  type Answer = Result<seq<ResolvedAddress>, DnsError>

  /** The system resolver and `str::parse::<IpAddr>` are outside the model. */
  type Resolver = bytes -> Result<seq<IpAddr>, DnsError>
  type IpParser = bytes -> Option<IpAddr>

  const LOCALHOST: bytes := [108, 111, 99, 97, 108, 104, 111, 115, 116]
  const IPV4_LOCALHOST: IpAddr := V4(0x7f00_0001)
  const IPV6_LOCALHOST: IpAddr := V6(1)

  /** `trim_end_matches('.')`. */
  function TrimEndDots(host: bytes): bytes {
    if host != [] && host[|host| - 1] == 46 then TrimEndDots(host[..|host| - 1]) else host
  }

  /** `normalize_host`. */
  function NormalizeHost(host: bytes): bytes { Lower(TrimEndDots(host)) }

  predicate FamilyMatches(ip: IpAddr, family: FamilyPolicy) {
    match family
    case DualStack => true
    case Ipv4Only => ip.V4?
    case Ipv6Only => ip.V6?
  }

  function LocalhostIps(family: FamilyPolicy): seq<IpAddr> {
    match family
    case DualStack => [IPV4_LOCALHOST, IPV6_LOCALHOST]
    case Ipv4Only => [IPV4_LOCALHOST]
    case Ipv6Only => [IPV6_LOCALHOST]
  }

  /** The addresses the family policy lets through, in order. */
  function FilterFamily(ips: seq<IpAddr>, family: FamilyPolicy): seq<IpAddr> {
    if ips == [] then []
    else (if FamilyMatches(ips[0], family) then [ips[0]] else []) + FilterFamily(ips[1..], family)
  }

  function WithPort(ips: seq<IpAddr>, port: u16): (r: seq<ResolvedAddress>)
    ensures |r| == |ips|
    ensures forall i :: 0 <= i < |ips| ==> r[i] == ResolvedAddress(ips[i], port)
  {
    seq(|ips|, i requires 0 <= i < |ips| => ResolvedAddress(ips[i], port))
  }

  datatype CacheEntry = CacheEntry(ips: seq<IpAddr>, expiresAt: nat)

  /** The engine's fields apart from the resolver. */
  datatype EngineState = EngineState(
    ttl: nat, entries: map<bytes, CacheEntry>, policy: LocalPolicy, family: FamilyPolicy)

  /** `DnsCache::get`, which normalises its argument once more. */
  function CacheGet(s: EngineState, host: bytes, now: nat): Option<seq<IpAddr>> {
    var key := NormalizeHost(host);
    if key in s.entries && s.entries[key].expiresAt > now then Some(s.entries[key].ips) else None
  }

  /** `DnsCache::insert`. */
  function CacheInsert(s: EngineState, host: bytes, ips: seq<IpAddr>, now: nat): EngineState {
    s.(entries := s.entries[NormalizeHost(host) := CacheEntry(ips, now + s.ttl)])
  }

  /** What the policies make of a list of addresses. */
  function Deliver(host: bytes, ips: seq<IpAddr>, port: u16, family: FamilyPolicy): Answer {
    var kept := FilterFamily(ips, family);
    if kept == [] then Err(AddressFamilyFiltered(host, family)) else Ok(WithPort(kept, port))
  }

  /** One call of `resolve`: the new cache state and the answer. */
  function Resolve(parse: IpParser, s: EngineState, host: bytes, port: u16, resolver: Resolver, now: nat)
    : (EngineState, Answer)
  {
    var name := NormalizeHost(host);
    match parse(name)
    case Some(ip) =>
      if FamilyMatches(ip, s.family) then (s, Ok([ResolvedAddress(ip, port)]))
      else (s, Err(AddressFamilyFiltered(name, s.family)))
    case None =>
      if s.policy == PreventPublicLeak then
        if name == LOCALHOST then (s, Ok(WithPort(LocalhostIps(s.family), port)))
        else (s, Err(LocalResolutionBlocked(name, s.policy)))
      else match CacheGet(s, name, now)
        case Some(ips) => (s, Deliver(name, ips, port, s.family))
        case None =>
          match resolver(name)
          case Err(e) => (s, Err(e))
          case Ok(ips) =>
            if ips == [] then (s, Err(NoRecords(name)))
            else (CacheInsert(s, name, ips, now), Deliver(name, ips, port, s.family))
  }

  /** `DnsEngine` with its `DnsCache`. The resolver and the clock are read per call. */
  class Engine {
    const parse: IpParser
    const ttl: nat
    var entries: map<bytes, CacheEntry>
    const policy: LocalPolicy
    const family: FamilyPolicy

    function State(): EngineState
      reads this
    {
      EngineState(ttl, entries, policy, family)
    }

    constructor WithPolicies(parse: IpParser, ttl: nat, policy: LocalPolicy, family: FamilyPolicy)
      ensures this.parse == parse && State() == Fresh(ttl, policy, family)
    {
      this.parse, this.ttl, this.policy, this.family := parse, ttl, policy, family;
      entries := map[];
    }

    /** `DnsEngine::resolve`. */
    method ResolveHost(host: bytes, port: u16, resolver: Resolver, now: nat) returns (answer: Answer)
      modifies this
      ensures (State(), answer) == Resolve(parse, old(State()), host, port, resolver, now)
    {
      var name := NormalizeHost(host);
      var literal := parse(name);
      if literal.Some? {
        if !FamilyMatches(literal.value, family) { return Err(AddressFamilyFiltered(name, family)); }
        return Ok([ResolvedAddress(literal.value, port)]);
      }
      if policy == PreventPublicLeak {
        if name == LOCALHOST { return Ok(WithPort(LocalhostIps(family), port)); }
        return Err(LocalResolutionBlocked(name, policy));
      }
      var ips: seq<IpAddr>;
      var cached := CacheGet(State(), name, now);
      if cached.Some? {
        ips := cached.value;
      } else {
        var reply := resolver(name);
        if reply.Err? { return Err(reply.error); }
        ips := reply.value;
        if ips == [] { return Err(NoRecords(name)); }
        entries := entries[NormalizeHost(name) := CacheEntry(ips, now + ttl)];
      }
      ips := FilterFamily(ips, family);
      if ips == [] { return Err(AddressFamilyFiltered(name, family)); }
      answer := Ok(WithPort(ips, port));
    }
  }

  function Fresh(ttl: nat, policy: LocalPolicy, family: FamilyPolicy): EngineState {
    EngineState(ttl, map[], policy, family)
  }

  // ---------------------------------------------------------------------
  // Normal forms
  // ---------------------------------------------------------------------

  lemma {:induction false} TrimLower(host: bytes)
    requires TrimEndDots(host) == host
    ensures TrimEndDots(Lower(host)) == Lower(host)
  {
    TrimmedEnd(host);
    if host != [] { assert Lower(host)[|host| - 1] == LowerByte(host[|host| - 1]); }
  }

  lemma {:induction false} TrimmedEnd(host: bytes)
    ensures var t := TrimEndDots(host);
            (t == [] || t[|t| - 1] != 46) && |t| <= |host| && TrimEndDots(t) == t
    decreases |host|
  {
    if host != [] && host[|host| - 1] == 46 { TrimmedEnd(host[..|host| - 1]); }
  }

  /** Normalising twice is normalising once, so the cache keys used by get and insert agree. */
  lemma NormalizeIdempotent(host: bytes)
    ensures NormalizeHost(NormalizeHost(host)) == NormalizeHost(host)
  {
    TrimmedEnd(host);
    TrimLower(TrimEndDots(host));
    LowerIdempotent(TrimEndDots(host));
  }

  // ---------------------------------------------------------------------
  // Reference: resolution without a cache
  // ---------------------------------------------------------------------

  function Lookup(parse: IpParser, policy: LocalPolicy, family: FamilyPolicy, host: bytes, port: u16, resolver: Resolver)
    : Answer
  {
    var name := NormalizeHost(host);
    match parse(name)
    case Some(ip) =>
      if FamilyMatches(ip, family) then Ok([ResolvedAddress(ip, port)]) else Err(AddressFamilyFiltered(name, family))
    case None =>
      if policy == PreventPublicLeak then
        if name == LOCALHOST then Ok(WithPort(LocalhostIps(family), port))
        else Err(LocalResolutionBlocked(name, policy))
      else match resolver(name)
        case Err(e) => Err(e)
        case Ok(ips) => if ips == [] then Err(NoRecords(name)) else Deliver(name, ips, port, family)
  }

  // ---------------------------------------------------------------------
  // Runs
  // ---------------------------------------------------------------------

  /** A call with the resolver and the clock as they are at that moment. */
  datatype Call = Call(host: bytes, port: u16, resolver: Resolver, now: nat)

  function StateAfter(parse: IpParser, s: EngineState, calls: seq<Call>): EngineState {
    if calls == [] then s
    else
      var c := calls[|calls| - 1];
      Resolve(parse, StateAfter(parse, s, calls[..|calls| - 1]), c.host, c.port, c.resolver, c.now).0
  }

  /** The answer of call `i` of a run. */
  function AnswerAt(parse: IpParser, s: EngineState, calls: seq<Call>, i: nat): Answer
    requires i < |calls|
  {
    var c := calls[i];
    Resolve(parse, StateAfter(parse, s, calls[..i]), c.host, c.port, c.resolver, c.now).1
  }

  ghost predicate Monotone(calls: seq<Call>) {
    forall i, j :: 0 <= i <= j < |calls| ==> calls[i].now <= calls[j].now
  }

  /** The cache entry `e` under `key` was written by call `j` from the resolver's reply at that time. */
  ghost predicate WrittenBy(ttl: nat, key: bytes, e: CacheEntry, c: Call) {
    && NormalizeHost(c.host) == key
    && c.resolver(key) == Ok(e.ips) && e.ips != []
    && e.expiresAt == c.now + ttl
  }

  ghost predicate Written(ttl: nat, entries: map<bytes, CacheEntry>, calls: seq<Call>) {
    forall key :: key in entries ==> exists j :: 0 <= j < |calls| && WrittenBy(ttl, key, entries[key], calls[j])
  }

  lemma ResolveKeepsConfig(parse: IpParser, s: EngineState, host: bytes, port: u16, resolver: Resolver, now: nat)
    ensures var t := Resolve(parse, s, host, port, resolver, now).0;
            t == s.(entries := t.entries)
  {
  }

  /** A call leaves the cache alone or stores what the resolver just said under its own host. */
  lemma ResolveWrites(parse: IpParser, s: EngineState, c: Call, key: bytes)
    ensures var t := Resolve(parse, s, c.host, c.port, c.resolver, c.now).0;
            key in t.entries ==> (key in s.entries && t.entries[key] == s.entries[key])
                                 || WrittenBy(s.ttl, key, t.entries[key], c)
  {
    NormalizeIdempotent(c.host);
    hide NormalizeHost, Deliver;
  }

  lemma {:induction false} RunWrites(parse: IpParser, s: EngineState, calls: seq<Call>)
    requires s.entries == map[]
    ensures var t := StateAfter(parse, s, calls);
            t == s.(entries := t.entries) && Written(s.ttl, t.entries, calls)
  {
    if calls != [] {
      var n := |calls| - 1;
      var c, before := calls[n], StateAfter(parse, s, calls[..n]);
      RunWrites(parse, s, calls[..n]);
      ResolveKeepsConfig(parse, before, c.host, c.port, c.resolver, c.now);
      hide Resolve, WrittenBy;
      var t := Resolve(parse, before, c.host, c.port, c.resolver, c.now).0;
      assert t == StateAfter(parse, s, calls);
      forall key | key in t.entries
        ensures exists j :: 0 <= j < |calls| && WrittenBy(s.ttl, key, t.entries[key], calls[j])
      {
        ResolveWrites(parse, before, c, key);
        if key in before.entries && t.entries[key] == before.entries[key] {
          var j :| 0 <= j < n && WrittenBy(s.ttl, key, before.entries[key], calls[..n][j]);
          assert calls[..n][j] == calls[j];
        } else {
          assert calls[n] == c;
        }
      }
    }
  }

  /** Either the current resolver is consulted, or an unexpired entry for the same name is used. */
  lemma AnswerSource(parse: IpParser, s: EngineState, c: Call)
    ensures var a := Resolve(parse, s, c.host, c.port, c.resolver, c.now).1;
            var key := NormalizeHost(c.host);
            || a == Lookup(parse, s.policy, s.family, c.host, c.port, c.resolver)
            || (parse(key).None? && s.policy == AllowSystem
                && key in s.entries && s.entries[key].expiresAt > c.now
                && a == Deliver(key, s.entries[key].ips, c.port, s.family))
  {
    NormalizeIdempotent(c.host);
    hide NormalizeHost, Deliver;
  }

  lemma CachedReply(parse: IpParser, s: EngineState, c: Call, d: Call, key: bytes)
    requires key == NormalizeHost(c.host) && parse(key).None? && s.policy == AllowSystem
    requires key in s.entries && WrittenBy(s.ttl, key, s.entries[key], d)
    ensures Deliver(key, s.entries[key].ips, c.port, s.family)
            == Lookup(parse, s.policy, s.family, c.host, c.port, d.resolver)
  {
    hide NormalizeHost, Deliver;
  }

  /** Call `i` may be answered from call `j`: the same host, and less than one TTL earlier or the call itself. */
  ghost predicate FreshSource(ttl: nat, calls: seq<Call>, i: nat, j: nat)
    requires i < |calls|
  {
    && j <= i
    && NormalizeHost(calls[j].host) == NormalizeHost(calls[i].host)
    && (j == i || calls[i].now < calls[j].now + ttl)
  }

  /** Call `i` of the run is answered as an uncached engine would have answered it at call `j`. */
  ghost predicate AnsweredFrom(parse: IpParser, s: EngineState, calls: seq<Call>, i: nat, j: nat)
    requires i < |calls|
  {
    && FreshSource(s.ttl, calls, i, j)
    && AnswerAt(parse, s, calls, i)
       == Lookup(parse, s.policy, s.family, calls[i].host, calls[i].port, calls[j].resolver)
  }

  /**
   * With a resolver that may change from call to call, every answer or error is the one an uncached
   * engine would have given for that host less than one TTL ago.
   */
  lemma CachedAnswerIsRecent(parse: IpParser, s0: EngineState, calls: seq<Call>, i: nat) returns (j: nat)
    requires s0.entries == map[] && i < |calls|
    ensures AnsweredFrom(parse, s0, calls, i, j)
  {
    var c, s := calls[i], StateAfter(parse, s0, calls[..i]);
    RunWrites(parse, s0, calls[..i]);
    AnswerSource(parse, s, c);
    hide Resolve, Lookup, NormalizeHost, Deliver, StateAfter;
    var key := NormalizeHost(c.host);
    if AnswerAt(parse, s0, calls, i) == Lookup(parse, s0.policy, s0.family, c.host, c.port, c.resolver) {
      j := i;
    } else {
      var k :| 0 <= k < |calls[..i]| && WrittenBy(s0.ttl, key, s.entries[key], calls[..i][k]);
      assert calls[..i][k] == calls[k];
      CachedReply(parse, s, c, calls[k], key);
      j := k;
    }
  }

  /** With a time-independent resolver the cache cannot be observed: every result and error is the uncached one. */
  lemma CacheIsTransparent(parse: IpParser, s0: EngineState, resolver: Resolver, calls: seq<Call>, i: nat)
    requires s0.entries == map[]
    requires i < |calls| && forall k :: 0 <= k < |calls| ==> calls[k].resolver == resolver
    ensures AnswerAt(parse, s0, calls, i)
            == Lookup(parse, s0.policy, s0.family, calls[i].host, calls[i].port, resolver)
  {
    hide Lookup, AnswerAt, NormalizeHost;
    var j := CachedAnswerIsRecent(parse, s0, calls, i);
  }

  /** A reply is served again, without asking, for exactly one TTL after it was obtained. */
  lemma CacheHit(parse: IpParser, s: EngineState, first: Call, second: Call)
    requires s.policy == AllowSystem && parse(NormalizeHost(first.host)).None?
    requires NormalizeHost(second.host) == NormalizeHost(first.host)
    requires CacheGet(s, NormalizeHost(first.host), first.now).None?
    requires first.resolver(NormalizeHost(first.host)).Ok? && first.resolver(NormalizeHost(first.host)).value != []
    ensures var name := NormalizeHost(first.host);
            var t := Resolve(parse, s, first.host, first.port, first.resolver, first.now).0;
            && (CacheGet(t, name, second.now).Some? <==> second.now < first.now + s.ttl)
            && (second.now < first.now + s.ttl ==>
                  Resolve(parse, t, second.host, second.port, second.resolver, second.now)
                  == (t, Deliver(name, first.resolver(name).value, second.port, s.family)))
  {
    NormalizeIdempotent(first.host);
    hide NormalizeHost, Deliver;
  }

  /** When the clock does not run backwards, the reply behind an answer is between 0 and one TTL old. */
  lemma AnswerAge(parse: IpParser, s0: EngineState, calls: seq<Call>, i: nat)
    requires s0.entries == map[] && Monotone(calls) && i < |calls|
    ensures exists j :: && 0 <= j <= i && AnsweredFrom(parse, s0, calls, i, j)
                        && calls[j].now <= calls[i].now && (j == i || calls[i].now - calls[j].now < s0.ttl)
  {
    hide Lookup, AnswerAt, NormalizeHost;
    var j := CachedAnswerIsRecent(parse, s0, calls, i);
    assert AnsweredFrom(parse, s0, calls, i, j);
  }

  lemma {:induction false} FilterFamilyMeaning(ips: seq<IpAddr>, family: FamilyPolicy)
    ensures forall i :: 0 <= i < |FilterFamily(ips, family)| ==>
              FilterFamily(ips, family)[i] in ips && FamilyMatches(FilterFamily(ips, family)[i], family)
    ensures forall ip :: ip in ips && FamilyMatches(ip, family) ==> ip in FilterFamily(ips, family)
  {
    if ips != [] {
      FilterFamilyMeaning(ips[1..], family);
      var rest := FilterFamily(ips[1..], family);
      var all := FilterFamily(ips, family);
      forall i | 0 <= i < |all|
        ensures all[i] in ips && FamilyMatches(all[i], family)
      {
        if FamilyMatches(ips[0], family) && i > 0 { assert all[i] == rest[i - 1]; }
      }
      forall ip | ip in ips && FamilyMatches(ip, family)
        ensures ip in all
      {
        if ip == ips[0] { assert all[0] == ip; } else { assert ip in ips[1..]; }
      }
    }
  }

  /** An answer is never empty, keeps the asked port, and holds only addresses of the permitted family. */
  lemma AnswersRespectFamily(parse: IpParser, s: EngineState, c: Call)
    ensures var a := Resolve(parse, s, c.host, c.port, c.resolver, c.now).1;
            a.Ok? ==> a.value != []
                      && forall k :: 0 <= k < |a.value| ==>
                           a.value[k].port == c.port && FamilyMatches(a.value[k].ip, s.family)
  {
    var (t, a) := Resolve(parse, s, c.host, c.port, c.resolver, c.now);
    var name := NormalizeHost(c.host);
    hide NormalizeHost, FilterFamily;
    var cached := CacheGet(s, name, c.now);
    if cached.Some? {
      FilterFamilyMeaning(cached.value, s.family);
    } else if c.resolver(name).Ok? {
      FilterFamilyMeaning(c.resolver(name).value, s.family);
    }
  }

  /** The same questions, put at other times to other resolvers. */
  ghost predicate SameQuestions(a: seq<Call>, b: seq<Call>) {
    |a| == |b| && forall i :: 0 <= i < |a| ==> a[i].host == b[i].host && a[i].port == b[i].port
  }

  /**
   * Under PreventPublicLeak no run ever consults the resolver or touches the cache: the cache stays
   * as it was, the answers do not depend on the resolvers or the clock, and only address literals
   * and localhost resolve.
   */
  lemma {:induction false} NoPublicLeak(parse: IpParser, s: EngineState, calls: seq<Call>, others: seq<Call>, i: nat)
    requires s.policy == PreventPublicLeak && SameQuestions(calls, others) && i < |calls|
    ensures StateAfter(parse, s, calls) == s
    ensures AnswerAt(parse, s, calls, i) == AnswerAt(parse, s, others, i)
    ensures AnswerAt(parse, s, calls, i).Ok?
            ==> NormalizeHost(calls[i].host) == LOCALHOST || parse(NormalizeHost(calls[i].host)).Some?
  {
    hide NormalizeHost;
    LeakProofState(parse, s, calls);
    LeakProofState(parse, s, calls[..i]);
    LeakProofState(parse, s, others[..i]);
  }

  lemma {:induction false} LeakProofState(parse: IpParser, s: EngineState, calls: seq<Call>)
    requires s.policy == PreventPublicLeak
    ensures StateAfter(parse, s, calls) == s
  {
    if calls != [] { LeakProofState(parse, s, calls[..|calls| - 1]); }
  }

  // ---------------------------------------------------------------------
  // What the uncached reference answers, by addresses
  // ---------------------------------------------------------------------

  /** Exactly the dots at the end go, and letters become lower case. */
  lemma {:induction false} NormalizeHostIs(host: bytes, n: nat)
    requires n <= |host| && (forall k :: n <= k < |host| ==> host[k] == 46) && (n > 0 ==> host[n - 1] != 46)
    ensures TrimEndDots(host) == host[..n] && NormalizeHost(host) == Lower(host[..n])
    decreases |host|
  {
    if n < |host| {
      NormalizeHostIs(host[..|host| - 1], n);
      assert host[..|host| - 1][..n] == host[..n];
    } else {
      assert host[..n] == host;
    }
  }

  /** The family filter keeps the list for both families, and otherwise the one family in order. */
  lemma {:induction false} FilterFamilyIs(ips: seq<IpAddr>, family: FamilyPolicy)
    ensures var kept := FilterFamily(ips, family);
            && (family == DualStack ==> kept == ips)
            && V4Values(kept) == (if family == Ipv6Only then [] else V4Values(ips))
            && V6Values(kept) == (if family == Ipv4Only then [] else V6Values(ips))
  {
    if ips != [] {
      var ip, rest := ips[0], FilterFamily(ips[1..], family);
      FilterFamilyIs(ips[1..], family);
      hide V4Values, V6Values;
      ValuesCons(ip, ips[1..]);
      ValuesCons(ip, rest);
      assert [ip] + ips[1..] == ips && [] + rest == rest;
    }
  }

  function Ips(addresses: seq<ResolvedAddress>): (ips: seq<IpAddr>)
    ensures |ips| == |addresses| && forall i :: 0 <= i < |ips| ==> ips[i] == addresses[i].ip
  {
    seq(|addresses|, i requires 0 <= i < |addresses| => addresses[i].ip)
  }

  predicate AtPort(addresses: seq<ResolvedAddress>, port: u16) {
    forall i :: 0 <= i < |addresses| ==> addresses[i].port == port
  }

  predicate Permits(family: FamilyPolicy, ip: IpAddr) {
    family == DualStack || (family == Ipv4Only && ip.V4?) || (family == Ipv6Only && ip.V6?)
  }

  /** An address literal is answered with itself, or refused for its family; nothing else is asked. */
  lemma LiteralAnswer(parse: IpParser, policy: LocalPolicy, family: FamilyPolicy, host: bytes, port: u16, resolver: Resolver)
    requires parse(NormalizeHost(host)).Some?
    ensures var ip := parse(NormalizeHost(host)).value;
            Lookup(parse, policy, family, host, port, resolver)
            == if Permits(family, ip) then Ok([ResolvedAddress(ip, port)])
               else Err(AddressFamilyFiltered(NormalizeHost(host), family))
  {
  }

  /** With leaks prevented, localhost is 127.0.0.1 and ::1 as far as permitted, and other names are blocked. */
  lemma LeakProofAnswer(parse: IpParser, family: FamilyPolicy, host: bytes, port: u16, resolver: Resolver)
    requires parse(NormalizeHost(host)).None?
    ensures var answer := Lookup(parse, PreventPublicLeak, family, host, port, resolver);
            if NormalizeHost(host) == [108, 111, 99, 97, 108, 104, 111, 115, 116] then
              && answer.Ok? && AtPort(answer.value, port)
              && Ips(answer.value) == (if family == Ipv6Only then [] else [V4(0x7f00_0001)])
                                      + (if family == Ipv4Only then [] else [V6(1)])
            else answer == Err(LocalResolutionBlocked(NormalizeHost(host), PreventPublicLeak))
  {
    hide NormalizeHost;
  }

  /** A resolver's reply is passed on: its error, no records, nothing of the family, or the family in order. */
  lemma ResolverAnswer(parse: IpParser, family: FamilyPolicy, host: bytes, port: u16, resolver: Resolver)
    requires parse(NormalizeHost(host)).None?
    ensures var name := NormalizeHost(host);
            var answer := Lookup(parse, AllowSystem, family, host, port, resolver);
            if resolver(name).Err? then answer == Err(resolver(name).error)
            else
              var ips := resolver(name).value;
              if ips == [] then answer == Err(NoRecords(name))
              else if (family == Ipv4Only && V4Values(ips) == []) || (family == Ipv6Only && V6Values(ips) == []) then
                answer == Err(AddressFamilyFiltered(name, family))
              else
                && answer.Ok? && AtPort(answer.value, port)
                && (family == DualStack ==> Ips(answer.value) == ips)
                && V4Values(Ips(answer.value)) == (if family == Ipv6Only then [] else V4Values(ips))
                && V6Values(Ips(answer.value)) == (if family == Ipv4Only then [] else V6Values(ips))
  {
    var name := NormalizeHost(host);
    if resolver(name).Ok? {
      var kept := FilterFamily(resolver(name).value, family);
      FilterFamilyIs(resolver(name).value, family);
      ValuesCount(kept);
      assert Ips(WithPort(kept, port)) == kept;
      hide FilterFamily, V4Values, V6Values, NormalizeHost;
    }
  }
}
