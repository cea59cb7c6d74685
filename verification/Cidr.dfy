/** CIDR blocks of the router (crates/keli-net-core/src/lib.rs): prefix masks over 32 and 128 bits. */
module Cidr {
  import opened Wrappers
  import opened Arith
  import opened Bitwise
  import opened Bytes
  import opened Net

  type u8 = n: int | 0 <= n < 256

  datatype RouteIpCidr = RouteIpCidr(network: IpAddr, prefixLen: u8)

  datatype CidrError = InvalidPrefixLength(network: IpAddr, prefixLen: u8)

  function Width(ip: IpAddr): nat { if ip.V4? then 32 else 128 }

  function Bits(ip: IpAddr): nat { if ip.V4? then ip.v4 else ip.v6 }

  /** `a << k` in `w` bits. */
  function ShiftLeft(a: nat, k: nat, w: nat): nat { Rem(a * Pow2(k), Pow2(w)) }

  /** `ipv4_prefix_mask` and `ipv6_prefix_mask`: `MAX << (w - p)`, and 0 for an empty prefix. */
  function PrefixMask(w: nat, p: nat): nat
    requires p <= w
  {
    if p == 0 then 0 else ShiftLeft(Pow2(w) - 1, w - p, w)
  }

  lemma Pow2Widths(ip: IpAddr)
    ensures Pow2(Width(ip)) == if ip.V4? then 0x1_0000_0000 else 0x1_0000_0000_0000_0000_0000_0000_0000_0000
    ensures Bits(ip) < Pow2(Width(ip))
  {
    hide Pow2;
    Pow2Words();
    Pow2Add(64, 64);
  }

  /** `mask_ip`. */
  function MaskIp(ip: IpAddr, p: nat): IpAddr
    requires p <= Width(ip)
  {
    Pow2Widths(ip);
    AndBelow(Bits(ip), PrefixMask(Width(ip), p));
    if ip.V4? then V4(And(ip.v4, PrefixMask(32, p))) else V6(And(ip.v6, PrefixMask(128, p)))
  }

  lemma {:induction false} AndBelow(a: nat, b: nat)
    ensures And(a, b) <= a
    decreases a
  {
    if a != 0 && b != 0 { AndBelow(a / 2, b / 2); }
  }

  /** `RouteIpCidr::new`. */
  function NewCidr(network: IpAddr, prefixLen: u8): Result<RouteIpCidr, CidrError> {
    if prefixLen > Width(network) then Err(InvalidPrefixLength(network, prefixLen))
    else Ok(RouteIpCidr(MaskIp(network, prefixLen), prefixLen))
  }

  /** Blocks come from `RouteIpCidr::new`; its fields are private. */
  predicate Valid(c: RouteIpCidr) {
    c.prefixLen <= Width(c.network) && MaskIp(c.network, c.prefixLen) == c.network
  }

  /** `RouteIpCidr::matches`. */
  predicate CidrMatches(c: RouteIpCidr, ip: IpAddr)
    requires c.prefixLen <= Width(c.network)
  {
    match (c.network, ip)
    case (V4(network), V4(v)) => network == And(v, PrefixMask(32, c.prefixLen))
    case (V6(network), V6(v)) => network == And(v, PrefixMask(128, c.prefixLen))
    case _ => false
  }

  // ---------------------------------------------------------------------
  // What the masks compute
  // ---------------------------------------------------------------------

  lemma {:induction false} AndOnes(x: nat, w: nat)
    requires x < Pow2(w)
    ensures And(x, Pow2(w) - 1) == x
    decreases w
  {
    if x != 0 {
      assert Pow2(w) == 2 * Pow2(w - 1);
      assert (Pow2(w) - 1) / 2 == Pow2(w - 1) - 1;
      AndOnes(x / 2, w - 1);
    }
  }

  /** Clearing the low `k` bits. */
  lemma {:induction false} AndHighBits(x: nat, w: nat, k: nat)
    requires x < Pow2(w) && k <= w
    ensures Pow2(k) <= Pow2(w)
    ensures And(x, Pow2(w) - Pow2(k)) == x - Rem(x, Pow2(k))
    decreases k
  {
    hide Pow2, Rem, And;
    Pow2Monotone(k, w);
    if k == 0 {
      Pow2Zero();
      AndOnes(x, w);
      RemOne(x);
    } else if k == w {
      AndZero(x);
      QuotRemUnique(x, Pow2(w), 0, x);
    } else {
      Pow2Step(w);
      Pow2Step(k);
      AndHighBits(x / 2, w - 1, k - 1);
      AndHighStep(x, Pow2(w - 1), Pow2(k - 1));
    }
  }

  lemma AndZero(x: nat)
    ensures And(x, 0) == 0
  {
  }

  /** From half of `x` and half of the mask to the whole. */
  lemma AndHighStep(x: nat, top: nat, m: nat)
    requires 0 < m <= top && And(x / 2, top - m) == x / 2 - Rem(x / 2, m)
    ensures And(x, 2 * top - 2 * m) == x - Rem(x, 2 * m)
  {
    hide Rem, And;
    RemDouble(x, m);
    AndEven(x, top - m);
  }

  /** The mask of a `p`-bit prefix has its top `p` of `w` bits set. */
  lemma MaskValue(w: nat, p: nat)
    requires p <= w
    ensures Pow2(w - p) <= Pow2(w) && PrefixMask(w, p) == Pow2(w) - Pow2(w - p)
  {
    var k := w - p;
    Pow2Monotone(k, w);
    if p > 0 {
      var m, n := Pow2(w), Pow2(k);
      Pow2Add(p, k);
      hide Pow2, Rem;
      MulDistributes(m, 1, n);
      MulDistributes(n, 1, m);
      QuotRemUnique((m - 1) * n, m, n - 1, m - n);
    }
  }

  /** The top `p` bits of an address. */
  function TopBits(ip: IpAddr, p: nat): nat
    requires p <= Width(ip)
  {
    Quot(Bits(ip), Pow2(Width(ip) - p))
  }

  /** The AND with a prefix mask keeps the top bits and clears the rest. */
  lemma MaskedBits(ip: IpAddr, p: nat)
    requires p <= Width(ip)
    ensures And(Bits(ip), PrefixMask(Width(ip), p)) == TopBits(ip, p) * Pow2(Width(ip) - p)
    ensures MaskIp(ip, p).V4? == ip.V4? && Bits(MaskIp(ip, p)) == TopBits(ip, p) * Pow2(Width(ip) - p)
  {
    var w := Width(ip);
    Pow2Widths(ip);
    hide Pow2, And, PrefixMask, Quot, Rem;
    MaskValue(w, p);
    AndHighBits(Bits(ip), w, w - p);
    QuotRem(Bits(ip), Pow2(w - p));
  }

  /** A block matches an address exactly when both have the same family and the same top bits. */
  lemma MatchesTopBits(c: RouteIpCidr, ip: IpAddr)
    requires Valid(c)
    ensures CidrMatches(c, ip)
            <==> ip.V4? == c.network.V4? && TopBits(ip, c.prefixLen) == TopBits(c.network, c.prefixLen)
  {
    hide Pow2, And, PrefixMask, Quot;
    MaskedBits(c.network, c.prefixLen);
    if ip.V4? == c.network.V4? {
      var m := Pow2(Width(ip) - c.prefixLen);
      MaskedBits(ip, c.prefixLen);
      hide TopBits, MaskIp;
      MulCancel(TopBits(ip, c.prefixLen), TopBits(c.network, c.prefixLen), m);
    }
  }

  /**
   * `RouteIpCidr::new(network, p)` gives a block that matches an address exactly when the address
   * agrees with the original network on its top p bits, for every prefix length including 0.
   */
  lemma NewCidrMatches(network: IpAddr, p: u8, ip: IpAddr)
    ensures NewCidr(network, p).Ok? <==> p <= if network.V4? then 32 else 128
    ensures NewCidr(network, p).Err? ==> NewCidr(network, p).error == InvalidPrefixLength(network, p)
    ensures p <= Width(network) ==>
              var c := NewCidr(network, p).value;
              && Valid(c)
              && (CidrMatches(c, ip) <==> ip.V4? == network.V4? && TopBits(ip, p) == TopBits(network, p))
  {
    if p <= Width(network) {
      var c := NewCidr(network, p).value;
      NewCidrValid(network, p);
      MatchesTopBits(c, ip);
    }
  }

  lemma NewCidrValid(network: IpAddr, p: u8)
    requires p <= Width(network)
    ensures var c := NewCidr(network, p).value;
            Valid(c) && c.network.V4? == network.V4? && TopBits(c.network, p) == TopBits(network, p)
  {
    hide Pow2, And, PrefixMask, Quot, Rem;
    var masked, m := MaskIp(network, p), Pow2(Width(network) - p);
    MaskedBits(network, p);
    MaskedBits(masked, p);
    QuotRemUnique(Bits(masked), m, TopBits(network, p), 0);
  }

  /** The same as an interval: the block is the aligned run of 2^(w - p) addresses from its network on. */
  lemma MatchesInterval(c: RouteIpCidr, ip: IpAddr)
    requires Valid(c)
    ensures var size := Pow2(Width(c.network) - c.prefixLen);
            && Rem(Bits(c.network), size) == 0
            && (CidrMatches(c, ip)
                <==> ip.V4? == c.network.V4? && Bits(c.network) <= Bits(ip) < Bits(c.network) + size)
  {
    MatchesTopBits(c, ip);
    var size := Pow2(Width(c.network) - c.prefixLen);
    hide Pow2, And, PrefixMask, CidrMatches, Quot, Rem;
    MaskedBits(c.network, c.prefixLen);
    QuotRemUnique(Bits(c.network), size, TopBits(c.network, c.prefixLen), 0);
    if ip.V4? == c.network.V4? {
      QuotIff(Bits(ip), TopBits(c.network, c.prefixLen), size);
    }
  }

  // ---------------------------------------------------------------------
  // Nesting
  // ---------------------------------------------------------------------

  /** Shorter prefixes are determined by longer ones. */
  lemma TopBitsShorten(a: IpAddr, b: IpAddr, p: nat, longer: nat)
    requires a.V4? == b.V4? && p <= longer <= Width(a) && TopBits(a, longer) == TopBits(b, longer)
    ensures TopBits(a, p) == TopBits(b, p)
  {
    var w := Width(a);
    Pow2Add(w - longer, longer - p);
    hide Pow2, Quot;
    QuotTwice(Bits(a), Pow2(w - longer), Pow2(longer - p));
    QuotTwice(Bits(b), Pow2(w - longer), Pow2(longer - p));
  }

  ghost predicate Within(inner: RouteIpCidr, outer: RouteIpCidr)
    requires Valid(inner) && Valid(outer)
  {
    forall ip :: CidrMatches(inner, ip) ==> CidrMatches(outer, ip)
  }

  ghost predicate Apart(a: RouteIpCidr, b: RouteIpCidr)
    requires Valid(a) && Valid(b)
  {
    forall ip :: !(CidrMatches(a, ip) && CidrMatches(b, ip))
  }

  /** Any two blocks are nested or disjoint: with p <= q they are nested if they share one address. */
  lemma NestedOrApart(a: RouteIpCidr, b: RouteIpCidr)
    requires Valid(a) && Valid(b)
    ensures Within(a, b) || Within(b, a) || Apart(a, b)
  {
    hide Pow2, And, PrefixMask, CidrMatches, MaskIp;
    if !Apart(a, b) {
      var shared :| CidrMatches(a, shared) && CidrMatches(b, shared);
      if a.prefixLen <= b.prefixLen { SharedNests(a, b, shared); } else { SharedNests(b, a, shared); }
    }
  }

  lemma SharedNests(outer: RouteIpCidr, inner: RouteIpCidr, shared: IpAddr)
    requires Valid(outer) && Valid(inner) && outer.prefixLen <= inner.prefixLen
    requires CidrMatches(outer, shared) && CidrMatches(inner, shared)
    ensures Within(inner, outer)
  {
    hide Pow2, And, PrefixMask, CidrMatches, MaskIp, TopBits;
    MatchesTopBits(outer, shared);
    MatchesTopBits(inner, shared);
    forall ip | CidrMatches(inner, ip)
      ensures CidrMatches(outer, ip)
    {
      MatchesTopBits(inner, ip);
      MatchesTopBits(outer, ip);
      TopBitsShorten(ip, shared, outer.prefixLen, inner.prefixLen);
    }
  }

  /** A check a caller can make: one block lies within another exactly when this holds. */
  predicate WithinCheck(inner: RouteIpCidr, outer: RouteIpCidr)
    requires Valid(inner) && Valid(outer)
  {
    outer.prefixLen <= inner.prefixLen && CidrMatches(outer, inner.network)
  }

  lemma WithinIff(inner: RouteIpCidr, outer: RouteIpCidr)
    requires Valid(inner) && Valid(outer)
    ensures Within(inner, outer) <==> WithinCheck(inner, outer)
  {
    hide Pow2, And, PrefixMask, CidrMatches, MaskIp, TopBits;
    NetworkMatches(inner);
    if WithinCheck(inner, outer) {
      SharedNests(outer, inner, inner.network);
    }
    if Within(inner, outer) && outer.prefixLen > inner.prefixLen {
      EscapesNarrower(inner, outer);
    }
  }

  lemma NetworkMatches(c: RouteIpCidr)
    requires Valid(c)
    ensures CidrMatches(c, c.network)
  {
    hide Pow2, And, PrefixMask, CidrMatches, MaskIp, TopBits;
    MatchesTopBits(c, c.network);
  }

  /** A wider block always holds an address outside a narrower one. */
  lemma EscapesNarrower(wide: RouteIpCidr, narrow: RouteIpCidr)
    requires Valid(wide) && Valid(narrow) && wide.prefixLen < narrow.prefixLen
    ensures !Within(wide, narrow)
  {
    hide Pow2, And, PrefixMask, CidrMatches, MaskIp, TopBits;
    NetworkMatches(wide);
    if wide.network.V4? == narrow.network.V4? {
      var w := Width(wide.network);
      var size := Pow2(w - narrow.prefixLen);
      SmallerBlock(w, wide.prefixLen, narrow.prefixLen);
      var first, other := wide.network, Offset(wide, size);
      MatchesInterval(wide, other);
      MatchesInterval(narrow, other);
      MatchesInterval(narrow, first);
      hide *;
    } else {
      MatchesTopBits(narrow, wide.network);
    }
  }

  lemma SmallerBlock(w: nat, p: nat, q: nat)
    requires p < q <= w
    ensures Pow2(w - q) < Pow2(w - p)
  {
    Pow2Step(w - p);
    hide Pow2;
    Pow2Monotone(w - q, w - p - 1);
  }

  /** The address `n` places into a block. */
  function Offset(c: RouteIpCidr, n: nat): (ip: IpAddr)
    requires Valid(c) && n < Pow2(Width(c.network) - c.prefixLen)
    ensures ip.V4? == c.network.V4? && Bits(ip) == Bits(c.network) + n
  {
    BlockFits(c);
    Pow2Widths(c.network);
    if c.network.V4? then V4(c.network.v4 + n) else V6(c.network.v6 + n)
  }

  /** A block does not run past the top of the address space. */
  lemma BlockFits(c: RouteIpCidr)
    requires Valid(c)
    ensures Bits(c.network) + Pow2(Width(c.network) - c.prefixLen) <= Pow2(Width(c.network))
  {
    var w, p := Width(c.network), c.prefixLen;
    MaskedBits(c.network, p);
    Pow2Widths(c.network);
    Pow2Add(p, w - p);
    hide *;
    RoomForOneMore(TopBits(c.network, p), Pow2(w - p), Pow2(p));
  }

  /** The block of a single address. */
  function Single(ip: IpAddr): RouteIpCidr { RouteIpCidr(ip, Width(ip)) }

  lemma SingleValid(a: IpAddr)
    ensures Valid(Single(a))
  {
    MaskedBits(a, Width(a));
    Pow2Zero();
    QuotRem(Bits(a), 1);
    RemOne(Bits(a));
    hide Pow2, And, PrefixMask, MaskIp;
  }

  lemma SingleMatches(a: IpAddr, ip: IpAddr)
    ensures Valid(Single(a)) && (CidrMatches(Single(a), ip) <==> ip == a)
  {
    SingleValid(a);
    Pow2Zero();
    hide Pow2, And, PrefixMask, MaskIp, CidrMatches;
    MatchesInterval(Single(a), ip);
  }
}
