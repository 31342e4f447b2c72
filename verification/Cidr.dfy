/** IPv4 addresses and prefixes (section 3.1 of RFC 4632), and the address arithmetic of
    alloc.go: network masking, containment, overlap and deviceIP. */
module Cidr {
  import opened Text

  type Addr = a: nat | a < 0x1_0000_0000
  type Len = l: nat | l <= 32

  /** a without its k low bits. */
  function Shift(a: nat, k: nat): nat {
    if k == 0 then a else Shift(a / 2, k - 1)
  }

  /** a with its k low bits cleared. */
  function Mask(a: nat, k: nat): (m: nat)
    ensures m <= a
  {
    if k == 0 then a else 2 * Mask(a / 2, k - 1)
  }

  function Pow2(k: nat): (p: nat)
    ensures p > 0
  {
    if k == 0 then 1 else 2 * Pow2(k - 1)
  }

  datatype Prefix = Prefix(net: Addr, len: Len)

  /** What net.ParseCIDR returns as the network of address/len. */
  function Network(a: Addr, len: Len): Prefix {
    Prefix(Mask(a, 32 - len), len)
  }

  /** IPNet.Contains: address and network agree under the mask. */
  predicate Contains(p: Prefix, a: Addr) {
    Mask(a, 32 - p.len) == Mask(p.net, 32 - p.len)
  }

  /** cidrOverlaps. */
  predicate Overlaps(p: Prefix, q: Prefix) {
    Contains(p, q.net) || Contains(q, p.net)
  }

  /** A CIDR as the operator spelled it. Two texts are the same string iff the values are
      equal; spelling 0 is the canonical one that net.IPNet prints. */
  datatype CidrText = V4(addr: Addr, len: Len, spelling: nat) | Junk(text: string)

  const DEFAULT_ROUTE := V4(0, 0, 0)

  /** parseMeshCIDR. */
  function Parse(t: CidrText): Option<Prefix> {
    match t
    case V4(a, l, _) => Some(Network(a, l))
    case Junk(_) => None
  }

  /** ipnet.String(). */
  function Spell(p: Prefix): CidrText {
    V4(p.net, p.len, 0)
  }

  /** meshNet.deviceIP: the network address with its last octet overwritten by d. */
  function DeviceIP(net: Addr, d: nat): (a: Addr)
    requires d <= 255
  {
    net / 256 * 256 + d
  }

  /** A host address as text: bare, with a prefix length, some other text, or a text with one
      more "/32" glued on. */
  datatype HostText = Bare(addr: Addr) | Masked(addr: Addr, len: Len) | Other(text: string) | Suffixed(of: HostText)

  /** A "/" stands in the text. */
  predicate HasSlash(t: HostText) {
    match t
    case Bare(_) => false
    case Masked(_, _) => true
    case Other(x) => '/' in x
    case Suffixed(_) => true
  }

  /** TrimSuffix(text, "/32"). */
  function Without32(t: HostText): HostText {
    match t
    case Bare(_) => t
    case Masked(a, l) => if l == 32 then Bare(a) else t
    case Other(x) => if |x| >= 3 && x[|x| - 3..] == "/32" then Other(x[..|x| - 3]) else t
    case Suffixed(of) => of
  }

  /** text + "/32". */
  function With32(t: HostText): HostText {
    if t.Bare? then Masked(t.addr, 32) else Suffixed(t)
  }

  /** The AllowedIPs entry a host text stands for, after a client has added "/32" to a text
      that has no "/" in it. */
  function HostPrefix(t: HostText): Option<Prefix> {
    match t
    case Bare(a) => Some(Prefix(a, 32))
    case Masked(a, l) => Some(Network(a, l))
    case Other(_) => None
    case Suffixed(_) => None
  }

  // ---- masking ----

  lemma {:induction false} ShiftOfMask(a: nat, k: nat)
    ensures Shift(Mask(a, k), k) == Shift(a, k)
  {
    if k == 0 {
    } else {
      ShiftOfMask(a / 2, k - 1);
      assert 2 * Mask(a / 2, k - 1) / 2 == Mask(a / 2, k - 1);
    }
  }

  lemma {:induction false} MaskFollowsShift(a: nat, b: nat, k: nat)
    requires Shift(a, k) == Shift(b, k)
    ensures Mask(a, k) == Mask(b, k)
  {
    if k == 0 {
    } else {
      MaskFollowsShift(a / 2, b / 2, k - 1);
    }
  }

  lemma MaskIffShift(a: nat, b: nat, k: nat)
    ensures Mask(a, k) == Mask(b, k) <==> Shift(a, k) == Shift(b, k)
  {
    if Mask(a, k) == Mask(b, k) {
      ShiftOfMask(a, k);
      ShiftOfMask(b, k);
    } else if Shift(a, k) == Shift(b, k) {
      MaskFollowsShift(a, b, k);
    }
  }

  lemma MaskIdempotent(a: nat, k: nat)
    ensures Mask(Mask(a, k), k) == Mask(a, k)
  {
    ShiftOfMask(a, k);
    MaskIffShift(Mask(a, k), a, k);
  }

  lemma {:induction false} ShiftAdd(a: nat, j: nat, k: nat)
    ensures Shift(a, j + k) == Shift(Shift(a, j), k)
  {
    if j == 0 {
    } else {
      ShiftAdd(a / 2, j - 1, k);
    }
  }

  /** The loop-free meaning of the mask: a rounded down to a multiple of 2^k. */
  lemma {:induction false} MaskIsRounding(a: nat, k: nat)
    ensures Mask(a, k) == a / Pow2(k) * Pow2(k)
  {
    if k == 0 {
    } else {
      var p := Pow2(k - 1);
      MaskIsRounding(a / 2, k - 1);
      var q := a / 2 / p;
      DivDiv(a, p);
      assert Mask(a, k) == 2 * (q * p);
      assert q * (2 * p) == 2 * (q * p) by { MulSwap(q, p); }
    }
  }

  lemma MulSwap(q: nat, p: nat)
    ensures q * (2 * p) == 2 * (q * p)
  {
  }

  lemma DivDiv(a: nat, p: nat)
    requires p > 0
    ensures a / 2 / p == a / (2 * p)
  {
    var q := a / 2 / p;
    var r := a / 2 % p;
    assert a / 2 == q * p + r;
    var t := 2 * r + a % 2;
    assert a == q * (2 * p) + t && 0 <= t < 2 * p by { MulSwap(q, p); }
    DivUnique(a, 2 * p, q, t);
  }

  lemma DivUnique(a: nat, m: nat, q: nat, t: nat)
    requires m > 0 && a == q * m + t && t < m
    ensures a / m == q
  {
    var q' := a / m;
    var t' := a % m;
    assert a == q' * m + t' && 0 <= t' < m;
    assert (q' - q) * m == q' * m - q * m && (q - q') * m == q * m - q' * m;
    if q < q' {
      MulMono(q' - q, m);
    } else if q' < q {
      MulMono(q - q', m);
    }
  }

  lemma MulMono(x: nat, m: nat)
    requires x >= 1
    ensures x * m >= m
  {
  }

  // ---- containment and overlap ----

  lemma ContainsIffShift(p: Prefix, a: Addr)
    ensures Contains(p, a) <==> Shift(a, 32 - p.len) == Shift(p.net, 32 - p.len)
  {
    MaskIffShift(a, p.net, 32 - p.len);
  }

  lemma RoundingRange(x: nat, q: nat, m: nat)
    requires m > 0
    ensures x / m * m == q * m <==> q * m <= x < q * m + m
  {
    assert x == x / m * m + x % m;
    if q * m <= x < q * m + m {
      DivUnique(x, m, q, x - q * m);
    }
  }

  /** Section 3.1 of RFC 4632: a network holds exactly the 2^(32-len) addresses from its base. */
  lemma ContainsIsRange(a: Addr, len: Len, x: Addr)
    ensures var n := Network(a, len);
            Contains(n, x) <==> n.net <= x < n.net + Pow2(32 - len)
  {
    var k := 32 - len;
    var n := Network(a, len);
    var m := Pow2(k);
    MaskIdempotent(a, k);
    MaskIsRounding(x, k);
    MaskIsRounding(a, k);
    RoundingRange(x, a / m, m);
  }

  lemma SharedBits(x: Addr, y: Addr, j: nat, k: nat)
    requires j <= k && Shift(x, j) == Shift(y, j)
    ensures Shift(x, k) == Shift(y, k)
  {
    ShiftAdd(x, j, k - j);
    ShiftAdd(y, j, k - j);
  }

  /** A shorter prefix that meets a longer one holds all of it. */
  lemma Laminar(p: Prefix, q: Prefix, x: Addr, y: Addr)
    requires p.len <= q.len && Contains(p, x) && Contains(q, x) && Contains(q, y)
    ensures Contains(p, y)
  {
    ContainsIffShift(p, x);
    ContainsIffShift(q, x);
    ContainsIffShift(q, y);
    ContainsIffShift(p, y);
    SharedBits(x, y, 32 - q.len, 32 - p.len);
  }

  /** cidrOverlaps answers exactly whether some address lies in both networks. */
  lemma OverlapsIffShared(p: Prefix, q: Prefix)
    ensures Overlaps(p, q) <==> exists x: Addr :: Contains(p, x) && Contains(q, x)
  {
    assert Contains(p, p.net) && Contains(q, q.net);
    if x: Addr :| Contains(p, x) && Contains(q, x) {
      if p.len <= q.len {
        Laminar(p, q, x, q.net);
      } else {
        Laminar(q, p, x, p.net);
      }
    }
  }

  lemma DisjointApart(p: Prefix, q: Prefix, x: Addr)
    requires !Overlaps(p, q) && Contains(p, x)
    ensures !Contains(q, x)
  {
    OverlapsIffShared(p, q);
  }

  lemma AllContain(p: Prefix, a: Addr)
    requires p.len == 0
    ensures Contains(p, a)
  {
    assert Pow2(32) == 0x1_0000_0000 by {
      assert Pow2(8) == 256;
      assert Pow2(16) == 256 * Pow2(8);
      assert Pow2(24) == 256 * Pow2(16);
    }
    ShiftZero(a, 32);
    ShiftZero(p.net, 32);
    ContainsIffShift(p, a);
  }

  lemma {:induction false} ShiftZero(a: nat, k: nat)
    requires a < Pow2(k)
    ensures Shift(a, k) == 0
  {
    if k == 0 {
    } else {
      ShiftZero(a / 2, k - 1);
    }
  }

  // ---- deviceIP ----

  lemma Shift8(a: nat)
    ensures Shift(a, 8) == a / 256
    ensures Shift(a, 7) == a / 128
  {
    assert Shift(a, 4) == a / 16 by {
      assert Shift(a, 4) == Shift(a / 2, 3) == Shift(a / 2 / 2, 2) == Shift(a / 2 / 2 / 2, 1) == a / 2 / 2 / 2 / 2;
    }
    var b := a / 16;
    assert Shift(b, 3) == b / 8 by {
      assert Shift(b, 3) == Shift(b / 2, 2) == Shift(b / 2 / 2, 1) == b / 2 / 2 / 2;
    }
    assert Shift(b, 4) == b / 16 by {
      assert Shift(b, 4) == Shift(b / 2, 3) == Shift(b / 2 / 2, 2) == Shift(b / 2 / 2 / 2, 1) == b / 2 / 2 / 2 / 2;
    }
    ShiftAdd(a, 4, 3);
    ShiftAdd(a, 4, 4);
  }

  lemma Mask8(a: nat)
    ensures Mask(a, 8) == a / 256 * 256
  {
    MaskIsRounding(a, 8);
    assert Pow2(8) == 256;
  }

  lemma Shift22(a: nat)
    ensures Shift(a, 22) == a / 0x400000
  {
    ShiftAdd(a, 8, 14);
    Shift8(a);
    var b := a / 256;
    ShiftAdd(b, 7, 7);
    Shift8(b);
    Shift8(b / 128);
  }

  lemma DeviceIPInMesh(p: Prefix, d: nat)
    requires p.len <= 24 && d <= 255
    ensures Contains(p, DeviceIP(p.net, d))
  {
    var x := DeviceIP(p.net, d);
    Shift8(x);
    Shift8(p.net);
    SharedBits(x, p.net, 8, 32 - p.len);
    ContainsIffShift(p, x);
  }

  /** In a mesh longer than a /24, a slot of the other half of the last octet falls outside. */
  lemma LongMeshMisses(p: Prefix, d: nat)
    requires p.len > 24 && d <= 255 && d / 128 != p.net % 256 / 128
    ensures !Contains(p, DeviceIP(p.net, d))
  {
    hide Contains;
    var x := DeviceIP(p.net, d);
    assert x / 128 != p.net / 128 by {
      LastOctetHalves(p.net, d);
    }
    ContainsIffShift(p, x);
    if Contains(p, x) {
      HalvesApart(x, p.net, 32 - p.len);
    }
  }

  lemma LastOctetHalves(net: Addr, d: nat)
    requires d <= 255 && d / 128 != net % 256 / 128
    ensures DeviceIP(net, d) / 128 != net / 128
  {
    assert DeviceIP(net, d) / 128 == net / 256 * 2 + d / 128;
    assert net / 128 == net / 256 * 2 + net % 256 / 128;
  }

  lemma HalvesApart(x: Addr, y: Addr, k: nat)
    requires k <= 7 && Shift(x, k) == Shift(y, k)
    ensures x / 128 == y / 128
  {
    Shift8(x);
    Shift8(y);
    SharedBits(x, y, k, 7);
  }

  /** deviceIP stays inside the mesh for every slot exactly when the mesh is a /24 or larger. */
  lemma DeviceIPInMeshIff(p: Prefix)
    ensures (forall d :: 1 <= d <= 254 ==> Contains(p, DeviceIP(p.net, d))) <==> p.len <= 24
  {
    if p.len <= 24 {
      forall d | 1 <= d <= 254 ensures Contains(p, DeviceIP(p.net, d)) {
        DeviceIPInMesh(p, d);
      }
    } else {
      LongMeshMisses(p, if p.net % 256 < 128 then 128 else 1);
    }
  }

  /** Two meshes hand out the same address for some pair of slots exactly when their networks
      lie in the same /24. */
  lemma DeviceIPCollides(p: Prefix, q: Prefix, d: nat, e: nat)
    requires d <= 255 && e <= 255
    ensures DeviceIP(p.net, d) == DeviceIP(q.net, e) <==> d == e && Shift(p.net, 8) == Shift(q.net, 8)
  {
    Shift8(p.net);
    Shift8(q.net);
    Shift8(DeviceIP(p.net, d));
    Shift8(DeviceIP(q.net, e));
  }

  /** Disjoint meshes of length at most 24 never hand out the same address. */
  lemma DisjointMeshesApart(p: Prefix, q: Prefix, d: nat, e: nat)
    requires p.len <= 24 && q.len <= 24 && !Overlaps(p, q)
    requires d <= 255 && e <= 255
    ensures DeviceIP(p.net, d) != DeviceIP(q.net, e)
  {
    DeviceIPInMesh(p, d);
    DeviceIPInMesh(q, e);
    DisjointApart(p, q, DeviceIP(p.net, d));
  }

  /** The two halves of 100.64.0.0/24 are disjoint /25 meshes, yet the second hub's own
      address is the first hub's, and it lies outside the second mesh. */
  lemma HalvesCollide()
    ensures var low := Network(0x64400000, 25);
            var high := Network(0x64400080, 25);
            !Overlaps(low, high) && DeviceIP(low.net, 1) == DeviceIP(high.net, 1)
            && !Contains(high, DeviceIP(high.net, 1))
  {
    var low := Network(0x64400000, 25);
    var high := Network(0x64400080, 25);
    MaskIsRounding(0x64400000, 7);
    MaskIsRounding(0x64400080, 7);
    MaskIsRounding(0x64400001, 7);
    assert Pow2(7) == 128 by {
      assert Pow2(3) == 8;
      assert Pow2(5) == 32;
    }
    assert low.net == 0x64400000 && high.net == 0x64400080;
  }
}
