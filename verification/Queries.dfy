/** The lookups of store.go and alloc.go, and the specifications of its two slot searches and
    its two CIDR validators. */
module Queries {
  import opened Text
  import opened Cidr
  import opened Model

  function Hubs(s: State): seq<Hub> {
    Listing(s.hubs, s.nextHub)
  }

  function HubBySlug(s: State, slug: string): (r: Option<nat>)
    ensures r.Some? ==> r.value in s.hubs && s.hubs[r.value].slug == slug
    ensures r.None? ==> forall i | i in s.hubs && i < s.nextHub :: s.hubs[i].slug != slug
  {
    First(s.hubs, s.nextHub, (h: Hub) => h.slug == slug)
  }

  /** SELECT ... FROM wg_tokens WHERE token_hash = $1. */
  function TokenBySecret(s: State, secret: nat): (r: Option<nat>)
    ensures r.Some? ==> r.value in s.tokens && s.tokens[r.value].secret == secret
    ensures r.None? ==> forall i | i in s.tokens && i < s.nextToken :: s.tokens[i].secret != secret
  {
    First(s.tokens, s.nextToken, (t: Token) => t.secret == secret)
  }

  /** lookupDeviceByPubkeyTx: live rows only. */
  function LiveByPubkey(s: State, pubkey: string): (r: Option<nat>)
    ensures r.Some? ==> r.value in s.devices && s.devices[r.value].Live() && s.devices[r.value].pubkey == pubkey
    ensures r.None? ==> forall i | i in s.devices && i < s.nextDevice && s.devices[i].Live() ::
            s.devices[i].pubkey != pubkey
  {
    First(s.devices, s.nextDevice, (d: Device) => d.Live() && d.pubkey == pubkey)
  }

  /** getWGDeviceByTokenHash: live rows only. */
  function LiveBySecret(s: State, secret: nat): (r: Option<nat>)
    ensures r.Some? ==> r.value in s.devices && s.devices[r.value].Live() && s.devices[r.value].secret == secret
    ensures r.None? ==> forall i | i in s.devices && i < s.nextDevice && s.devices[i].Live() ::
            s.devices[i].secret != secret
  {
    First(s.devices, s.nextDevice, (d: Device) => d.Live() && d.secret == secret)
  }

  /** extractDeviceBearer: the device a bearer secret authenticates, if it also claims that
      device's id and the secret has not expired. */
  function Bearer(s: State, secret: nat, claimed: nat, now: nat): (r: Option<nat>)
    ensures r.Some? ==> r.value in s.devices && s.devices[r.value].Live() && s.devices[r.value].secret == secret
  {
    var r := LiveBySecret(s, secret);
    if r.None? || r.value != claimed then None
    else if s.devices[r.value].expires.Some? && now > s.devices[r.value].expires.value then None
    else r
  }

  function SiteBySlugInHub(s: State, hub: nat, slug: string): (r: Option<nat>)
    ensures r.Some? ==> r.value in s.sites && s.sites[r.value].hub == hub && s.sites[r.value].slug == slug
    ensures r.None? ==> forall i | i in s.sites && i < s.nextSite && s.sites[i].hub == hub :: s.sites[i].slug != slug
  {
    First(s.sites, s.nextSite, (x: Site) => x.hub == hub && x.slug == slug)
  }

  /** lookupSiteByAutoKeyInHub. */
  function SiteByAutoKey(s: State, hub: nat, publicIp: string, lan: string): (r: Option<nat>)
    ensures r.Some? ==> r.value in s.sites && s.sites[r.value].hub == hub
                        && s.sites[r.value].publicIp == publicIp && s.sites[r.value].lan == lan
  {
    First(s.sites, s.nextSite, (x: Site) => x.hub == hub && x.publicIp == publicIp && x.lan == lan)
  }

  // ---- ORDER BY d_index ----

  function SlotOf(devices: map<nat, Device>, i: nat): nat {
    if i in devices then devices[i].dIndex else 0
  }

  /** Device rows in slot order. */
  predicate BySlot(devices: map<nat, Device>, rows: seq<nat>) {
    |rows| >= 2 ==> SlotOf(devices, rows[0]) <= SlotOf(devices, rows[1]) && BySlot(devices, rows[1..])
  }

  lemma {:induction false} BySlotMeans(devices: map<nat, Device>, rows: seq<nat>, j: nat, k: nat)
    requires BySlot(devices, rows) && j < k < |rows|
    ensures SlotOf(devices, rows[j]) <= SlotOf(devices, rows[k])
  {
    hide SlotOf;
    if j > 0 {
      BySlotMeans(devices, rows[1..], j - 1, k - 1);
    } else if k > 1 {
      BySlotMeans(devices, rows[1..], 0, k - 1);
    }
  }

  function InsertRow(devices: map<nat, Device>, rows: seq<nat>, i: nat): (out: seq<nat>)
    ensures multiset(out) == multiset(rows) + multiset{i}
  {
    if rows != [] && SlotOf(devices, rows[0]) <= SlotOf(devices, i) then
      assert rows == [rows[0]] + rows[1..];
      [rows[0]] + InsertRow(devices, rows[1..], i)
    else [i] + rows
  }

  lemma {:induction false} InsertRowKeepsOrder(devices: map<nat, Device>, rows: seq<nat>, i: nat)
    requires BySlot(devices, rows)
    ensures BySlot(devices, InsertRow(devices, rows, i))
  {
    hide SlotOf;
    if rows == [] {
    } else if SlotOf(devices, rows[0]) <= SlotOf(devices, i) {
      InsertRowKeepsOrder(devices, rows[1..], i);
      assert InsertRow(devices, rows, i)[1..] == InsertRow(devices, rows[1..], i);
    } else {
      assert ([i] + rows)[1..] == rows;
    }
  }

  /** The rows below n that satisfy p: SELECT ... ORDER BY d_index. */
  function SlotRows(devices: map<nat, Device>, p: nat -> bool, n: nat): seq<nat> {
    if n == 0 then []
    else if n - 1 in devices && p(n - 1) then InsertRow(devices, SlotRows(devices, p, n - 1), n - 1)
    else SlotRows(devices, p, n - 1)
  }

  lemma NoneBySlot(devices: map<nat, Device>)
    ensures BySlot(devices, [])
  {
  }

  lemma {:induction false} SlotRowsOrdered(devices: map<nat, Device>, p: nat -> bool, n: nat)
    ensures BySlot(devices, SlotRows(devices, p, n))
  {
    hide InsertRow, BySlot, SlotOf;
    if n == 0 {
      NoneBySlot(devices);
    } else {
      SlotRowsOrdered(devices, p, n - 1);
      InsertRowKeepsOrder(devices, SlotRows(devices, p, n - 1), n - 1);
    }
  }

  /** Each such row is listed, once, and no other. */
  lemma {:induction false} SlotRowsEach(devices: map<nat, Device>, p: nat -> bool, n: nat, i: nat)
    ensures multiset(SlotRows(devices, p, n))[i] == if i in devices && i < n && p(i) then 1 else 0
    ensures i in SlotRows(devices, p, n) <==> i in devices && i < n && p(i)
  {
    hide InsertRow;
    if n == 0 {
    } else {
      SlotRowsEach(devices, p, n - 1, i);
    }
    assert i in SlotRows(devices, p, n) <==> i in multiset(SlotRows(devices, p, n));
  }

  lemma SeenOnce(rows: seq<nat>)
    requires forall i :: multiset(rows)[i] <= 1
    ensures forall j, k | 0 <= j < k < |rows| :: rows[j] != rows[k]
  {
    forall j, k | 0 <= j < k < |rows| ensures rows[j] != rows[k] {
      assert rows == rows[..k] + rows[k..];
      assert rows[..k][j] == rows[j] && rows[k..][0] == rows[k];
      assert rows[j] in multiset(rows[..k]) && rows[k] in multiset(rows[k..]);
      assert multiset(rows) == multiset(rows[..k]) + multiset(rows[k..]);
      assert multiset(rows)[rows[j]] <= 1;
    }
  }

  /** No row is listed twice. */
  lemma SlotRowsDistinct(devices: map<nat, Device>, p: nat -> bool, n: nat)
    ensures forall j, k | 0 <= j < k < |SlotRows(devices, p, n)| ::
              SlotRows(devices, p, n)[j] != SlotRows(devices, p, n)[k]
  {
    hide SlotRows;
    var rows := SlotRows(devices, p, n);
    forall i ensures multiset(rows)[i] <= 1 {
      SlotRowsEach(devices, p, n, i);
    }
    SeenOnce(rows);
  }

  /** listWGDevicesInSite. */
  function SiteRows(s: State, site: nat, exclude: nat): (out: seq<nat>)
    ensures forall i ::
              i in out <==> i in s.devices && i < s.nextDevice && s.devices[i].Live()
                            && s.devices[i].site == site && i != exclude
    ensures BySlot(s.devices, out) && forall j, k | 0 <= j < k < |out| :: out[j] != out[k]
  {
    var p := (i: nat) => i in s.devices && s.devices[i].Live() && s.devices[i].site == site && i != exclude;
    SlotRowsOrdered(s.devices, p, s.nextDevice);
    SlotRowsDistinct(s.devices, p, s.nextDevice);
    assert forall i :: i in SlotRows(s.devices, p, s.nextDevice) <==> i in s.devices && i < s.nextDevice && p(i) by {
      forall i: nat ensures i in SlotRows(s.devices, p, s.nextDevice) <==> i in s.devices && i < s.nextDevice && p(i) {
        SlotRowsEach(s.devices, p, s.nextDevice, i);
      }
    }
    SlotRows(s.devices, p, s.nextDevice)
  }

  /** listWGDevicesInHub. */
  function HubRows(s: State, hub: nat, exclude: nat): (out: seq<nat>)
    ensures forall i ::
              i in out <==> i in s.devices && i < s.nextDevice && s.devices[i].Live()
                            && s.devices[i].hub == hub && i != exclude
    ensures BySlot(s.devices, out) && forall j, k | 0 <= j < k < |out| :: out[j] != out[k]
  {
    var p := (i: nat) => i in s.devices && s.devices[i].Live() && s.devices[i].hub == hub && i != exclude;
    SlotRowsOrdered(s.devices, p, s.nextDevice);
    SlotRowsDistinct(s.devices, p, s.nextDevice);
    assert forall i :: i in SlotRows(s.devices, p, s.nextDevice) <==> i in s.devices && i < s.nextDevice && p(i) by {
      forall i: nat ensures i in SlotRows(s.devices, p, s.nextDevice) <==> i in s.devices && i < s.nextDevice && p(i) {
        SlotRowsEach(s.devices, p, s.nextDevice, i);
      }
    }
    SlotRows(s.devices, p, s.nextDevice)
  }

  // ---- slot searches ----

  /** The least number of lo..hi outside used. */
  function LeastFree(used: set<nat>, lo: nat, hi: nat): (r: Option<nat>)
    ensures r.Some? ==> lo <= r.value <= hi && r.value !in used && forall v | lo <= v < r.value :: v in used
    ensures r.None? ==> forall v | lo <= v <= hi :: v in used
    decreases hi + 1 - lo
  {
    if lo > hi then None
    else if lo !in used then Some(lo)
    else LeastFree(used, lo + 1, hi)
  }

  /** The d_index values of the live devices in the sites of a hub. */
  function UsedDIndexes(s: State, hub: nat): set<nat> {
    set i | i in s.devices && s.devices[i].Live() && s.devices[i].site in s.sites
            && s.sites[s.devices[i].site].hub == hub :: s.devices[i].dIndex
  }

  function UsedSIndexes(s: State, hub: nat): set<nat> {
    set i | i in s.sites && s.sites[i].hub == hub :: s.sites[i].sIndex
  }

  function FreeDIndex(s: State, hub: nat): Option<nat> {
    LeastFree(UsedDIndexes(s, hub), 2, 254)
  }

  function FreeSIndex(s: State, hub: nat): Option<nat> {
    LeastFree(UsedSIndexes(s, hub), 1, 254)
  }

  // ---- free mesh ----

  const MESH_SLOTS := 16384

  /** The k-th /24 of 100.64.0.0/10 in octet order, in canonical spelling. */
  function MeshSlot(k: nat): CidrText
    requires k < MESH_SLOTS
  {
    V4(0x64400000 + 256 * k, 24, 0)
  }

  function UsedMeshes(s: State): set<CidrText> {
    set i | i in s.hubs :: s.hubs[i].mesh
  }

  function FreeMeshFrom(used: set<CidrText>, k: nat): (r: Option<nat>)
    requires k <= MESH_SLOTS
    ensures r.Some? ==> k <= r.value < MESH_SLOTS && MeshSlot(r.value) !in used
    ensures r.Some? ==> forall j | k <= j < r.value :: MeshSlot(j) in used
    ensures r.None? ==> forall j | k <= j < MESH_SLOTS :: MeshSlot(j) in used
    decreases MESH_SLOTS - k
  {
    if k == MESH_SLOTS then None
    else if MeshSlot(k) !in used then Some(k)
    else FreeMeshFrom(used, k + 1)
  }

  /** suggestFreeMeshCIDR. */
  function SuggestMesh(s: State): (r: Option<CidrText>)
    ensures r.Some? ==> r.value !in UsedMeshes(s) && Parse(r.value).Some? && r.value.V4? && r.value.len == 24
  {
    var k := FreeMeshFrom(UsedMeshes(s), 0);
    if k.Some? then Some(MeshSlot(k.value)) else None
  }

  // ---- validators ----

  /** validateMeshCIDRDisjoint has nothing to object to. */
  predicate MeshAccepted(mesh: CidrText, hubs: seq<Hub>, self: nat) {
    && Parse(mesh).Some?
    && forall h | h in hubs && h.id != self && Parse(h.mesh).Some? ::
         !Overlaps(Parse(mesh).value, Parse(h.mesh).value)
  }

  /** validateAdvertisedRoutes has nothing to object to. */
  predicate RoutesAccepted(routes: seq<CidrText>, hubs: seq<Hub>) {
    forall r | r in routes && r != DEFAULT_ROUTE ::
      && Parse(r).Some?
      && forall h | h in hubs && Parse(h.mesh).Some? :: !Overlaps(Parse(r).value, Parse(h.mesh).value)
  }

  /** subnetRoutes. */
  function SubnetRoutes(routes: seq<CidrText>): (out: seq<CidrText>)
    ensures forall r :: r in out <==> r in routes && r != DEFAULT_ROUTE
  {
    if routes == [] then []
    else (if routes[0] != DEFAULT_ROUTE then [routes[0]] else []) + SubnetRoutes(routes[1..])
  }

  lemma SubnetsFirst(r: CidrText, b: seq<CidrText>)
    ensures SubnetRoutes([r] + b) == (if r == V4(0, 0, 0) then [] else [r]) + SubnetRoutes(b)
  {
    assert ([r] + b)[1..] == b;
  }

  /** The filter works route by route and keeps the order. */
  lemma {:induction false} SubnetsInOrder(a: seq<CidrText>, r: CidrText, b: seq<CidrText>)
    ensures SubnetRoutes(a + [r] + b) == SubnetRoutes(a) + (if r == V4(0, 0, 0) then [] else [r]) + SubnetRoutes(b)
  {
    hide SubnetRoutes;
    if a == [] {
      assert a + [r] + b == [r] + b;
      SubnetsFirst(r, b);
      NoSubnetRoutes();
    } else {
      assert a + [r] + b == [a[0]] + (a[1..] + [r] + b) && a == [a[0]] + a[1..];
      SubnetsFirst(a[0], a[1..] + [r] + b);
      SubnetsFirst(a[0], a[1..]);
      SubnetsInOrder(a[1..], r, b);
    }
  }

  lemma NoSubnetRoutes()
    ensures SubnetRoutes([]) == []
  {
  }
}
