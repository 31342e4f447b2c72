/** The search for a free /24 in 100.64.0.0/10 (section 7 of RFC 6598). */
module MeshSearch {
  import opened Text
  import opened Cidr
  import opened Model
  import opened Queries
  import opened Steps
  import opened Invariants

  const CGNAT := Network(0x64400000, 10)

  /** A mesh that the search's text comparison can see: a canonically spelled /24 of the
      range, or a mesh outside the range. */
  ghost predicate Tidy(mesh: CidrText) {
    (exists k | 0 <= k < MESH_SLOTS :: mesh == MeshSlot(k))
    || (Parse(mesh).Some? && !Overlaps(Parse(mesh).value, CGNAT))
  }

  lemma SlotsApart(j: nat, k: nat)
    requires j < MESH_SLOTS && k < MESH_SLOTS && j != k
    ensures !Overlaps(Parse(MeshSlot(j)).value, Parse(MeshSlot(k)).value)
  {
    SlotNetwork(j);
    SlotNetwork(k);
    var p, q := Parse(MeshSlot(j)).value, Parse(MeshSlot(k)).value;
    Shift8(p.net);
    Shift8(q.net);
    ContainsIffShift(p, q.net);
    ContainsIffShift(q, p.net);
  }

  lemma SlotNetwork(k: nat)
    requires k < MESH_SLOTS
    ensures Parse(MeshSlot(k)).value.net == 0x64400000 + 256 * k
  {
    var a: Addr := 0x64400000 + 256 * k;
    Mask8(a);
    assert a / 256 == 0x644000 + k;
    assert MeshSlot(k) == V4(a, 24, 0);
  }

  lemma SlotInRange(k: nat)
    requires k < MESH_SLOTS
    ensures Contains(CGNAT, Parse(MeshSlot(k)).value.net)
  {
    SlotNetwork(k);
    var base: Addr, x: Addr := 0x64400000, 0x64400000 + 256 * k;
    Shift22(base);
    Shift22(x);
    ShiftOfMask(base, 22);
    ContainsIffShift(CGNAT, x);
  }

  lemma TidyAvoidsPick(mesh: CidrText, k: nat)
    requires k < MESH_SLOTS && Tidy(mesh) && mesh != MeshSlot(k)
    ensures Parse(mesh).Some? && !Overlaps(Parse(MeshSlot(k)).value, Parse(mesh).value)
  {
    var p, m := Parse(MeshSlot(k)).value, Parse(mesh).value;
    if j :| 0 <= j < MESH_SLOTS && mesh == MeshSlot(j) {
      SlotsApart(k, j);
    } else if Overlaps(p, m) {
      OverlapsIffShared(p, m);
      var x: Addr :| Contains(p, x) && Contains(m, x);
      SlotInRange(k);
      MaskIdempotent(0x64400000, 22);
      Laminar(CGNAT, p, p.net, x);
      OverlapsIffShared(m, CGNAT);
    }
  }

  /** The pick is the lowest /24 of the range, in octet order, that no hub spells as its mesh.
      It passes the mint-time guard exactly when no untidy mesh overlaps it. */
  lemma PickAcceptedIff(s: State)
    requires Inv(s) && SuggestMesh(s).Some?
    ensures var c := SuggestMesh(s).value;
            && (exists k | 0 <= k < MESH_SLOTS ::
                  c == MeshSlot(k) && forall j | 0 <= j < k :: MeshSlot(j) in UsedMeshes(s))
            && (MeshAccepted(c, Hubs(s), 0) <==>
                  forall h | h in s.hubs && !Tidy(s.hubs[h].mesh) && Parse(s.hubs[h].mesh).Some? ::
                    !Overlaps(Parse(c).value, Parse(s.hubs[h].mesh).value))
  {
    var k := FreeMeshFrom(UsedMeshes(s), 0).value;
    var c := MeshSlot(k);
    assert SuggestMesh(s).value == c;
    forall h | h in s.hubs
      ensures s.hubs[h] in Hubs(s) && s.hubs[h].id != 0 && Parse(s.hubs[h].mesh).Some?
      ensures Tidy(s.hubs[h].mesh) ==> !Overlaps(Parse(c).value, Parse(s.hubs[h].mesh).value)
    {
      assert RowOk(s, h);
      assert s.hubs[h].mesh in UsedMeshes(s);
      if Tidy(s.hubs[h].mesh) {
        TidyAvoidsPick(s.hubs[h].mesh, k);
      }
    }
  }

  /** A /24 of 100.64.0.0/10 that no hub has as its mesh in canonical spelling. */
  ghost predicate UnspelledSlot(s: State, a: Addr) {
    0x64400000 <= a < 0x64800000 && a % 256 == 0 && forall h | h in s.hubs :: s.hubs[h].mesh != V4(a, 24, 0)
  }

  /** The search finds the lowest of these, and fails exactly when there is none. */
  lemma PickIsLowest(s: State)
    ensures match SuggestMesh(s)
            case Some(c) =>
              c == V4(c.addr, 24, 0) && UnspelledSlot(s, c.addr) && forall a | UnspelledSlot(s, a) :: c.addr <= a
            case None => forall a :: !UnspelledSlot(s, a)
  {
    hide FreeMeshFrom;
    var k := FreeMeshFrom(UsedMeshes(s), 0);
    forall a: Addr | UnspelledSlot(s, a)
      ensures k.Some? && 0x64400000 + 256 * k.value <= a
    {
      var j := (a - 0x64400000) / 256;
      assert a == 0x64400000 + 256 * j && MeshSlot(j) == V4(a, 24, 0);
      assert MeshSlot(j) !in UsedMeshes(s);
    }
    if k.Some? {
      assert MeshSlot(k.value) !in UsedMeshes(s);
      forall h | h in s.hubs ensures s.hubs[h].mesh != MeshSlot(k.value) {
        assert s.hubs[h].mesh in UsedMeshes(s);
      }
    }
  }

  /** Minting a first hub with 100.64.0.5/24 spelled out makes the next blank-mesh mint fail:
      the text comparison misses it and the guard then refuses the pick. */
  lemma UntidyMeshBlocksPick(s: State, slug: string, endpoint: string, expires: Option<nat>, h: nat)
    requires Inv(s) && h in s.hubs && s.hubs[h].mesh == V4(0x64400005, 24, 0)
    requires MeshSlot(0) !in UsedMeshes(s) && HubBySlug(s, slug).None?
    ensures MintHubStep(s, slug, endpoint, None, expires) == s
  {
    assert RowOk(s, h);
    assert s.hubs[h] in Hubs(s);
    var p, m := Parse(MeshSlot(0)).value, Parse(s.hubs[h].mesh).value;
    Mask8(0x64400000);
    Mask8(0x64400005);
    assert p == m;
    assert SuggestMesh(s) == Some(MeshSlot(0));
  }

  /** A hub token cannot be re-issued with the mesh left blank: the pick is never a mesh in
      use, so it always differs from the hub's own. */
  lemma BlankReissueRefused(s: State, h: nat, endpoint: string, expires: Option<nat>)
    requires Inv(s) && h in s.hubs
    ensures MintHubStep(s, s.hubs[h].slug, endpoint, None, expires) == s
  {
    assert RowOk(s, h);
    var found := HubBySlug(s, s.hubs[h].slug);
    assert found.Some?;
    assert Apart(s, found.value, h);
    assert s.hubs[h].mesh in UsedMeshes(s);
  }
}
