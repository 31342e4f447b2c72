/** Slot arithmetic: when the d_index search fails, and that every freed device frees exactly
    one slot. */
module Slots {
  import opened Text
  import opened Cidr
  import opened Model
  import opened Queries
  import opened Steps
  import opened Invariants

  const SLOTS := 253

  /** The live devices of a hub outside slot 1. */
  function LiveSpokes(s: State, hub: nat): set<nat> {
    set i | i in s.devices && s.devices[i].Live() && s.devices[i].hub == hub && s.devices[i].dIndex >= 2
  }

  /** The slots 2..254 that no live device of the hub occupies. */
  function FreeSlots(s: State, hub: nat): set<nat> {
    set v: nat | 2 <= v <= 254 && v !in UsedDIndexes(s, hub)
  }

  function SlotsOf(devices: map<nat, Device>, ids: set<nat>): set<nat>
    requires ids <= devices.Keys
  {
    set i | i in ids :: devices[i].dIndex
  }

  lemma {:induction false} SlotsOfSize(devices: map<nat, Device>, ids: set<nat>)
    requires ids <= devices.Keys
    requires forall i, j | i in ids && j in ids && devices[i].dIndex == devices[j].dIndex :: i == j
    ensures |SlotsOf(devices, ids)| == |ids|
  {
    if ids != {} {
      var i :| i in ids;
      SlotsOfSize(devices, ids - {i});
      assert SlotsOf(devices, ids) == SlotsOf(devices, ids - {i}) + {devices[i].dIndex};
      assert devices[i].dIndex !in SlotsOf(devices, ids - {i});
    } else {
      assert SlotsOf(devices, ids) == {};
    }
  }

  /** The n numbers from lo on. */
  function Range(lo: nat, n: nat): (r: set<nat>)
    ensures |r| == n && forall v: nat :: v in r <==> lo <= v < lo + n
  {
    if n == 0 then {} else Range(lo, n - 1) + {lo + n - 1}
  }

  /** The slots from 2 up that the search sees as used are those of the live spokes. */
  lemma UsedBySpokes(s: State, hub: nat, v: nat)
    requires Inv(s) && v >= 2
    ensures v in UsedDIndexes(s, hub) <==> v in SlotsOf(s.devices, LiveSpokes(s, hub))
    ensures v in UsedDIndexes(s, hub) ==> v <= 254
  {
    if v in UsedDIndexes(s, hub) {
      var i :| i in s.devices && s.devices[i].Live() && s.devices[i].site in s.sites
               && s.sites[s.devices[i].site].hub == hub && s.devices[i].dIndex == v;
      assert RowOk(s, i);
      assert i in LiveSpokes(s, hub);
    }
    if v in SlotsOf(s.devices, LiveSpokes(s, hub)) {
      var i :| i in LiveSpokes(s, hub) && s.devices[i].dIndex == v;
      assert RowOk(s, i);
    }
  }

  lemma SpokeSlots(s: State, hub: nat)
    requires Inv(s)
    ensures |SlotsOf(s.devices, LiveSpokes(s, hub))| == |LiveSpokes(s, hub)|
  {
    var spokes := LiveSpokes(s, hub);
    forall i, j | i in spokes && j in spokes && s.devices[i].dIndex == s.devices[j].dIndex ensures i == j {
      assert Apart(s, i, j);
    }
    SlotsOfSize(s.devices, spokes);
  }

  lemma PartitionSize(a: set<nat>, b: set<nat>, lo: nat, n: nat)
    requires a !! b && forall v: nat :: v in a + b <==> lo <= v < lo + n
    ensures |a| + |b| == n
  {
    assert Range(lo, n) == a + b;
  }

  /** Free slots and live spokes always add up to 253. */
  lemma SlotsConserved(s: State, hub: nat)
    requires Inv(s)
    ensures |FreeSlots(s, hub)| + |LiveSpokes(s, hub)| == SLOTS
  {
    SpokeSlots(s, hub);
    var free, taken := FreeSlots(s, hub), SlotsOf(s.devices, LiveSpokes(s, hub));
    forall v: nat ensures v in free + taken <==> 2 <= v < 2 + SLOTS {
      if v >= 2 {
        UsedBySpokes(s, hub, v);
      }
    }
    forall v | v in taken ensures v !in free {
      UsedBySpokes(s, hub, v);
    }
    PartitionSize(free, taken, 2, SLOTS);
  }

  /** pickFreeDIndex returns the least free slot, and fails iff the hub has 253 live spokes. */
  lemma PickFailsIffFull(s: State, hub: nat)
    requires Inv(s)
    ensures FreeDIndex(s, hub).None? <==> |LiveSpokes(s, hub)| == SLOTS
    ensures FreeDIndex(s, hub).Some? ==> FreeDIndex(s, hub).value in FreeSlots(s, hub)
                                         && forall v | v in FreeSlots(s, hub) :: FreeDIndex(s, hub).value <= v
  {
    SlotsConserved(s, hub);
    var free := FreeSlots(s, hub);
    if FreeDIndex(s, hub).None? {
      assert free == {};
    } else {
      assert FreeDIndex(s, hub).value in free;
      assert |free| > 0;
    }
  }

  /** Removing devices frees exactly the slots of the hub's live spokes among them. */
  lemma RemovalFreesSlots(s: State, victims: set<nat>, hub: nat)
    requires Inv(s)
    ensures |FreeSlots(RemoveAll(s, victims), hub)| == |FreeSlots(s, hub)| + |LiveSpokes(s, hub) * victims|
  {
    hide Inv, FreeSlots;
    var s' := RemoveAll(s, victims);
    RemoveAllKeeps(s, victims);
    SlotsConserved(s, hub);
    SlotsConserved(s', hub);
    assert LiveSpokes(s', hub) == LiveSpokes(s, hub) - victims;
    assert LiveSpokes(s, hub) == LiveSpokes(s', hub) + LiveSpokes(s, hub) * victims;
    assert LiveSpokes(s', hub) !! LiveSpokes(s, hub) * victims;
  }

  /** Leaving, admin removal and release of a live spoke each free one slot of its hub; one
      sweep frees as many as it has victims among the hub's spokes. */
  lemma RetireFreesOneSlot(s: State, device: nat)
    requires Inv(s) && device in s.devices && s.devices[device].Live() && s.devices[device].dIndex >= 2
    ensures var hub := s.devices[device].hub;
            |FreeSlots(RemoveStep(s, device), hub)| == |FreeSlots(s, hub)| + 1
  {
    RemoveIsRemoveAll(s, device);
    var hub := s.devices[device].hub;
    RemovalFreesSlots(s, {device}, hub);
    assert LiveSpokes(s, hub) * {device} == {device};
  }

  lemma SweepFreesSlots(s: State, cutoff: nat, hub: nat)
    requires Inv(s)
    ensures |FreeSlots(SweepStep(s, cutoff), hub)|
            == |FreeSlots(s, hub)| + |set i | i in LiveSpokes(s, hub) && Stale(s.devices[i], cutoff)|
  {
    RemovalFreesSlots(s, Victims(s, cutoff), hub);
    assert LiveSpokes(s, hub) * Victims(s, cutoff) == set i | i in LiveSpokes(s, hub) && Stale(s.devices[i], cutoff);
  }

  /** Releasing the token of a live spoke frees one slot; releasing it again changes nothing. */
  lemma ReleaseOnce(s: State, token: nat)
    requires Inv(s)
    ensures ReleaseStep(ReleaseStep(s, token), token) == ReleaseStep(s, token)
    ensures token in s.tokens && s.tokens[token].consumedBy.Some? ==>
              var d := s.tokens[token].consumedBy.value;
              d in s.devices && s.devices[d].Live() && s.devices[d].dIndex >= 2 ==>
                |FreeSlots(ReleaseStep(s, token), s.devices[d].hub)| == |FreeSlots(s, s.devices[d].hub)| + 1
  {
    ReleaseTwice(s, token);
    if token in s.tokens && s.tokens[token].consumedBy.Some? {
      var d := s.tokens[token].consumedBy.value;
      if d in s.devices && s.devices[d].Live() && s.devices[d].dIndex >= 2 {
        ReleaseFreesSlot(s, token, d);
      }
    }
  }

  lemma ReleaseTwice(s: State, token: nat)
    ensures ReleaseStep(ReleaseStep(s, token), token) == ReleaseStep(s, token)
  {
    if token in s.tokens {
      var s1 := ReleaseStep(s, token);
      hide RemoveDevice;
      Released(s, token);
      assert s1.tokens[token := s1.tokens[token]] == s1.tokens;
    }
  }

  /** A released token is revoked, and its consumer is gone. */
  lemma Released(s: State, token: nat)
    requires token in s.tokens
    ensures var s1 := ReleaseStep(s, token);
            && token in s1.tokens && s1.tokens[token] == s.tokens[token].(revoked := true)
            && (s.tokens[token].consumedBy.Some? && s.tokens[token].consumedBy.value in s1.devices ==>
                  !s1.devices[s.tokens[token].consumedBy.value].Live())
  {
  }

  lemma ReleaseFreesSlot(s: State, token: nat, d: nat)
    requires Inv(s) && token in s.tokens && s.tokens[token].consumedBy == Some(d)
    requires d in s.devices && s.devices[d].Live() && s.devices[d].dIndex >= 2
    ensures |FreeSlots(ReleaseStep(s, token), s.devices[d].hub)| == |FreeSlots(s, s.devices[d].hub)| + 1
  {
    hide Inv, RemoveDevice;
    RetireFreesOneSlot(s, d);
    assert UsedDIndexes(ReleaseStep(s, token), s.devices[d].hub) == UsedDIndexes(RemoveStep(s, d), s.devices[d].hub);
  }
}
