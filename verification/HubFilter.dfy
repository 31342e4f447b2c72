/** The dedup loop of otherConfiguredHubs against its specification. */
module HubFilter {
  import opened Text
  import opened Cidr
  import opened Model
  import opened Queries
  import opened Steps
  import opened Invariants
  import opened Routing

  /** The other usable hubs, in order, with no dedup. */
  function UsableHubs(hubs: seq<Hub>, own: nat): (out: seq<Hub>)
    ensures forall h :: h in out <==> h in hubs && Usable(h, own)
  {
    if hubs == [] then [] else
      (if Usable(hubs[0], own) then [hubs[0]] else []) + UsableHubs(hubs[1..], own)
  }

  /** No two hubs of the list share a network. */
  ghost predicate DistinctNetworks(hubs: seq<Hub>) {
    forall i, j | 0 <= i < j < |hubs| && Parse(hubs[i].mesh).Some? && Parse(hubs[j].mesh).Some? ::
      Parse(hubs[i].mesh) != Parse(hubs[j].mesh)
  }

  ghost predicate Unseen(hubs: seq<Hub>, own: nat, seen: set<Prefix>) {
    forall h | h in hubs && Usable(h, own) :: Parse(h.mesh).value !in seen
  }

  lemma {:induction false} DedupIsFilter(hubs: seq<Hub>, own: nat, seen: set<Prefix>)
    requires DistinctNetworks(hubs) && Unseen(hubs, own, seen)
    ensures OtherHubs(hubs, own, seen) == UsableHubs(hubs, own)
  {
    if hubs == [] {
    } else {
      var h, rest := hubs[0], hubs[1..];
      assert DistinctNetworks(rest);
      assert Unseen(rest, own, seen);
      if Usable(h, own) {
        assert h in hubs;
        var seen' := seen + {Parse(h.mesh).value};
        forall k | k in rest && Usable(k, own) ensures Parse(k.mesh).value !in seen' {
          var j :| 0 <= j < |rest| && rest[j] == k;
          assert hubs[j + 1] == k;
        }
        DedupIsFilter(rest, own, seen');
      } else {
        DedupIsFilter(rest, own, seen);
      }
    }
  }

  lemma {:induction false} ListingSorted(m: map<nat, Hub>, n: nat)
    requires forall i | i in m :: m[i].id == i
    ensures forall h | h in Listing(m, n) :: h.id < n && h.id in m && m[h.id] == h
    ensures forall i, j | 0 <= i < j < |Listing(m, n)| :: Listing(m, n)[i].id < Listing(m, n)[j].id
  {
    if n == 0 {
    } else {
      ListingSorted(m, n - 1);
    }
  }

  lemma HubsSorted(s: State)
    requires Inv(s)
    ensures forall h | h in Hubs(s) :: h.id in s.hubs && s.hubs[h.id] == h
    ensures forall i, j | 0 <= i < j < |Hubs(s)| :: Hubs(s)[i].id < Hubs(s)[j].id
    ensures forall i | i in s.hubs :: s.hubs[i] in Hubs(s)
  {
    forall i | i in s.hubs ensures s.hubs[i].id == i && i < s.nextHub {
      assert RowOk(s, i);
    }
    ListingSorted(s.hubs, s.nextHub);
  }

  lemma NetworksApart(s: State, i: nat, j: nat)
    requires Inv(s) && i in s.hubs && j in s.hubs && i != j
    ensures Parse(s.hubs[i].mesh).Some? && Parse(s.hubs[j].mesh).Some?
    ensures Parse(s.hubs[i].mesh) != Parse(s.hubs[j].mesh)
  {
    assert RowOk(s, i) && RowOk(s, j) && Apart(s, i, j);
  }

  /** In every reachable database the dedup never drops a hub: the loop returns the other
      usable hubs in id order. */
  lemma OtherHubsIsFilter(s: State, own: nat)
    requires Inv(s) && own in s.hubs
    ensures OtherHubs(Hubs(s), own, OwnNetwork(s.hubs[own].mesh)) == UsableHubs(Hubs(s), own)
  {
    HubsSorted(s);
    var hubs := Hubs(s);
    forall i, j | 0 <= i < j < |hubs| ensures Parse(hubs[i].mesh) != Parse(hubs[j].mesh) {
      assert hubs[i] in hubs && hubs[j] in hubs;
      NetworksApart(s, hubs[i].id, hubs[j].id);
    }
    forall h | h in hubs && Usable(h, own) ensures Parse(h.mesh).value !in OwnNetwork(s.hubs[own].mesh) {
      NetworksApart(s, h.id, own);
    }
    DedupIsFilter(hubs, own, OwnNetwork(s.hubs[own].mesh));
  }

  lemma {:induction false} UsableSorted(hubs: seq<Hub>, own: nat)
    requires forall i, j | 0 <= i < j < |hubs| :: hubs[i].id < hubs[j].id
    ensures forall i, j | 0 <= i < j < |UsableHubs(hubs, own)| ::
            UsableHubs(hubs, own)[i].id < UsableHubs(hubs, own)[j].id
  {
    if hubs == [] {
    } else {
      UsableSorted(hubs[1..], own);
      var rest := UsableHubs(hubs[1..], own);
      forall h | h in rest ensures hubs[0].id < h.id {
        var k :| 0 <= k < |hubs[1..]| && hubs[1..][k] == h;
        assert hubs[k + 1] == h;
      }
    }
  }

  lemma {:induction false} LinkedDistinct(hubs: seq<Hub>, linked: set<nat>, skip: set<nat>)
    requires forall h | h in hubs :: Parse(h.mesh).Some?
    requires DistinctNetworks(hubs)
    ensures forall i, j | 0 <= i < j < |LinkedNetworks(hubs, linked, skip)| ::
              LinkedNetworks(hubs, linked, skip)[i] != LinkedNetworks(hubs, linked, skip)[j]
  {
    if hubs == [] {
    } else {
      var rest := hubs[1..];
      assert DistinctNetworks(rest);
      LinkedDistinct(rest, linked, skip);
      var tail := LinkedNetworks(rest, linked, skip);
      assert hubs[0].id in linked && hubs[0].id !in skip ==>
               LinkedNetworks(hubs, linked, skip) == [MeshNetwork(hubs[0].mesh)] + tail;
      assert !(hubs[0].id in linked && hubs[0].id !in skip) ==> LinkedNetworks(hubs, linked, skip) == tail;
      forall r | r in tail ensures r != MeshNetwork(hubs[0].mesh) {
        var h :| h in rest && r == MeshNetwork(h.mesh);
        var k :| 0 <= k < |rest| && rest[k] == h;
        assert hubs[k + 1] == h;
      }
      assert forall j | 0 <= j < |tail| :: tail[j] in tail;
    }
  }

  /** The networks come in the order of their hubs. */
  lemma {:induction false} NetworksInOrder(a: seq<Hub>, h: Hub, b: seq<Hub>, linked: set<nat>, skip: set<nat>)
    requires Parse(h.mesh).Some?
    ensures LinkedNetworks(a + [h] + b, linked, skip)
            == LinkedNetworks(a, linked, skip)
               + (if h.id in linked && h.id !in skip then [Spell(Parse(h.mesh).value)] else [])
               + LinkedNetworks(b, linked, skip)
  {
    if a == [] {
      assert a + [h] + b == [h] + b && ([h] + b)[1..] == b;
    } else {
      assert (a + [h] + b)[1..] == a[1..] + [h] + b;
      NetworksInOrder(a[1..], h, b, linked, skip);
    }
  }

  /** A spoke's cross-hub routes: exactly the networks of the other configured, endpointed,
      linked and unskipped hubs, in hub order and without repeats. */
  lemma CrossHubExtraExact(s: State, own: nat, linked: set<nat>, skip: set<nat>)
    requires Inv(s) && own in s.hubs
    ensures var out := CrossHubExtra(Hubs(s), own, s.hubs[own].mesh, linked, skip);
            && out == LinkedNetworks(UsableHubs(Hubs(s), own), linked, skip)
            && (forall i, j | 0 <= i < j < |out| :: out[i] != out[j])
            && (forall r :: r in out <==> exists h :: h in s.hubs && Usable(s.hubs[h], own) && h in linked && h !in skip
                                                      && r == Spell(Parse(s.hubs[h].mesh).value))
  {
    OtherHubsIsFilter(s, own);
    HubsSorted(s);
    var usable := UsableHubs(Hubs(s), own);
    UsableSorted(Hubs(s), own);
    forall i, j | 0 <= i < j < |usable| ensures Parse(usable[i].mesh) != Parse(usable[j].mesh) {
      assert usable[i] in usable && usable[j] in usable;
      NetworksApart(s, usable[i].id, usable[j].id);
    }
    LinkedDistinct(usable, linked, skip);
    var out := LinkedNetworks(usable, linked, skip);
    forall r | r in out
      ensures exists h :: h in s.hubs && Usable(s.hubs[h], own) && h in linked && h !in skip
                          && r == Spell(Parse(s.hubs[h].mesh).value)
    {
      var h :| h in usable && h.id in linked && h.id !in skip && r == MeshNetwork(h.mesh);
      assert h.id in s.hubs && s.hubs[h.id] == h;
    }
    forall h | h in s.hubs && Usable(s.hubs[h], own) && h in linked && h !in skip
      ensures Spell(Parse(s.hubs[h].mesh).value) in out
    {
      assert RowOk(s, h);
      assert s.hubs[h] in usable;
    }
  }

  /** Why disjointness is needed: dedup runs before the link filter, so an unlinked hub earlier
      in the list hides a linked one with the same network. */
  lemma DedupHidesLinked(own: CidrText, first: Hub, second: Hub)
    requires first.id == 2 && second.id == 3 && Usable(first, 1) && Usable(second, 1)
    requires Parse(first.mesh) == Parse(second.mesh) && Parse(own) != Parse(first.mesh)
    ensures CrossHubExtra([first, second], 1, own, {3}, {}) == []
    ensures LinkedNetworks(UsableHubs([first, second], 1), {3}, {}) == [Spell(Parse(second.mesh).value)]
  {
    var hubs := [first, second];
    assert hubs[1..] == [second] && hubs[1..][1..] == [];
    var seen := OwnNetwork(own);
    assert OtherHubs([second], 1, seen + {Parse(first.mesh).value})
           == OtherHubs([], 1, seen + {Parse(first.mesh).value}) == [];
    assert OtherHubs(hubs, 1, seen) == [first];
    assert LinkedNetworks([first], {3}, {}) == LinkedNetworks([], {3}, {}) == [];
    assert UsableHubs([second], 1) == [second] + UsableHubs([], 1) == [second];
    assert UsableHubs(hubs, 1) == [first, second];
    assert LinkedNetworks([second], {3}, {}) == [Spell(Parse(second.mesh).value)] + LinkedNetworks([], {3}, {});
    assert LinkedNetworks(hubs, {3}, {}) == LinkedNetworks([second], {3}, {});
  }

  /** The fabric peers of a hub: exactly the other configured, endpointed, linked hubs. */
  lemma FabricExact(s: State, own: nat, p: Peer)
    requires Inv(s) && own in s.hubs
    ensures p in OtherHubPeers(Hubs(s), own, s.hubs[own].mesh, LinkSet(s, own)) <==>
              exists h :: h in s.hubs && Usable(s.hubs[h], own) && h in LinkSet(s, own) && p == FabricPeer(s.hubs[h])
  {
    OtherHubsIsFilter(s, own);
    HubsSorted(s);
    var usable := UsableHubs(Hubs(s), own);
    if p in OtherHubPeers(Hubs(s), own, s.hubs[own].mesh, LinkSet(s, own)) {
      var h :| h in usable && h.id in LinkSet(s, own) && p == FabricPeer(h);
      assert h.id in s.hubs && s.hubs[h.id] == h;
    }
    if h :| h in s.hubs && Usable(s.hubs[h], own) && h in LinkSet(s, own) && p == FabricPeer(s.hubs[h]) {
      assert RowOk(s, h);
      assert s.hubs[h] in usable;
    }
  }
}
