/**
 Which stranded record a recover event picks: `buildNeedDispatchProtocol` and
 `getScheduleOneProtocol` in `pkg/deploy/protocol_coordinator.go`, as functions of the response
 to the node scan.
 */
module Selection {
  import opened Wrappers
  import opened Store
  import opened View

  // The records of a response whose liveness key is absent, in the order of the response.
  function Stranded(kvs: seq<ProtocolInfo>, store: Store): (s: seq<ProtocolInfo>)
    ensures forall r :: r in s <==> r in kvs && r !in store.leased
  {
    if kvs == [] then []
    else
      var init := Stranded(kvs[..|kvs| - 1], store);
      var r := kvs[|kvs| - 1];
      assert kvs == kvs[..|kvs| - 1] + [r];
      if r in store.leased then init else init + [r]
  }

  function Take<T>(s: seq<T>, n: nat): seq<T> {
    if n <= |s| then s[..n] else s
  }

  // The first candidate whose slot is this coordinator's.
  function FirstOwned(view: seq<NodeInfo>, c: NodeId, hash: string -> nat,
                      candidates: seq<ProtocolInfo>): Option<ProtocolInfo> {
    if candidates == [] then None
    else if Owns(view, c, hash(candidates[0].id)) then Some(candidates[0])
    else FirstOwned(view, c, hash, candidates[1..])
  }

  // The choice of one recover event: as many candidates are looked at as there are coordinators.
  function Selected(view: seq<NodeInfo>, c: NodeId, hash: string -> nat, kvs: seq<ProtocolInfo>,
                    store: Store): Option<ProtocolInfo> {
    FirstOwned(view, c, hash, Take(Stranded(kvs, store), |view|))
  }

  ghost predicate OwnsNone(view: seq<NodeInfo>, c: NodeId, hash: string -> nat, s: seq<ProtocolInfo>) {
    forall i :: 0 <= i < |s| ==> !Owns(view, c, hash(s[i].id))
  }

  lemma {:induction false} FirstOwnedMeaning(view: seq<NodeInfo>, c: NodeId, hash: string -> nat, s: seq<ProtocolInfo>)
    ensures FirstOwned(view, c, hash, s).None? <==> OwnsNone(view, c, hash, s)
    ensures FirstOwned(view, c, hash, s).Some? ==>
              exists i :: 0 <= i < |s| && s[i] == FirstOwned(view, c, hash, s).value
                          && Owns(view, c, hash(s[i].id)) && forall j :: 0 <= j < i ==> !Owns(view, c, hash(s[j].id))
  {
    if s != [] && !Owns(view, c, hash(s[0].id)) {
      var rest := s[1..];
      FirstOwnedMeaning(view, c, hash, rest);
      assert forall i :: 0 <= i < |rest| ==> rest[i] == s[i + 1];
      if FirstOwned(view, c, hash, rest).Some? {
        var i :| 0 <= i < |rest| && rest[i] == FirstOwned(view, c, hash, rest).value
                 && Owns(view, c, hash(rest[i].id)) && forall j :: 0 <= j < i ==> !Owns(view, c, hash(rest[j].id));
        assert s[i + 1] == rest[i];
        forall j | 0 <= j < i + 1
          ensures !Owns(view, c, hash(s[j].id))
        {
          assert j > 0 ==> s[j] == rest[j - 1];
        }
      } else {
        forall i | 0 <= i < |s|
          ensures !Owns(view, c, hash(s[i].id))
        {
          assert i > 0 ==> s[i] == rest[i - 1];
        }
      }
    }
  }

  lemma OwnsNoneOfTaken(view: seq<NodeInfo>, c: NodeId, hash: string -> nat, all: seq<ProtocolInfo>, n: nat)
    ensures FirstOwned(view, c, hash, Take(all, n)).None? <==>
            forall i :: 0 <= i < |all| && i < n ==> !Owns(view, c, hash(all[i].id))
  {
    var s := Take(all, n);
    FirstOwnedMeaning(view, c, hash, s);
    assert forall i :: 0 <= i < |s| ==> s[i] == all[i];
    if i :| 0 <= i < |all| && i < n && Owns(view, c, hash(all[i].id)) {
      assert s[i] == all[i];
    }
  }

  /**
   A recover event finds nothing, and so deletes the recover key, exactly when the coordinator owns
   none of the stranded records, as far as there are coordinators in its view.
   */
  lemma GivesUpIff(view: seq<NodeInfo>, c: NodeId, hash: string -> nat, kvs: seq<ProtocolInfo>, store: Store)
    ensures Selected(view, c, hash, kvs, store).None? <==>
            forall i :: 0 <= i < |Stranded(kvs, store)| && i < |view| ==>
              !Owns(view, c, hash(Stranded(kvs, store)[i].id))
  {
    OwnsNoneOfTaken(view, c, hash, Stranded(kvs, store), |view|);
  }

  lemma FirstOwnedOfTaken(view: seq<NodeInfo>, c: NodeId, hash: string -> nat, all: seq<ProtocolInfo>, n: nat, i: nat)
    requires i < |all| && i < n && Owns(view, c, hash(all[i].id))
    requires forall j :: 0 <= j < i ==> !Owns(view, c, hash(all[j].id))
    ensures FirstOwned(view, c, hash, Take(all, n)) == Some(all[i])
  {
    var s := Take(all, n);
    FirstOwnedMeaning(view, c, hash, s);
    assert forall j :: 0 <= j < |s| ==> s[j] == all[j];
    assert s[i] == all[i];
  }

  /** What it finds otherwise: the first stranded record it owns, within the first |view|. */
  lemma SelectsTheFirstOwned(view: seq<NodeInfo>, c: NodeId, hash: string -> nat, kvs: seq<ProtocolInfo>, store: Store,
                             i: nat)
    requires i < |Stranded(kvs, store)| && i < |view| && Owns(view, c, hash(Stranded(kvs, store)[i].id))
    requires forall j :: 0 <= j < i ==> !Owns(view, c, hash(Stranded(kvs, store)[j].id))
    ensures Selected(view, c, hash, kvs, store) == Some(Stranded(kvs, store)[i])
  {
    FirstOwnedOfTaken(view, c, hash, Stranded(kvs, store), |view|, i);
  }

  /** The stranded records of a response: those without a liveness key, in the order of the response. */
  lemma StrandedMeaning(kvs: seq<ProtocolInfo>, r: ProtocolInfo, store: Store)
    ensures Stranded([], store) == []
    ensures Stranded(kvs + [r], store) == if r in store.leased then Stranded(kvs, store) else Stranded(kvs, store) + [r]
  {
    assert (kvs + [r])[..|kvs|] == kvs;
  }

  // The slots of the candidates, in their order.
  ghost function Slots(view: seq<NodeInfo>, hash: string -> nat, s: seq<ProtocolInfo>): (r: seq<nat>)
    requires view != []
    ensures |r| == |s| && forall i :: 0 <= i < |s| ==> r[i] == hash(s[i].id) % |view| < |view|
  {
    seq(|s|, i requires 0 <= i < |s| => hash(s[i].id) % |view|)
  }

  ghost predicate Covers(s: seq<nat>, n: nat) {
    forall j :: 0 <= j < n ==> j in s
  }

  ghost predicate AllDifferent(s: seq<nat>) {
    s == [] || (s[|s| - 1] !in s[..|s| - 1] && AllDifferent(s[..|s| - 1]))
  }

  ghost function Below(n: nat): (r: set<nat>)
    ensures |r| == n && forall j: nat :: j in r <==> j < n
  {
    if n == 0 then {} else Below(n - 1) + {n - 1}
  }

  ghost function Members(s: seq<nat>): (r: set<nat>)
    ensures |r| <= |s| && forall x :: x in r <==> x in s
  {
    if s == [] then {}
    else
      assert s == s[..|s| - 1] + [s[|s| - 1]];
      Members(s[..|s| - 1]) + {s[|s| - 1]}
  }

  // A sequence has as many members as places exactly when it repeats nothing.
  lemma {:induction false} MembersCount(s: seq<nat>)
    ensures |Members(s)| == |s| <==> AllDifferent(s)
  {
    if s != [] {
      var init, x := s[..|s| - 1], s[|s| - 1];
      MembersCount(init);
      assert x in init ==> Members(s) == Members(init);
    }
  }

  // At most n numbers below n include all of them exactly when they are n different ones.
  lemma CoversIffDistinct(s: seq<nat>, n: nat)
    requires |s| <= n && forall i :: 0 <= i < |s| ==> s[i] < n
    ensures Covers(s, n) <==> |s| == n && AllDifferent(s)
  {
    assert Members(s) <= Below(n);
    SubsetCount(Members(s), Below(n));
    MembersCount(s);
    assert Covers(s, n) <==> Members(s) == Below(n) by {
      if Members(s) == Below(n) {
        assert forall j: nat :: j < n ==> j in Members(s);
      }
    }
  }

  lemma OwnsOneIff(view: seq<NodeInfo>, hash: string -> nat, s: seq<ProtocolInfo>, j: nat)
    requires DistinctIds(view) && j < |view|
    ensures FirstOwned(view, view[j].Id(), hash, s).Some? <==> j in Slots(view, hash, s)
  {
    var c := view[j].Id();
    assert FirstAt(view, c, j);
    SlotMeaning(view, c);
    assert Slot(view, c) == j;
    FirstOwnedMeaning(view, c, hash, s);
    assert forall i :: 0 <= i < |s| ==> (Owns(view, c, hash(s[i].id)) <==> Slots(view, hash, s)[i] == j);
  }

  /**
   When a recover key outlives an event that all coordinators of a shared, duplicate-free view
   handle: none of them deletes it exactly when there are at least as many stranded records as
   coordinators and the first of them have pairwise different slots.
   */
  lemma KeySurvivesIff(view: seq<NodeInfo>, hash: string -> nat, kvs: seq<ProtocolInfo>, store: Store)
    requires view != [] && DistinctIds(view)
    ensures var s := Take(Stranded(kvs, store), |view|);
            (forall j :: 0 <= j < |view| ==> Selected(view, view[j].Id(), hash, kvs, store).Some?) <==>
            |s| == |view| && AllDifferent(Slots(view, hash, s))
  {
    var s := Take(Stranded(kvs, store), |view|);
    forall j | 0 <= j < |view|
      ensures Selected(view, view[j].Id(), hash, kvs, store).Some? <==> j in Slots(view, hash, s)
    {
      OwnsOneIff(view, hash, s, j);
    }
    CoversIffDistinct(Slots(view, hash, s), |view|);
  }

  /** A coordinator alone in its view gives up exactly when nothing is stranded, and else takes the first. */
  lemma AloneTakesTheFirst(self: NodeInfo, hash: string -> nat, kvs: seq<ProtocolInfo>, store: Store)
    ensures Selected([self], self.Id(), hash, kvs, store) ==
            if Stranded(kvs, store) == [] then None else Some(Stranded(kvs, store)[0])
  {
    SlotMeaning([self], self.Id());
    if Stranded(kvs, store) != [] {
      assert Owns([self], self.Id(), hash(Stranded(kvs, store)[0].id));
    }
  }

  /**
   With more coordinators the key can go while records are still stranded: one that owns nothing
   among the first |view| of them deletes it.
   */
  lemma KeyCanGoTooEarly(a: NodeInfo, b: NodeInfo, r: ProtocolInfo, hash: string -> nat, store: Store)
    requires a.Id() != b.Id() && hash(r.id) == 0 && r !in store.leased
    ensures Selected([a, b], b.Id(), hash, [r], store).None? && Stranded([r], store) == [r]
  {
    assert [r][..0] == [];
    assert Stranded([r], store) == [r];
    SlotMeaning([a, b], b.Id());
    assert [a, b][1].Id() == b.Id();
    assert InView([a, b], b.Id());
    GivesUpIff([a, b], b.Id(), hash, [r], store);
  }
}
