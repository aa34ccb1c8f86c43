/**
 The coordinators' view of each other: the fold over the deploy-node watch in `register`
 (`pkg/deploy/protocol_coordinator.go`), the slot of a coordinator in its view, and the
 `hash % len(view)` rule that decides which coordinator dispatches a protocol.
 */
module View {
  datatype NodeId = NodeId(host: string, port: int)

  datatype NodeInfo = NodeInfo(host: string, port: int, timestamp: int)
  {
    function Id(): NodeId {
      NodeId(host, port)
    }
  }

  // A DELETE event carries the previous value, so both kinds name a node.
  datatype Event = Put(node: NodeInfo) | Delete(node: NodeInfo)

  // The first entry of the node gets the new timestamp, or the node is appended.
  function Upsert(view: seq<NodeInfo>, n: NodeInfo): seq<NodeInfo> {
    if view == [] then [n]
    else if view[0].Id() == n.Id() then [view[0].(timestamp := n.timestamp)] + view[1..]
    else [view[0]] + Upsert(view[1..], n)
  }

  function Without(view: seq<NodeInfo>, k: NodeId): seq<NodeInfo> {
    if view == [] then []
    else if view[0].Id() == k then Without(view[1..], k)
    else [view[0]] + Without(view[1..], k)
  }

  function ApplyEvent(view: seq<NodeInfo>, e: Event): seq<NodeInfo> {
    match e
    case Put(n) => Upsert(view, n)
    case Delete(n) => Without(view, n.Id())
  }

  function ApplyAll(view: seq<NodeInfo>, log: seq<Event>): seq<NodeInfo> {
    if log == [] then view
    else ApplyEvent(ApplyAll(view, log[..|log| - 1]), log[|log| - 1])
  }

  // What each event does to any view, also to one that lists a node twice: a PUT changes the timestamp
  // of the first entry of the node or appends it, a DELETE drops every entry of the node.
  lemma UpsertMeaning(before: seq<NodeInfo>, after: seq<NodeInfo>, m: NodeInfo, n: NodeInfo)
    requires forall x :: x in before ==> x.Id() != n.Id()
    ensures ApplyEvent(before, Put(n)) == before + [n]
    ensures m.host == n.host && m.port == n.port ==>
              ApplyEvent(before + ([m] + after), Put(n)) == before + ([NodeInfo(m.host, m.port, n.timestamp)] + after)
  {
    UpsertSkips(before, [], n);
    assert before + [] == before;
    UpsertSkips(before, [m] + after, n);
    assert ([m] + after)[1..] == after;
  }

  lemma {:induction false} UpsertSkips(before: seq<NodeInfo>, rest: seq<NodeInfo>, n: NodeInfo)
    requires forall x :: x in before ==> x.Id() != n.Id()
    ensures Upsert(before + rest, n) == before + Upsert(rest, n)
  {
    if before == [] {
      assert before + rest == rest;
    } else {
      var view := before + rest;
      UpsertSkips(before[1..], rest, n);
      assert view[1..] == before[1..] + rest && view[0] == before[0];
      assert before[0] in before;
      assert before == [before[0]] + before[1..];
    }
  }

  lemma {:induction false} WithoutMeaning(view: seq<NodeInfo>, view': seq<NodeInfo>, n: NodeInfo, x: NodeInfo)
    ensures ApplyEvent([], Delete(n)) == []
    ensures ApplyEvent([x], Delete(n)) == if x.host == n.host && x.port == n.port then [] else [x]
    ensures ApplyEvent(view + view', Delete(n)) == ApplyEvent(view, Delete(n)) + ApplyEvent(view', Delete(n))
  {
    assert [x][1..] == [];
    if view == [] {
      assert view + view' == view';
    } else {
      assert (view + view')[1..] == view[1..] + view';
      WithoutMeaning(view[1..], view', n, x);
    }
  }

  ghost predicate DistinctIds(view: seq<NodeInfo>) {
    forall i, j :: 0 <= i < j < |view| ==> view[i].Id() != view[j].Id()
  }

  // ---------------------------------------------------------------- what a log says

  ghost predicate About(e: Event, k: NodeId) {
    e.node.Id() == k
  }

  // The last event about k is at l.
  ghost predicate LastAt(log: seq<Event>, k: NodeId, l: int) {
    0 <= l < |log| && About(log[l], k) && forall j :: l < j < |log| ==> !About(log[j], k)
  }

  // k is in etcd after the log.
  ghost predicate Present(log: seq<Event>, k: NodeId) {
    exists l :: LastAt(log, k, l) && log[l].Put?
  }

  // k was inserted at b for the last time: a PUT, nothing but PUTs of k from there on, and every
  // earlier PUT of k was undone by a DELETE before b.
  ghost predicate BornAt(log: seq<Event>, k: NodeId, b: int) {
    && 0 <= b < |log| && About(log[b], k) && log[b].Put?
    && (forall j :: b <= j < |log| && About(log[j], k) ==> log[j].Put?)
    && (forall j :: 0 <= j < b && About(log[j], k) && log[j].Put? ==> DeletedBetween(log, k, j, b))
  }

  ghost predicate DeletedBetween(log: seq<Event>, k: NodeId, j: int, b: int)
    requires 0 <= j <= b <= |log|
  {
    exists m :: j < m < b && About(log[m], k) && log[m].Delete?
  }

  /**
   The view is the store: exactly the nodes present after the log, each with the value of its
   last PUT, in the order in which they were inserted since their last removal.
   */
  ghost predicate Reflects(log: seq<Event>, view: seq<NodeInfo>, births: seq<int>) {
    && |births| == |view|
    && (forall i, j :: 0 <= i < j < |births| ==> births[i] < births[j])
    && (forall i :: 0 <= i < |view| ==> BornAt(log, view[i].Id(), births[i]))
    && (forall i :: 0 <= i < |view| ==> HasLastValue(log, view[i]))
    && (forall k :: Present(log, k) ==> InView(view, k))
  }

  ghost predicate HasLastValue(log: seq<Event>, n: NodeInfo) {
    exists l :: LastAt(log, n.Id(), l) && log[l] == Put(n)
  }

  ghost predicate InView(view: seq<NodeInfo>, k: NodeId) {
    exists i :: 0 <= i < |view| && view[i].Id() == k
  }

  // ---------------------------------------------------------------- the fold reflects its log

  lemma {:induction false} FindLast(log: seq<Event>, k: NodeId, j: nat) returns (l: int)
    requires j < |log| && About(log[j], k)
    ensures LastAt(log, k, l) && j <= l
  {
    var n := |log| - 1;
    if About(log[n], k) {
      l := n;
    } else {
      l := FindLast(log[..n], k, j);
    }
  }

  lemma BirthIsUnique(log: seq<Event>, k: NodeId, b: int, c: int)
    requires BornAt(log, k, b) && BornAt(log, k, c)
    ensures b == c
  {}

  lemma ReflectedIdsAreDistinct(log: seq<Event>, view: seq<NodeInfo>, births: seq<int>)
    requires Reflects(log, view, births)
    ensures DistinctIds(view)
  {}

  lemma BornStays(log: seq<Event>, e: Event, k: NodeId, b: int)
    requires BornAt(log, k, b) && !(About(e, k) && e.Delete?)
    ensures BornAt(log + [e], k, b)
  {
    var log' := log + [e];
    forall j | 0 <= j < b && About(log'[j], k) && log'[j].Put?
      ensures DeletedBetween(log', k, j, b)
    {
      assert DeletedBetween(log, k, j, b);
      var m :| j < m < b && About(log[m], k) && log[m].Delete?;
      assert About(log'[m], k) && log'[m].Delete?;
    }
  }

  lemma ValueStays(log: seq<Event>, e: Event, n: NodeInfo)
    requires HasLastValue(log, n) && !About(e, n.Id())
    ensures HasLastValue(log + [e], n)
  {
    var l :| LastAt(log, n.Id(), l) && log[l] == Put(n);
    assert LastAt(log + [e], n.Id(), l);
  }

  lemma PresentBefore(log: seq<Event>, e: Event, k: NodeId)
    requires Present(log + [e], k) && !About(e, k)
    ensures Present(log, k)
  {
    var l :| LastAt(log + [e], k, l) && (log + [e])[l].Put?;
    assert (log + [e])[|log|] == e;
    assert forall j :: 0 <= j < |log| ==> (log + [e])[j] == log[j];
    assert LastAt(log, k, l);
  }

  lemma PutIsLast(log: seq<Event>, n: NodeInfo)
    ensures HasLastValue(log + [Put(n)], n)
    ensures Present(log + [Put(n)], n.Id())
  {
    assert LastAt(log + [Put(n)], n.Id(), |log|);
  }

  lemma FirstInsertion(log: seq<Event>, n: NodeInfo)
    requires !Present(log, n.Id())
    ensures BornAt(log + [Put(n)], n.Id(), |log|)
  {
    var log', k := log + [Put(n)], n.Id();
    forall j | 0 <= j < |log| && About(log'[j], k) && log'[j].Put?
      ensures DeletedBetween(log', k, j, |log|)
    {
      var l := FindLast(log, k, j);
      assert log[l].Delete?;
      assert About(log'[l], k) && log'[l].Delete?;
    }
  }

  lemma {:induction false} UpsertKnown(view: seq<NodeInfo>, n: NodeInfo) returns (i: nat)
    requires InView(view, n.Id())
    ensures i < |view| && view[i].Id() == n.Id() && Upsert(view, n) == view[i := n]
  {
    if view[0].Id() == n.Id() {
      i := 0;
      assert view[0].(timestamp := n.timestamp) == n;
    } else {
      var j :| 0 <= j < |view| && view[j].Id() == n.Id();
      assert view[1..][j - 1] == view[j];
      var k := UpsertKnown(view[1..], n);
      i := k + 1;
      assert view == [view[0]] + view[1..];
    }
  }

  lemma {:induction false} UpsertNew(view: seq<NodeInfo>, n: NodeInfo)
    requires !InView(view, n.Id())
    ensures Upsert(view, n) == view + [n]
  {
    if view != [] {
      assert view[0].Id() != n.Id();
      assert forall j :: 0 <= j < |view| - 1 ==> view[1..][j] == view[j + 1];
      UpsertNew(view[1..], n);
      assert view == [view[0]] + view[1..];
    }
  }

  lemma {:induction false} WithoutUnknown(view: seq<NodeInfo>, k: NodeId)
    requires !InView(view, k)
    ensures Without(view, k) == view
  {
    if view != [] {
      assert view[0].Id() != k;
      assert forall j :: 0 <= j < |view| - 1 ==> view[1..][j] == view[j + 1];
      WithoutUnknown(view[1..], k);
    }
  }

  lemma {:induction false} WithoutKnown(view: seq<NodeInfo>, k: NodeId, i: nat)
    requires DistinctIds(view) && i < |view| && view[i].Id() == k
    ensures Without(view, k) == view[..i] + view[i + 1..]
  {
    assert view == [view[0]] + view[1..];
    if i == 0 {
      assert forall j :: 0 <= j < |view| - 1 ==> view[1..][j] == view[j + 1];
      WithoutUnknown(view[1..], k);
    } else {
      WithoutKnown(view[1..], k, i - 1);
      assert view[1..][..i - 1] == view[1..i];
      assert view[1..][i..] == view[i + 1..];
    }
  }

  lemma ReflectPutKnown(log: seq<Event>, view: seq<NodeInfo>, births: seq<int>, n: NodeInfo)
    requires Reflects(log, view, births) && InView(view, n.Id())
    ensures Reflects(log + [Put(n)], Upsert(view, n), births)
  {
    var i := UpsertKnown(view, n);
    var log', view' := log + [Put(n)], Upsert(view, n);
    ReflectedIdsAreDistinct(log, view, births);
    PutIsLast(log, n);
    forall j | 0 <= j < |view'|
      ensures BornAt(log', view'[j].Id(), births[j]) && HasLastValue(log', view'[j])
    {
      BornStays(log, Put(n), view[j].Id(), births[j]);
      if j != i {
        ValueStays(log, Put(n), view[j]);
      }
    }
    forall k | Present(log', k)
      ensures InView(view', k)
    {
      if k == n.Id() {
        assert view'[i].Id() == k;
      } else {
        PresentBefore(log, Put(n), k);
        var j :| 0 <= j < |view| && view[j].Id() == k;
        assert view'[j].Id() == k;
      }
    }
  }

  lemma ReflectPutNew(log: seq<Event>, view: seq<NodeInfo>, births: seq<int>, n: NodeInfo)
    requires Reflects(log, view, births) && !InView(view, n.Id())
    ensures Reflects(log + [Put(n)], Upsert(view, n), births + [|log|])
  {
    UpsertNew(view, n);
    var log', view', births' := log + [Put(n)], Upsert(view, n), births + [|log|];
    PutIsLast(log, n);
    FirstInsertion(log, n);
    forall j | 0 <= j < |view'|
      ensures BornAt(log', view'[j].Id(), births'[j]) && HasLastValue(log', view'[j])
    {
      if j < |view| {
        assert view[j].Id() != n.Id();
        BornStays(log, Put(n), view[j].Id(), births[j]);
        ValueStays(log, Put(n), view[j]);
      }
    }
    forall k | Present(log', k)
      ensures InView(view', k)
    {
      if k == n.Id() {
        assert view'[|view|].Id() == k;
      } else {
        PresentBefore(log, Put(n), k);
        var j :| 0 <= j < |view| && view[j].Id() == k;
        assert view'[j].Id() == k;
      }
    }
  }

  lemma SurvivesDelete(log: seq<Event>, n: NodeInfo, o: NodeInfo, b: int)
    requires BornAt(log, o.Id(), b) && HasLastValue(log, o) && o.Id() != n.Id()
    ensures BornAt(log + [Delete(n)], o.Id(), b) && HasLastValue(log + [Delete(n)], o)
  {
    BornStays(log, Delete(n), o.Id(), b);
    ValueStays(log, Delete(n), o);
  }

  lemma DeletedIsAbsent(log: seq<Event>, n: NodeInfo)
    ensures !Present(log + [Delete(n)], n.Id())
  {
    var log' := log + [Delete(n)];
    forall l | LastAt(log', n.Id(), l)
      ensures log'[l].Delete?
    {
      assert About(log'[|log|], n.Id());
    }
  }

  lemma StillInView(log: seq<Event>, view: seq<NodeInfo>, n: NodeInfo, k: NodeId) returns (j: nat)
    requires forall k :: Present(log, k) ==> InView(view, k)
    requires Present(log + [Delete(n)], k)
    ensures k != n.Id() && j < |view| && view[j].Id() == k
  {
    DeletedIsAbsent(log, n);
    PresentBefore(log, Delete(n), k);
    j :| 0 <= j < |view| && view[j].Id() == k;
  }

  lemma ReflectDeleteUnknown(log: seq<Event>, view: seq<NodeInfo>, births: seq<int>, n: NodeInfo)
    requires Reflects(log, view, births) && !InView(view, n.Id())
    ensures Reflects(log + [Delete(n)], Without(view, n.Id()), births)
  {
    WithoutUnknown(view, n.Id());
    forall j | 0 <= j < |view|
      ensures BornAt(log + [Delete(n)], view[j].Id(), births[j]) && HasLastValue(log + [Delete(n)], view[j])
    {
      SurvivesDelete(log, n, view[j], births[j]);
    }
    forall k | Present(log + [Delete(n)], k)
      ensures InView(view, k)
    {
      var j := StillInView(log, view, n, k);
    }
  }

  lemma OthersSurviveDelete(log: seq<Event>, view: seq<NodeInfo>, births: seq<int>, n: NodeInfo, i: nat, j: nat)
    requires Reflects(log, view, births) && i < |view| && view[i].Id() == n.Id() && j < |view| - 1
    ensures var o := if j < i then j else j + 1;
            && (view[..i] + view[i + 1..])[j] == view[o] && (births[..i] + births[i + 1..])[j] == births[o]
            && BornAt(log + [Delete(n)], view[o].Id(), births[o]) && HasLastValue(log + [Delete(n)], view[o])
  {
    ReflectedIdsAreDistinct(log, view, births);
    var o := if j < i then j else j + 1;
    assert view[o].Id() != n.Id();
    SurvivesDelete(log, n, view[o], births[o]);
  }

  lemma NothingElseLost(log: seq<Event>, view: seq<NodeInfo>, births: seq<int>, n: NodeInfo, i: nat, k: NodeId)
    requires Reflects(log, view, births) && i < |view| && view[i].Id() == n.Id()
    requires Present(log + [Delete(n)], k)
    ensures InView(view[..i] + view[i + 1..], k)
  {
    var j := StillInView(log, view, n, k);
    assert (view[..i] + view[i + 1..])[if j < i then j else j - 1] == view[j];
  }

  lemma ReflectDeleteKnown(log: seq<Event>, view: seq<NodeInfo>, births: seq<int>, n: NodeInfo, i: nat)
    requires Reflects(log, view, births) && i < |view| && view[i].Id() == n.Id()
    ensures Reflects(log + [Delete(n)], view[..i] + view[i + 1..], births[..i] + births[i + 1..])
  {
    var view' := view[..i] + view[i + 1..];
    forall j | 0 <= j < |view'|
      ensures BornAt(log + [Delete(n)], view'[j].Id(), (births[..i] + births[i + 1..])[j])
      ensures HasLastValue(log + [Delete(n)], view'[j])
    {
      OthersSurviveDelete(log, view, births, n, i, j);
    }
    forall k | Present(log + [Delete(n)], k)
      ensures InView(view[..i] + view[i + 1..], k)
    {
      NothingElseLost(log, view, births, n, i, k);
    }
  }

  lemma {:induction false} FoldReflectsLog(log: seq<Event>) returns (births: seq<int>)
    ensures Reflects(log, ApplyAll([], log), births)
  {
    if log == [] {
      births := [];
    } else {
      var init, e := log[..|log| - 1], log[|log| - 1];
      assert log == init + [e];
      var before := FoldReflectsLog(init);
      var view := ApplyAll([], init);
      match e {
        case Put(n) =>
          if InView(view, n.Id()) {
            ReflectPutKnown(init, view, before, n);
            births := before;
          } else {
            ReflectPutNew(init, view, before, n);
            births := before + [|init|];
          }
        case Delete(n) =>
          if InView(view, n.Id()) {
            var i :| 0 <= i < |view| && view[i].Id() == n.Id();
            ReflectedIdsAreDistinct(init, view, before);
            WithoutKnown(view, n.Id(), i);
            ReflectDeleteKnown(init, view, before, n, i);
            births := before[..i] + before[i + 1..];
          } else {
            ReflectDeleteUnknown(init, view, before, n);
            births := before;
          }
      }
    }
  }

  // ---------------------------------------------------------------- starting from a snapshot

  ghost function Puts(view: seq<NodeInfo>): seq<Event> {
    seq(|view|, i requires 0 <= i < |view| => Put(view[i]))
  }

  lemma {:induction false} SnapshotIsItsPuts(view: seq<NodeInfo>)
    requires DistinctIds(view)
    ensures ApplyAll([], Puts(view)) == view
  {
    if view != [] {
      var init, n := view[..|view| - 1], view[|view| - 1];
      assert view == init + [n];
      assert Puts(view)[..|view| - 1] == Puts(init);
      SnapshotIsItsPuts(init);
      assert !InView(init, n.Id()) by {
        assert forall i :: 0 <= i < |init| ==> init[i] == view[i];
      }
      UpsertNew(init, n);
    }
  }

  lemma {:induction false} ApplyAllAppend(view: seq<NodeInfo>, a: seq<Event>, b: seq<Event>)
    ensures ApplyAll(view, a + b) == ApplyAll(ApplyAll(view, a), b)
  {
    if b == [] {
      assert a + b == a;
    } else {
      assert (a + b)[..|a + b| - 1] == a + b[..|b| - 1];
      ApplyAllAppend(view, a, b[..|b| - 1]);
    }
  }

  /** A duplicate-free snapshot followed by any watch log gives the store after that log. */
  lemma WatchedViewIsTheStore(snapshot: seq<NodeInfo>, log: seq<Event>) returns (births: seq<int>)
    requires DistinctIds(snapshot)
    ensures Reflects(Puts(snapshot) + log, ApplyAll(snapshot, log), births)
    ensures DistinctIds(ApplyAll(snapshot, log))
  {
    SnapshotIsItsPuts(snapshot);
    ApplyAllAppend([], Puts(snapshot), log);
    births := FoldReflectsLog(Puts(snapshot) + log);
    ReflectedIdsAreDistinct(Puts(snapshot) + log, ApplyAll(snapshot, log), births);
  }

  ghost predicate Increasing(s: seq<int>) {
    forall i, j :: 0 <= i < j < |s| ==> s[i] < s[j]
  }

  lemma AllButTheLast(s: seq<int>, x: int)
    requires Increasing(s) && s != []
    ensures x in s[..|s| - 1] <==> x in s && x != s[|s| - 1]
    ensures x in s ==> x <= s[|s| - 1]
  {}

  lemma {:induction false} IncreasingIsUnique(s: seq<int>, t: seq<int>)
    requires Increasing(s) && Increasing(t)
    requires forall x :: x in s <==> x in t
    ensures s == t
    decreases |s|
  {
    assert s != [] <==> t != [] by {
      if s != [] {
        assert s[0] in s && s[0] in t;
      }
      if t != [] {
        assert t[0] in t && t[0] in s;
      }
    }
    if s != [] {
      var m, n := |s| - 1, |t| - 1;
      AllButTheLast(s, t[n]);
      AllButTheLast(t, s[m]);
      assert s[m] in s && t[n] in t;
      forall x
        ensures x in s[..m] <==> x in t[..n]
      {
        AllButTheLast(s, x);
        AllButTheLast(t, x);
      }
      IncreasingIsUnique(s[..m], t[..n]);
      assert s == s[..m] + [s[m]] && t == t[..n] + [t[n]];
    }
  }

  lemma BirthsAreDetermined(log: seq<Event>, view: seq<NodeInfo>, births: seq<int>,
                            view': seq<NodeInfo>, births': seq<int>)
    requires Reflects(log, view, births) && Reflects(log, view', births')
    ensures forall x :: x in births ==> x in births'
  {
    forall x | x in births
      ensures x in births'
    {
      var i :| 0 <= i < |births| && births[i] == x;
      var k := view[i].Id();
      var l := FindLast(log, k, x);
      assert Present(log, k);
      assert InView(view', k);
      var j :| 0 <= j < |view'| && view'[j].Id() == k;
      BirthIsUnique(log, k, births'[j], x);
      assert births'[j] == x;
    }
  }

  /** `Reflects` leaves no freedom: the log determines the view, order and timestamps included. */
  lemma ReflectedViewIsUnique(log: seq<Event>, view: seq<NodeInfo>, births: seq<int>,
                              view': seq<NodeInfo>, births': seq<int>)
    requires Reflects(log, view, births) && Reflects(log, view', births')
    ensures view == view'
  {
    BirthsAreDetermined(log, view, births, view', births');
    BirthsAreDetermined(log, view', births', view, births);
    IncreasingIsUnique(births, births');
    forall i | 0 <= i < |view|
      ensures view[i] == view'[i]
    {
      assert About(log[births[i]], view[i].Id()) && About(log[births'[i]], view'[i].Id());
      var l :| LastAt(log, view[i].Id(), l) && log[l] == Put(view[i]);
      var m :| LastAt(log, view'[i].Id(), m) && log[m] == Put(view'[i]);
      assert l == m;
    }
  }

  // ---------------------------------------------------------------- slots and ownership

  // getCurrentSlot: the first position of the node, and 0 when it is not in the view.
  function Slot(view: seq<NodeInfo>, c: NodeId): (s: nat)
    ensures view != [] ==> s < |view|
  {
    SlotFrom(view, c, 0)
  }

  function SlotFrom(view: seq<NodeInfo>, c: NodeId, i: nat): (s: nat)
    requires i <= |view|
    ensures view != [] ==> s < |view|
    ensures s == 0 || i <= s
    decreases |view| - i
  {
    if i == |view| then 0
    else if view[i].Id() == c then i
    else SlotFrom(view, c, i + 1)
  }

  // The test a coordinator makes before it dispatches a protocol with this hash.
  predicate Owns(view: seq<NodeInfo>, c: NodeId, hash: nat) {
    view != [] && hash % |view| == Slot(view, c)
  }

  ghost predicate FirstAt(view: seq<NodeInfo>, c: NodeId, i: nat) {
    i < |view| && view[i].Id() == c && forall j :: 0 <= j < i ==> view[j].Id() != c
  }

  lemma {:induction false} SlotFromMeaning(view: seq<NodeInfo>, c: NodeId, i: nat)
    requires i <= |view| && forall j :: 0 <= j < i ==> view[j].Id() != c
    ensures InView(view, c) ==> FirstAt(view, c, SlotFrom(view, c, i))
    ensures !InView(view, c) ==> SlotFrom(view, c, i) == 0
    decreases |view| - i
  {
    if i < |view| && view[i].Id() != c {
      SlotFromMeaning(view, c, i + 1);
    }
  }

  lemma SlotMeaning(view: seq<NodeInfo>, c: NodeId)
    ensures InView(view, c) ==> FirstAt(view, c, Slot(view, c))
    ensures !InView(view, c) ==> Slot(view, c) == 0
  {
    SlotFromMeaning(view, c, 0);
  }

  /**
   Who passes the test, among any coordinators that share a view: the node whose first position
   is the hash's slot, and, when that slot is 0, also every coordinator missing from the view.
   */
  lemma DispatchersExactly(view: seq<NodeInfo>, hash: nat, c: NodeId)
    ensures view == [] ==> !Owns(view, c, hash)
    ensures view != [] ==>
              (Owns(view, c, hash) <==> FirstAt(view, c, hash % |view|) || (hash % |view| == 0 && !InView(view, c)))
  {
    SlotMeaning(view, c);
    if view == [] {
      return;
    }
    var s := hash % |view|;
    if InView(view, c) && FirstAt(view, c, s) {
      var t := Slot(view, c);
      assert s == t by {
        assert FirstAt(view, c, t);
      }
    }
  }

  /** Two coordinators in one shared view never both own a protocol, whatever the hash. */
  lemma AtMostOneDispatcher(view: seq<NodeInfo>, hash: nat, c: NodeId, d: NodeId)
    requires InView(view, c) && InView(view, d)
    requires Owns(view, c, hash) && Owns(view, d, hash)
    ensures c == d
  {
    DispatchersExactly(view, hash, c);
    DispatchersExactly(view, hash, d);
  }

  ghost predicate Owned(view: seq<NodeInfo>, hash: nat) {
    exists c :: InView(view, c) && Owns(view, c, hash)
  }

  /** Every hash has an owner in the view exactly when the view lists no coordinator twice. */
  lemma EveryHashIsOwned(view: seq<NodeInfo>)
    requires view != []
    ensures (forall hash: nat :: Owned(view, hash)) <==> DistinctIds(view)
  {
    if DistinctIds(view) {
      forall hash: nat
        ensures Owned(view, hash)
      {
        var _ := OwnerOf(view, hash);
      }
    } else {
      var i, j :| 0 <= i < j < |view| && view[i].Id() == view[j].Id();
      DuplicateOwnsNothing(view, i, j);
    }
  }

  lemma OwnerOf(view: seq<NodeInfo>, hash: nat) returns (c: NodeId)
    requires view != [] && DistinctIds(view)
    ensures InView(view, c) && Owns(view, c, hash) && Owned(view, hash)
  {
    c := view[hash % |view|].Id();
    assert FirstAt(view, c, hash % |view|);
    DispatchersExactly(view, hash, c);
  }

  lemma DuplicateOwnsNothing(view: seq<NodeInfo>, i: nat, j: nat)
    requires i < j < |view| && view[i].Id() == view[j].Id()
    ensures !Owned(view, j)
  {
    assert j % |view| == j;
    forall c | InView(view, c)
      ensures !Owns(view, c, j)
    {
      DispatchersExactly(view, j, c);
      assert view[j].Id() == c ==> view[i].Id() == c;
    }
  }

  /**
   Agreement: coordinators that read the same snapshot and have replayed the same log, and that
   are each in the resulting view, split every protocol between them with exactly one owner.
   */
  lemma ExactlyOneDispatcher(snapshot: seq<NodeInfo>, log: seq<Event>, hash: nat) returns (owner: NodeId)
    requires DistinctIds(snapshot) && ApplyAll(snapshot, log) != []
    ensures InView(ApplyAll(snapshot, log), owner)
    ensures forall c :: InView(ApplyAll(snapshot, log), c) ==>
              (Owns(ApplyAll(snapshot, log), c, hash) <==> c == owner)
  {
    var births := WatchedViewIsTheStore(snapshot, log);
    var view := ApplyAll(snapshot, log);
    owner := OwnerOf(view, hash);
    forall c | InView(view, c)
      ensures Owns(view, c, hash) <==> c == owner
    {
      if Owns(view, c, hash) {
        AtMostOneDispatcher(view, hash, c, owner);
      }
    }
  }

  /**
   The initial read appends its nodes without looking: when a node's PUT event is handled first, the
   node is listed twice, and some hashes have no owner at all.
   */
  lemma LateSnapshotLeavesHashesUnowned(n: NodeInfo)
    ensures ApplyAll([], [Put(n)]) + [n] == [n, n]
    ensures !Owned([n, n], 1)
  {
    assert [Put(n)][..0] == [];
    DuplicateOwnsNothing([n, n], 0, 1);
  }
}
