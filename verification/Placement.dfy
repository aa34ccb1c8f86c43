/**
 Where a deploy request puts its replicas: the loops of `dealDeployRequest` in
 `pkg/deploy/deploy.go` over replicas and device groups, each step taking the next node of the
 coordinator's round-robin.

 `alive` is the alive list as it is read at the start, and `lists(j)` as it is read again for deploy
 j; `running` holds the ids for which `checkProtocolAlreadyAlive` answers yes, each of which is asked
 about once; `orders[i]` is the order in which round i iterates over the request's map of device
 groups.
 */
module Placement {
  import opened Wrappers
  import opened Keys
  import opened RoundRobin
  import opened Coordinator

  datatype Placement = Placement(id: string, index: nat, group: string, node: string)

  type Task = (nat, string)   // replica index and device group

  // How many replica indices are served.
  function Replicas(number: int, n: nat): nat {
    var wanted := if number <= 0 then 1 else number;
    if wanted < n then wanted else n
  }

  // The groups of one round that do not run yet.
  function NewInRound(base: string, i: nat, order: seq<string>, running: set<string>): seq<Task> {
    if order == [] then []
    else
      var init := NewInRound(base, i, order[..|order| - 1], running);
      var g := order[|order| - 1];
      if ComposeId(base, g, i) in running then init else init + [(i, g)]
  }

  function NewTasks(base: string, orders: seq<seq<string>>, k: nat, running: set<string>): seq<Task>
    requires k <= |orders|
  {
    if k == 0 then [] else NewTasks(base, orders, k - 1, running) + NewInRound(base, k - 1, orders[k - 1], running)
  }

  // The tasks in order, dealt to the nodes of the alive list by round robin from `index` on.
  function Dealt(base: string, tasks: seq<Task>, alive: seq<string>, index: nat): (s: seq<Placement>)
    requires alive != []
    ensures |s| == |tasks|
  {
    seq(|tasks|, j requires 0 <= j < |tasks| =>
      Placement(ComposeId(base, tasks[j].1, tasks[j].0), tasks[j].0, tasks[j].1,
                 alive[Picks(index, |alive|, |tasks|)[j]]))
  }

  // An alive list that is read again: it may have changed, but is not empty.
  type AliveList = s: seq<string> | s != [] witness [""]

  ghost function IndexAlong(lists: nat -> AliveList, index: nat, k: nat): nat
  {
    if k == 0 then index else NextIndex(IndexAlong(lists, index, k - 1), |lists(k - 1)|)
  }

  // The tasks in order, each dealt to a node of the list that is read for it.
  ghost function DealtAlong(base: string, tasks: seq<Task>, lists: nat -> AliveList, index: nat): (s: seq<Placement>)
    ensures |s| == |tasks|
  {
    seq(|tasks|, j requires 0 <= j < |tasks| => DealtAt(base, tasks[j], lists, index, j))
  }

  ghost function DealtAt(base: string, t: Task, lists: nat -> AliveList, index: nat, k: nat): (p: Placement)
    ensures p.node in lists(k)
  {
    Placement(ComposeId(base, t.1, t.0), t.0, t.1,
              lists(k)[Position(IndexAlong(lists, index, k), |lists(k)|)])
  }

  lemma DealtOneMore(base: string, tasks: seq<Task>, t: Task, lists: nat -> AliveList, index: nat)
    ensures DealtAlong(base, tasks + [t], lists, index) ==
            DealtAlong(base, tasks, lists, index) + [DealtAt(base, t, lists, index, |tasks|)]
  {}

  /** Every deploy is for its task, under the composed id, at a node of the alive list read for it. */
  lemma DealtToListed(base: string, tasks: seq<Task>, lists: nat -> AliveList, index: nat, j: nat)
    requires j < |tasks|
    ensures var p := DealtAlong(base, tasks, lists, index)[j];
            && p.node in lists(j) && p.index == tasks[j].0 && p.group == tasks[j].1
            && p.id == base + ":" + tasks[j].1 + ":" + Itoa(tasks[j].0)
  {
    assert DealtAlong(base, tasks, lists, index)[j] == DealtAt(base, tasks[j], lists, index, j);
  }

  lemma {:induction false} StableIndex(lists: nat -> AliveList, alive: seq<string>, index: nat, k: nat)
    requires alive != [] && forall j :: lists(j) == alive
    ensures IndexAlong(lists, index, k) == IndexAfter(index, |alive|, k)
  {
    if k > 0 {
      StableIndex(lists, alive, index, k - 1);
    }
  }

  lemma {:induction false} PickAt(index: nat, n: nat, k: nat, j: nat)
    requires n > 0 && j < k
    ensures Picks(index, n, k)[j] == Position(IndexAfter(index, n, j), n)
  {
    if j < k - 1 {
      PickAt(index, n, k - 1, j);
    }
  }

  /** With an alive list that stays the same, the tasks are dealt by round robin over it. */
  lemma StableListsAreDealt(base: string, tasks: seq<Task>, lists: nat -> AliveList, alive: seq<string>, index: nat)
    requires alive != [] && forall j :: lists(j) == alive
    ensures DealtAlong(base, tasks, lists, index) == Dealt(base, tasks, alive, index)
  {
    forall j | 0 <= j < |tasks|
      ensures DealtAlong(base, tasks, lists, index)[j] == Dealt(base, tasks, alive, index)[j]
    {
      StableIndex(lists, alive, index, j);
      PickAt(index, |alive|, |tasks|, j);
    }
  }

  class DeployServer {
    const coordinator: Coordinator

    constructor (coordinator: Coordinator)
      ensures this.coordinator == coordinator
    {
      this.coordinator := coordinator;
    }

    // One deploy, to the next node of the list that is read for it.
    method Place(base: string, i: nat, group: string, lists: nat -> AliveList, done: seq<Placement>,
                 ghost tasks: seq<Task>, ghost index: nat)
      returns (placements: seq<Placement>)
      requires done == DealtAlong(base, tasks, lists, index)
      requires coordinator.loadBalanceIndex == IndexAlong(lists, index, |tasks|)
      modifies coordinator`loadBalanceIndex
      ensures placements == DealtAlong(base, tasks + [(i, group)], lists, index)
      ensures coordinator.loadBalanceIndex == IndexAlong(lists, index, |tasks| + 1)
    {
      var node := coordinator.NextNode(lists(|done|));
      placements := done + [Placement(ComposeId(base, group, i), i, group, node.value)];
      DealtOneMore(base, tasks, (i, group), lists, index);
    }

    // One round: every group of the request for replica index i.
    method PlaceReplica(base: string, i: nat, order: seq<string>, lists: nat -> AliveList, running: set<string>,
                        done: seq<Placement>, ghost tasks: seq<Task>, ghost index: nat)
      returns (placements: seq<Placement>)
      requires done == DealtAlong(base, tasks, lists, index)
      requires coordinator.loadBalanceIndex == IndexAlong(lists, index, |tasks|)
      modifies coordinator`loadBalanceIndex
      ensures placements == DealtAlong(base, tasks + NewInRound(base, i, order, running), lists, index)
      ensures coordinator.loadBalanceIndex ==
              IndexAlong(lists, index, |tasks + NewInRound(base, i, order, running)|)
    {
      placements := done;
      assert tasks + NewInRound(base, i, order[..0], running) == tasks;
      for j := 0 to |order|
        invariant placements == DealtAlong(base, tasks + NewInRound(base, i, order[..j], running), lists, index)
        invariant coordinator.loadBalanceIndex ==
                  IndexAlong(lists, index, |tasks + NewInRound(base, i, order[..j], running)|)
      {
        var group := order[j];
        ghost var before := tasks + NewInRound(base, i, order[..j], running);
        assert order[..j + 1][..j] == order[..j];
        if ComposeId(base, group, i) !in running {
          assert tasks + NewInRound(base, i, order[..j + 1], running) == before + [(i, group)];
          placements := Place(base, i, group, lists, placements, before, index);
        }
      }
      assert order[..|order|] == order;
    }

    /**
     None is the answer that no node is available; otherwise the deploy requests sent, in order. An
     alive list that is empty when it is read again is dereferenced in the source.
     */
    method DealDeployRequest(base: string, number: int, orders: seq<seq<string>>, alive: seq<string>,
                             lists: nat -> AliveList, running: set<string>)
      returns (placements: Option<seq<Placement>>)
      requires |orders| >= |alive|
      modifies coordinator`loadBalanceIndex
      ensures alive == [] ==> placements == None && coordinator.loadBalanceIndex == old(coordinator.loadBalanceIndex)
      ensures alive != [] ==>
                placements == Some(DealtAlong(base, NewTasks(base, orders, Replicas(number, |alive|), running), lists,
                                              old(coordinator.loadBalanceIndex)))
    {
      var wanted := if number <= 0 then 1 else number;
      if |alive| == 0 {
        return None;
      }
      ghost var index := coordinator.loadBalanceIndex;
      var result := [];
      if |alive| - wanted > 0 {
        for i := 0 to wanted
          invariant result == DealtAlong(base, NewTasks(base, orders, i, running), lists, index)
          invariant coordinator.loadBalanceIndex == IndexAlong(lists, index, |NewTasks(base, orders, i, running)|)
        {
          result := PlaceReplica(base, i, orders[i], lists, running, result, NewTasks(base, orders, i, running), index);
        }
      } else {
        for i := 0 to |alive|
          invariant result == DealtAlong(base, NewTasks(base, orders, i, running), lists, index)
          invariant coordinator.loadBalanceIndex == IndexAlong(lists, index, |NewTasks(base, orders, i, running)|)
        {
          result := PlaceReplica(base, i, orders[i], lists, running, result, NewTasks(base, orders, i, running), index);
        }
      }
      return Some(result);
    }
  }

  // ---------------------------------------------------------------- which replicas

  lemma {:induction false} RoundMeaning(base: string, i: nat, order: seq<string>, running: set<string>, t: Task)
    ensures t in NewInRound(base, i, order, running) <==>
            t.0 == i && t.1 in order && ComposeId(base, t.1, i) !in running
  {
    if order != [] {
      var init, g := order[..|order| - 1], order[|order| - 1];
      RoundMeaning(base, i, init, running, t);
      assert order == init + [g];
      assert t.1 in order <==> t.1 in init || t.1 == g;
      var rest := NewInRound(base, i, init, running);
      assert t in rest + [(i, g)] <==> t in rest || t == (i, g);
    }
  }

  /**
   A request is served for replica indices 0 up to min(max(1, Number), alive), and for each of them
   exactly the groups that do not run yet are deployed.
   */
  lemma {:induction false} TasksMeaning(base: string, orders: seq<seq<string>>, k: nat, running: set<string>, t: Task)
    requires k <= |orders|
    ensures t in NewTasks(base, orders, k, running) <==>
            t.0 < k && t.1 in orders[t.0] && ComposeId(base, t.1, t.0) !in running
  {
    if k > 0 {
      TasksMeaning(base, orders, k - 1, running, t);
      RoundMeaning(base, k - 1, orders[k - 1], running, t);
      var before, round := NewTasks(base, orders, k - 1, running), NewInRound(base, k - 1, orders[k - 1], running);
      assert t in before + round <==> t in before || t in round;
    }
  }

  /**
   So a request asks for replica 0 in any case, and for replica i iff i is below its number and below
   the number of alive nodes; for each of them, exactly the groups that do not run yet.
   */
  lemma RequestMeaning(base: string, orders: seq<seq<string>>, number: int, n: nat, running: set<string>, t: Task)
    requires 0 < n <= |orders|
    ensures t in NewTasks(base, orders, Replicas(number, n), running) <==>
            && t.0 < n && (t.0 == 0 || t.0 < number) && t.1 in orders[t.0]
            && ComposeId(base, t.1, t.0) !in running
  {
    TasksMeaning(base, orders, Replicas(number, n), running, t);
  }

  /** The replicas are served one after the other, and each in the order of its round. */
  lemma {:induction false} TasksInOrder(base: string, orders: seq<seq<string>>, k: nat, running: set<string>,
                                        i: nat, j: nat)
    requires k <= |orders| && i < j < |NewTasks(base, orders, k, running)|
    ensures var tasks := NewTasks(base, orders, k, running);
            tasks[i].0 < k && tasks[j].0 < k && tasks[i].0 <= tasks[j].0
  {
    var tasks := NewTasks(base, orders, k, running);
    if k > 0 {
      var before, round := NewTasks(base, orders, k - 1, running), NewInRound(base, k - 1, orders[k - 1], running);
      assert tasks == before + round;
      TasksMeaning(base, orders, k, running, tasks[i]);
      TasksMeaning(base, orders, k, running, tasks[j]);
      assert tasks[i] in tasks && tasks[j] in tasks;
      if j < |before| {
        TasksInOrder(base, orders, k - 1, running, i, j);
      } else {
        assert tasks[j] in round;
        RoundMeaning(base, k - 1, orders[k - 1], running, tasks[j]);
      }
    }
  }

  ghost predicate NoRepeats<T>(s: seq<T>) {
    forall i, j :: 0 <= i < j < |s| ==> s[i] != s[j]
  }

  lemma NoRepeatsAppend<T>(a: seq<T>, b: seq<T>)
    requires NoRepeats(a) && NoRepeats(b) && forall x :: x in b ==> x !in a
    ensures NoRepeats(a + b)
  {
    var s := a + b;
    forall i, j | 0 <= i < j < |s|
      ensures s[i] != s[j]
    {
      if i < |a| <= j {
        assert s[i] in a && s[j] in b;
      }
    }
  }

  lemma {:induction false} RoundNoRepeats(base: string, i: nat, order: seq<string>, running: set<string>)
    requires NoRepeats(order)
    ensures NoRepeats(NewInRound(base, i, order, running))
  {
    if order != [] {
      var init, g := order[..|order| - 1], order[|order| - 1];
      RoundNoRepeats(base, i, init, running);
      RoundMeaning(base, i, init, running, (i, g));
      assert g !in init;
      NoRepeatsAppend(NewInRound(base, i, init, running), [(i, g)]);
    }
  }

  /** No replica of a group is deployed twice by one request. */
  lemma {:induction false} TasksNoRepeats(base: string, orders: seq<seq<string>>, k: nat, running: set<string>)
    requires k <= |orders| && forall i :: 0 <= i < k ==> NoRepeats(orders[i])
    ensures NoRepeats(NewTasks(base, orders, k, running))
  {
    if k > 0 {
      var init, last := NewTasks(base, orders, k - 1, running), NewInRound(base, k - 1, orders[k - 1], running);
      TasksNoRepeats(base, orders, k - 1, running);
      RoundNoRepeats(base, k - 1, orders[k - 1], running);
      forall t | t in last
        ensures t !in init
      {
        RoundMeaning(base, k - 1, orders[k - 1], running, t);
        TasksMeaning(base, orders, k - 1, running, t);
      }
      NoRepeatsAppend(init, last);
    }
  }

  // ---------------------------------------------------------------- which nodes

  lemma {:induction false} OneGroupCount(base: string, orders: seq<seq<string>>, k: nat, running: set<string>)
    requires k <= |orders| && forall i :: 0 <= i < k ==> |orders[i]| == 1
    ensures |NewTasks(base, orders, k, running)| <= k
  {
    if k > 0 {
      OneGroupCount(base, orders, k - 1, running);
      assert orders[k - 1][..0] == [];
      assert |NewInRound(base, k - 1, orders[k - 1], running)| <= 1;
    }
  }

  /** The new replicas of a request with one group land on pairwise different nodes. */
  lemma OneGroupSpreads(base: string, orders: seq<seq<string>>, number: int, running: set<string>, alive: seq<string>,
                        index: nat, i: nat, j: nat)
    requires alive != [] && NoRepeats(alive) && |orders| >= |alive|
    requires forall r :: 0 <= r < |alive| ==> |orders[r]| == 1
    requires i < j < |NewTasks(base, orders, Replicas(number, |alive|), running)|
    ensures var s := Dealt(base, NewTasks(base, orders, Replicas(number, |alive|), running), alive, index);
            s[i].node != s[j].node
  {
    var tasks := NewTasks(base, orders, Replicas(number, |alive|), running);
    OneGroupCount(base, orders, Replicas(number, |alive|), running);
    FewPicksAreDistinct(index, |alive|, |tasks|, i, j);
  }

  ghost function Nodes(s: seq<Placement>): (r: seq<string>)
    ensures |r| == |s| && forall i :: 0 <= i < |s| ==> r[i] == s[i].node
  {
    seq(|s|, i requires 0 <= i < |s| => s[i].node)
  }

  lemma {:induction false} CountThrough(nodes: seq<string>, picks: seq<nat>, alive: seq<string>, p: nat)
    requires |nodes| == |picks| && p < |alive| && NoRepeats(alive)
    requires forall j :: 0 <= j < |picks| ==> picks[j] < |alive| && nodes[j] == alive[picks[j]]
    ensures Count(nodes, alive[p]) == Count(picks, p)
  {
    if nodes != [] {
      var k := |nodes| - 1;
      CountThrough(nodes[..k], picks[..k], alive, p);
      assert nodes[k] == alive[p] <==> picks[k] == p;
    }
  }

  /** Whatever the groups, one request loads any two alive nodes with numbers that differ by at most one. */
  lemma PlacementIsBalanced(base: string, tasks: seq<Task>, alive: seq<string>, index: nat, p: nat, q: nat)
    requires alive != [] && NoRepeats(alive) && p < |alive| && q < |alive|
    ensures var nodes := Nodes(Dealt(base, tasks, alive, index));
            Count(nodes, alive[p]) <= Count(nodes, alive[q]) + 1
  {
    var nodes, picks := Nodes(Dealt(base, tasks, alive, index)), Picks(index, |alive|, |tasks|);
    CountThrough(nodes, picks, alive, p);
    CountThrough(nodes, picks, alive, q);
    PickCount(index, |alive|, |tasks|, p);
    PickCount(index, |alive|, |tasks|, q);
  }
}
