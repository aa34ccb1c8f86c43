/**
 The coordinator of `pkg/deploy/protocol_coordinator.go`: its view, its round-robin index and its
 handlers, working in place on etcd and on the containers it calls. Responses to etcd range reads
 are parameters (`alive`, `kvs`); etcd does not fail here, and a container that is not in
 `containers` does not answer. `Cluster` covers failures and interleavings.
 */
module Coordinator {
  import opened Wrappers
  import opened Keys
  import opened Store
  import opened View
  import opened RoundRobin
  import opened Selection
  import opened Cluster
  import opened Calls
  import opened Container
  import opened Recovery

  // getAllAlive: the addresses of the container node keys.
  ghost predicate Lists(alive: seq<string>, store: Store) {
    forall a :: a in alive <==> a in store.up
  }

  class Coordinator {
    const etcd: Etcd
    const current: NodeId
    const hash: string -> nat
    var containers: map<string, Container>
    var allNodeInfos: seq<NodeInfo>
    var loadBalanceIndex: nat

    constructor (etcd: Etcd, current: NodeId, hash: string -> nat, containers: map<string, Container>)
      ensures this.etcd == etcd && this.current == current && this.hash == hash && this.containers == containers
      ensures allNodeInfos == [] && loadBalanceIndex == 0
    {
      this.etcd, this.current, this.hash, this.containers := etcd, current, hash, containers;
      allNodeInfos, loadBalanceIndex := [], 0;
    }

    ghost predicate Valid()
      reads this
    {
      forall a :: a in containers ==> containers[a].address == a && containers[a].etcd == etcd
    }

    ghost function TheSite(): Site
      reads this, etcd, containers.Values
    {
      Site(etcd.store, map a | a in containers :: containers[a].State())
    }

    // ---------------------------------------------------------------- the view

    // The initial read of the deploy nodes appends what it finds.
    method ReadDeployNodes(nodes: seq<NodeInfo>)
      modifies this`allNodeInfos
      ensures allNodeInfos == old(allNodeInfos) + nodes
    {
      for i := 0 to |nodes|
        invariant allNodeInfos == old(allNodeInfos) + nodes[..i]
      {
        allNodeInfos := allNodeInfos + [nodes[i]];
      }
      assert nodes[..|nodes|] == nodes;
    }

    method UpsertNode(n: NodeInfo)
      modifies this`allNodeInfos
      ensures allNodeInfos == Upsert(old(allNodeInfos), n)
    {
      var i := 0;
      var alreadyExists := false;
      while i < |allNodeInfos| && !alreadyExists
        invariant i <= |allNodeInfos|
        invariant !alreadyExists ==> allNodeInfos == old(allNodeInfos)
        invariant !alreadyExists ==> Upsert(allNodeInfos, n) == allNodeInfos[..i] + Upsert(allNodeInfos[i..], n)
        invariant alreadyExists ==> allNodeInfos == Upsert(old(allNodeInfos), n)
        decreases |allNodeInfos| - i, !alreadyExists
      {
        var info := allNodeInfos[i];
        if info.Id() == n.Id() {
          alreadyExists := true;
          assert Upsert(allNodeInfos[i..], n) == [info.(timestamp := n.timestamp)] + allNodeInfos[i + 1..];
          allNodeInfos := allNodeInfos[i := info.(timestamp := n.timestamp)];
        } else {
          assert Upsert(allNodeInfos[i..], n) == [info] + Upsert(allNodeInfos[i + 1..], n);
          i := i + 1;
        }
      }
      if !alreadyExists {
        allNodeInfos := allNodeInfos + [n];
      }
    }

    method RemoveNode(k: NodeId)
      modifies this`allNodeInfos
      ensures allNodeInfos == Without(old(allNodeInfos), k)
    {
      var allNodeInfosNew := [];
      for i := 0 to |allNodeInfos|
        invariant allNodeInfos == old(allNodeInfos)
        invariant Without(allNodeInfos, k) == allNodeInfosNew + Without(allNodeInfos[i..], k)
      {
        if allNodeInfos[i].Id() != k {
          allNodeInfosNew := allNodeInfosNew + [allNodeInfos[i]];
        }
        assert allNodeInfos[i..][1..] == allNodeInfos[i + 1..];
      }
      allNodeInfos := allNodeInfosNew;
    }

    // One response of the watch on the deploy nodes.
    method WatchDeploy(events: seq<Event>)
      modifies this`allNodeInfos
      ensures allNodeInfos == ApplyAll(old(allNodeInfos), events)
    {
      for i := 0 to |events|
        invariant allNodeInfos == ApplyAll(old(allNodeInfos), events[..i])
      {
        match events[i] {
          case Put(n) => UpsertNode(n);
          case Delete(n) => RemoveNode(n.Id());
        }
        assert events[..i + 1][..i] == events[..i];
      }
      assert events[..|events|] == events;
    }

    method GetCurrentSlot() returns (slot: nat)
      ensures slot == Slot(allNodeInfos, current)
    {
      for i := 0 to |allNodeInfos|
        invariant Slot(allNodeInfos, current) == SlotFrom(allNodeInfos, current, i)
      {
        if allNodeInfos[i].Id() == current {
          return i;
        }
      }
      return 0;
    }

    // ---------------------------------------------------------------- selection

    method BuildNeedDispatchProtocol(kvs: seq<ProtocolInfo>) returns (needDispatch: seq<ProtocolInfo>)
      ensures needDispatch == Take(Stranded(kvs, etcd.store), |allNodeInfos|)
      ensures var s := Stranded(kvs, etcd.store);
              && |needDispatch| == (if |s| < |allNodeInfos| then |s| else |allNodeInfos|)
              && forall i :: 0 <= i < |needDispatch| ==> needDispatch[i] == s[i]
    {
      needDispatch := [];
      for i := 0 to |kvs|
        invariant needDispatch == Stranded(kvs[..i], etcd.store) && |needDispatch| <= |allNodeInfos|
      {
        if |needDispatch| == |allNodeInfos| {
          StrandedPrefix(kvs, i, etcd.store);
          return;
        }
        if kvs[i] !in etcd.store.leased {
          needDispatch := needDispatch + [kvs[i]];
        }
        assert kvs[..i + 1][..i] == kvs[..i];
      }
      assert kvs[..|kvs|] == kvs;
    }

    method GetScheduleOneProtocol(kvs: seq<ProtocolInfo>) returns (r: Option<ProtocolInfo>)
      ensures r == Selected(allNodeInfos, current, hash, kvs, etcd.store)
    {
      var allNodeCount := |allNodeInfos|;
      if allNodeCount == 0 {
        return None;
      }
      var needDispatch := BuildNeedDispatchProtocol(kvs);
      for i := 0 to |needDispatch|
        invariant FirstOwned(allNodeInfos, current, hash, needDispatch) ==
                  FirstOwned(allNodeInfos, current, hash, needDispatch[i..])
      {
        var hashCode := hash(needDispatch[i].id);
        var currentSlot := GetCurrentSlot();
        if hashCode % allNodeCount == currentSlot {
          return Some(needDispatch[i]);
        }
        assert needDispatch[i..][1..] == needDispatch[i + 1..];
      }
      return None;
    }

    // ---------------------------------------------------------------- calls to containers

    method SendDeploy(target: string, request: DeployRequest) returns (ok: bool)
      requires Valid() && target in containers
      modifies etcd, containers[target]
      ensures (TheSite(), ok) == ServeDeploy(old(TheSite()), target, request)
    {
      var c := containers[target];
      ServingIsLocal(c.Local(), TheSite(), target, request, request.groups);
      ok := c.Deploy(request);
      assert TheSite().processes == old(TheSite()).processes[target := c.State()];
    }

    method SendUndeploy(addr: string, id: string)
      requires Valid() && addr in containers
      modifies etcd
      ensures TheSite() == ServeUndeploy(old(TheSite()), addr, ContainerId(id, "", 0))
      ensures old(etcd.journal) <= etcd.journal
    {
      var c := containers[addr];
      UndeployingIsLocal(c.Local(), TheSite(), addr, ContainerId(id, "", 0));
      c.UnDeploy(UnDeployRequest(id, "", 0));
    }

    method QueryStatus(target: string, r: ProtocolInfo) returns (running: bool)
      requires Valid()
      ensures running <==> IsRunning(TheSite(), target, r.ptype, r.id)
    {
      if target !in containers {
        return false;
      }
      running := containers[target].GetProtocolStatus(r.ptype, r.id);
    }

    // ---------------------------------------------------------------- dispatch

    method NextNode(nodes: seq<string>) returns (r: Option<string>)
      modifies this`loadBalanceIndex
      ensures nodes == [] ==> r == None && loadBalanceIndex == old(loadBalanceIndex)
      ensures nodes != [] ==> r == Some(nodes[Position(old(loadBalanceIndex), |nodes|)])
      ensures nodes != [] ==> loadBalanceIndex == NextIndex(old(loadBalanceIndex), |nodes|) < |nodes|
      ensures old(loadBalanceIndex) < |nodes| ==>
                r == Some(nodes[old(loadBalanceIndex)]) && loadBalanceIndex == (old(loadBalanceIndex) + 1) % |nodes|
      ensures 0 < |nodes| <= old(loadBalanceIndex) ==> r == Some(nodes[0]) && loadBalanceIndex == 1 % |nodes|
    {
      if |nodes| == 0 {
        return None;
      }
      if loadBalanceIndex >= |nodes| {
        loadBalanceIndex := 0;
      }
      r := Some(nodes[loadBalanceIndex]);
      NextIndexIsRemainder(loadBalanceIndex, |nodes|);
      loadBalanceIndex := (loadBalanceIndex + 1) % |nodes|;
    }

    method CheckProtocolAlreadyAlive(r: ProtocolInfo, alive: seq<string>) returns (b: bool)
      requires Lists(alive, etcd.store)
      ensures b <==> AlreadyAlive(TheSite(), r)
      ensures b <==> exists a :: a in alive && ProtocolInfo(a, r.ptype, r.id) in etcd.store.leased
    {
      for i := 0 to |alive|
        invariant forall j :: 0 <= j < i ==> !LeasedAt(TheSite(), r, alive[j])
      {
        var key := ProtocolInfo(alive[i], r.ptype, r.id);
        if key in etcd.store.leased {
          assert alive[i] in etcd.store.up && LeasedAt(TheSite(), r, alive[i]);
          return true;
        }
      }
      return false;
    }

    method DoRemoveGarbageData(r: ProtocolInfo, target: string)
      requires Valid()
      modifies etcd
      ensures TheSite() == RemoveGarbage(old(TheSite()), r, target)
      ensures if target == r.addr then etcd.journal == old(etcd.journal)
              else old(etcd.journal) + [RecordDelete(r)] <= etcd.journal
    {
      if target != r.addr {
        etcd.Do(RecordDelete(r));
        assert TheSite() == old(TheSite()).(store := old(TheSite()).store.DeleteRecord(r));
        if r.addr in etcd.store.up && r.addr in containers {
          SendUndeploy(r.addr, r.id);
        }
      }
    }

    /**
     dispatchToAlive. The loop sends one deploy request and polls once if the target then runs the
     protocol; if it accepts the request but does not come to run it, 7 and 6 times; with the effect of
     one round. `deploys` and `polls` count the calls.
     */
    method DispatchToAlive(r: ProtocolInfo, alive: seq<string>)
      returns (node: Option<string>, ok: bool, deploys: nat, polls: nat)
      requires Valid() && Lists(alive, etcd.store)
      modifies this`loadBalanceIndex, etcd, containers.Values
      ensures Valid() && deploys <= 7 && polls <= 6
      ensures alive == [] ==> !ok && TheSite() == old(TheSite()) && loadBalanceIndex == old(loadBalanceIndex)
      ensures alive == [] || AlreadyAlive(old(TheSite()), r) ==> node == None && deploys == 0 && polls == 0
      ensures alive != [] && !AlreadyAlive(old(TheSite()), r) ==>
                && node == (if ok then Some(alive[Position(old(loadBalanceIndex), |alive|)]) else None)
                && (ok ==> deploys == 1 && polls == 1)
                && (!ok ==> if polls == 0 then deploys <= 1 else deploys == 7 && polls == 6)
      ensures alive != [] ==>
                && (TheSite(), ok) == Dispatched(old(TheSite()), r, alive[Position(old(loadBalanceIndex), |alive|)])
                && loadBalanceIndex == NextIndex(old(loadBalanceIndex), |alive|)
    {
      deploys, polls := 0, 0;
      var picked := NextNode(alive);
      if picked.None? {
        return None, false, deploys, polls;
      }
      var target := picked.value;
      assert TheSite() == old(TheSite());
      var alreadyAlive := CheckProtocolAlreadyAlive(r, alive);
      if alreadyAlive {
        DoRemoveGarbageData(r, target);
        return None, true, deploys, polls;
      }
      ok, deploys, polls := DeployUntilRunning(r, target);
      node := if ok then Some(target) else None;
    }

    // The polling loop of dispatchToAlive.
    method DeployUntilRunning(r: ProtocolInfo, target: string) returns (ok: bool, deploys: nat, polls: nat)
      requires Valid() && !AlreadyAlive(TheSite(), r)
      modifies etcd, containers.Values
      ensures ok ==> deploys == 1 && polls == 1
      ensures !ok && polls > 0 ==> deploys == 7 && polls == 6
      ensures polls == 0 ==> deploys == if r.id in old(etcd.store).infos && target in containers then 1 else 0
      ensures polls == 0 <==> Redeployed(old(TheSite()), r, target).None?
      ensures (TheSite(), ok) == Dispatched(old(TheSite()), r, target)
    {
      deploys, polls := 0, 0;
      var count := 0;
      while true
        invariant count == deploys == polls <= 6
        invariant if count == 0 then TheSite() == old(TheSite())
                  else TheSite() == Dispatched(old(TheSite()), r, target).0 && !Dispatched(old(TheSite()), r, target).1
                       && Redeployed(old(TheSite()), r, target).Some?
                       && Redeployed(TheSite(), r, target) == Some(TheSite())
                       && RemoveGarbage(TheSite(), r, target) == TheSite()
        decreases 7 - count
      {
        ghost var before := TheSite();
        if r.id !in etcd.store.infos {
          return false, deploys, polls;
        }
        if target !in containers {
          return false, deploys, polls;
        }
        RedeployMeaning(before, r, target);
        var accepted := SendDeploy(target, RedeployRequest(r, etcd.store.infos[r.id]));
        deploys := deploys + 1;
        if !accepted {
          return false, deploys, polls;
        }
        if count > 5 {
          return false, deploys, polls;
        }
        ghost var s1 := TheSite();
        assert Redeployed(before, r, target) == Some(s1);
        DoRemoveGarbageData(r, target);
        SecondRoundIsNoop(before, r, target);
        var running := QueryStatus(target, r);
        polls := polls + 1;
        if running {
          return true, deploys, polls;
        }
        count := count + 1;
      }
    }

    // ---------------------------------------------------------------- event handlers

    // A DELETE event on a liveness or node key. `dispatched` tells that dispatchToAlive was called.
    method OnProtocolDeleted(r: ProtocolInfo, alive: seq<string>) returns (dispatched: bool)
      requires Valid() && Lists(alive, etcd.store)
      modifies this`loadBalanceIndex, etcd, containers.Values
      ensures dispatched <==> r in old(etcd.store).records && Owns(allNodeInfos, current, hash(r.id))
      ensures !dispatched || alive == [] ==> TheSite() == old(TheSite())
      ensures dispatched && alive != [] ==>
                TheSite() == Dispatched(old(TheSite()), r, alive[Position(old(loadBalanceIndex), |alive|)]).0
    {
      if r !in etcd.store.records {
        return false;
      }
      var allNodeCount := |allNodeInfos|;
      var currentSlot := GetCurrentSlot();
      if allNodeCount == 0 || hash(r.id) % allNodeCount != currentSlot {
        return false;
      }
      var _, _, _, _ := DispatchToAlive(r, alive);
      return true;
    }

    // A PUT event on a recover key.
    method OnRecoverPut(addr: string, kvs: seq<ProtocolInfo>, alive: seq<string>) returns (ok: bool)
      requires Valid() && Lists(alive, etcd.store)
      modifies this`loadBalanceIndex, etcd, containers.Values
      ensures alive != [] ==>
                (TheSite(), ok) == RecoverEvent(allNodeInfos, current, hash, old(TheSite()), addr, kvs,
                                                alive[Position(old(loadBalanceIndex), |alive|)])
      ensures alive == [] ==>
                && !ok
                && TheSite() == if Selected(allNodeInfos, current, hash, kvs, old(etcd.store)).Some? then old(TheSite())
                                else old(TheSite()).(store := old(etcd.store).DeleteRecover(addr))
    {
      var oneProtocol := GetScheduleOneProtocol(kvs);
      match oneProtocol
      case Some(r) =>
        var _, done, _, _ := DispatchToAlive(r, alive);
        ok := done;
      case None =>
        etcd.Do(RecoverDelete(addr));
        ok := false;
        assert TheSite() == old(TheSite()).(store := old(etcd.store).DeleteRecover(addr));
    }

    // A DELETE event on a container node key: recovery starts if the node has records.
    method OnContainerDeleted(addr: string, kvs: seq<ProtocolInfo>)
      modifies etcd
      ensures etcd.store == NodeGone(old(etcd.store), addr, kvs)
    {
      if |kvs| > 0 {
        etcd.Do(RecoverPut(addr));
      }
    }
  }

  // ---------------------------------------------------------------- facts about the selection

  lemma {:induction false} StrandedPrefix(kvs: seq<ProtocolInfo>, i: nat, store: Store)
    requires i <= |kvs|
    ensures Stranded(kvs[..i], store) <= Stranded(kvs, store)
    ensures Take(Stranded(kvs, store), |Stranded(kvs[..i], store)|) == Stranded(kvs[..i], store)
  {
    if i == |kvs| {
      assert kvs[..i] == kvs;
    } else {
      StrandedPrefix(kvs[..|kvs| - 1], i, store);
      assert kvs[..|kvs| - 1][..i] == kvs[..i];
    }
  }
}
