/**
 The container process of `pkg/protocol/container/container.go` with its event subscribers of
 `pkg/protocol/register/etcd_register.go` and the manager of `pkg/protocol/core/protocol.go`,
 updating etcd and its manager in place. Every method is proved against the functions of `Calls`.
 */
module Container {
  import opened Keys
  import opened Store
  import opened Cluster
  import opened Calls

  datatype Write =
    | RecordPut(info: ProtocolInfo)
    | InfoPut(id: string, detail: Detail)
    | LeasedPut(info: ProtocolInfo, lease: nat)
    | UpPut(addr: string, lease: nat)
    | RecoverPut(addr: string)
    | RecordDelete(info: ProtocolInfo)
    | LeasedDelete(info: ProtocolInfo)
    | RecoverDelete(addr: string)

  function Written(store: Store, w: Write): Store {
    match w
    case RecordPut(r) => store.PutRecord(r)
    case InfoPut(id, d) => store.PutInfo(id, d)
    case LeasedPut(r, lease) => store.PutLeased(r, lease)
    case UpPut(a, lease) => store.PutUp(a, lease)
    case RecoverPut(a) => store.PutRecover(a)
    case RecordDelete(r) => store.DeleteRecord(r)
    case LeasedDelete(r) => store.DeleteLeased(r)
    case RecoverDelete(a) => store.DeleteRecover(a)
  }

  class Etcd {
    var store: Store
    ghost var journal: seq<Write>   // the writes, in their order

    constructor ()
      ensures store == Store({}, map[], map[], map[], {}, {}) && journal == []
    {
      store := Store({}, map[], map[], map[], {}, {});
      journal := [];
    }

    method Do(w: Write)
      modifies this
      ensures store == Written(old(store), w) && journal == old(journal) + [w]
    {
      store := Written(store, w);
      journal := journal + [w];
    }
  }

  datatype UnDeployRequest = UnDeployRequest(protocolId: string, deviceGroupId: string, numberIndex: Int64)

  class Container {
    const address: string
    const lease: nat
    const types: set<string>   // the registered protocol setups
    const etcd: Etcd
    var phase: Phase
    var manager: map<string, Wrapper>
    ghost var registered: map<string, nat>   // how many writes etcd had seen when an id was registered

    constructor (etcd: Etcd, address: string, lease: nat, types: set<string>)
      ensures this.etcd == etcd && this.address == address
      ensures State() == Process(lease, Granted, types, map[])
    {
      this.etcd, this.address, this.lease, this.types := etcd, address, lease, types;
      phase, manager, registered := Granted, map[], map[];
    }

    ghost function State(): Process
      reads this
    {
      Process(lease, phase, types, manager)
    }

    // This container and the store, seen as a site of its own.
    ghost function Local(): Site
      reads this, etcd
    {
      Site(etcd.store, map[address := State()])
    }

    // EtcdRegister.Start: the node key goes up before the subscriptions are in place.
    method Announce()
      modifies this`phase, etcd
      ensures phase == Announced && manager == old(manager)
      ensures etcd.store == old(etcd.store).PutUp(address, lease)
      ensures etcd.journal == old(etcd.journal) + [UpPut(address, lease)]
    {
      etcd.Do(UpPut(address, lease));
      phase := Announced;
    }

    method Subscribe()
      modifies this`phase
      ensures phase == Ready && manager == old(manager)
    {
      phase := Ready;
    }

    // DefaultProtocolManager.RegisterIfAbsent
    method RegisterIfAbsent(id: string, w: Wrapper) returns (r: Wrapper)
      modifies this`manager, this`registered
      ensures registered == (if id in old(manager) then old(registered) else old(registered)[id := |etcd.journal|])
      ensures manager == (if id in old(manager) then old(manager) else old(manager)[id := w])
      ensures id in manager && r == manager[id]
    {
      if id !in manager {
        manager := manager[id := w];
        registered := registered[id := |etcd.journal|];
        return w;
      }
      return manager[id];
    }

    // The subscriber of ProtocolDeploySuccess, called synchronously by the event bus.
    method OnDeploySuccess(ptype: string, id: string, detail: Detail)
      requires phase.Ready?
      modifies etcd
      ensures etcd.store == Publish(old(etcd.store), ProtocolInfo(address, ptype, id), detail, lease)
      ensures ProtocolInfo(address, ptype, id) in etcd.store.records
      ensures id in etcd.store.infos && etcd.store.infos[id] == detail
      ensures ProtocolInfo(address, ptype, id) in etcd.store.leased <==>
              lease in old(etcd.store).leases || ProtocolInfo(address, ptype, id) in old(etcd.store).leased
      ensures etcd.journal == old(etcd.journal) + [RecordPut(ProtocolInfo(address, ptype, id)), InfoPut(id, detail),
                                                   LeasedPut(ProtocolInfo(address, ptype, id), lease)]
    {
      var info := ProtocolInfo(address, ptype, id);
      etcd.Do(RecordPut(info));
      etcd.Do(InfoPut(id, detail));
      etcd.Do(LeasedPut(info, lease));
    }

    // The subscriber of ProtocolUnDeploySuccess
    method OnUnDeploySuccess(ptype: string, id: string)
      requires phase.Ready?
      modifies etcd
      ensures etcd.store == old(etcd.store).DeleteRecord(ProtocolInfo(address, ptype, id))
                            .DeleteLeased(ProtocolInfo(address, ptype, id))
      ensures ProtocolInfo(address, ptype, id) !in etcd.store.records
      ensures ProtocolInfo(address, ptype, id) !in etcd.store.leased
      ensures etcd.journal == old(etcd.journal) + [RecordDelete(ProtocolInfo(address, ptype, id)),
                                                   LeasedDelete(ProtocolInfo(address, ptype, id))]
    {
      var info := ProtocolInfo(address, ptype, id);
      etcd.Do(RecordDelete(info));
      etcd.Do(LeasedDelete(info));
    }

    // Starting a group: the event is published before the entry is registered.
    method Start(ptype: string, id: string, detail: Detail)
      requires id !in manager
      modifies this`manager, this`registered, etcd
      ensures Local() == StartGroup(old(Local()), address, ptype, id, detail)
      ensures id in registered && registered[id] == |etcd.journal|
      ensures etcd.journal == old(etcd.journal) + (if phase.Ready?
                then [RecordPut(ProtocolInfo(address, ptype, id)), InfoPut(id, detail),
                      LeasedPut(ProtocolInfo(address, ptype, id), lease)]
                else [])
    {
      if phase.Ready? {
        OnDeploySuccess(ptype, id, detail);
      }
      var _ := RegisterIfAbsent(id, Wrapper(ptype, detail));
    }

    method Deploy(request: DeployRequest) returns (ok: bool)
      modifies this`manager, this`registered, etcd
      ensures (Local(), ok) == ServeDeploy(old(Local()), address, request)
    {
      for i := 0 to |request.groups|
        invariant phase == old(phase)
        invariant ServeGroups(Local(), address, request, request.groups[i..]) ==
                  ServeDeploy(old(Local()), address, request)
      {
        var (group, devices) := request.groups[i];
        var id := if ':' in request.protocolId then request.protocolId
                  else ComposeId(request.protocolId, group, request.numberIndex);
        if id in manager {
          return true;
        }
        if request.ptype !in types {
          return false;
        }
        Start(request.ptype, id, Detail(group, devices));
        assert request.groups[i..][1..] == request.groups[i + 1..];
      }
      assert request.groups[|request.groups|..] == [];
      return true;
    }

    method UnDeploy(request: UnDeployRequest)
      modifies etcd
      ensures Local() == ServeUndeploy(old(Local()), address,
                                       ContainerId(request.protocolId, request.deviceGroupId, request.numberIndex))
      ensures var id := ContainerId(request.protocolId, request.deviceGroupId, request.numberIndex);
              etcd.journal == old(etcd.journal) + (if id in manager && phase.Ready?
                then [RecordDelete(ProtocolInfo(address, manager[id].ptype, id)),
                      LeasedDelete(ProtocolInfo(address, manager[id].ptype, id))]
                else [])
    {
      var id := if ':' in request.protocolId then request.protocolId
                else ComposeId(request.protocolId, request.deviceGroupId, request.numberIndex);
      // ProtocolWrapper.Stop publishes the event; the entry stays in the manager.
      if id in manager && phase.Ready? {
        OnUnDeploySuccess(manager[id].ptype, id);
      }
    }

    // RUNNING needs both the manager's entry and the liveness key at this address.
    method GetProtocolStatus(ptype: string, id: string) returns (running: bool)
      ensures running <==> IsRunning(Local(), address, ptype, id)
      ensures running <==> id in manager && ProtocolInfo(address, ptype, id) in etcd.store.leased
    {
      var key := ProtocolInfo(address, ptype, id);
      running := id in manager && key in etcd.store.leased;
    }
  }

  // ---------------------------------------------------------------- the order of the writes

  function AllWritten(store: Store, ws: seq<Write>): Store {
    if ws == [] then store else Written(AllWritten(store, ws[..|ws| - 1]), ws[|ws| - 1])
  }

  lemma WrittenMore(store: Store, ws: seq<Write>, w: Write)
    ensures AllWritten(store, ws + [w]) == Written(AllWritten(store, ws), w)
  {
    assert (ws + [w])[..|ws|] == ws;
  }

  /**
   Wherever the subscriber of a deploy breaks off, a liveness key that it has put has its record and
   its info behind it.
   */
  lemma DeployCanBreakOff(store: Store, r: ProtocolInfo, d: Detail, lease: nat, ws: seq<Write>)
    requires ws <= [RecordPut(r), InfoPut(r.id, d), LeasedPut(r, lease)] && r !in store.leased
    ensures var s := AllWritten(store, ws);
            r in s.leased ==> r in s.records && r.id in s.infos && s.infos[r.id] == d
  {
    WrittenMore(store, [], RecordPut(r));
    WrittenMore(store, [RecordPut(r)], InfoPut(r.id, d));
    WrittenMore(store, [RecordPut(r), InfoPut(r.id, d)], LeasedPut(r, lease));
    assert [] + [RecordPut(r)] == [RecordPut(r)];
    assert [RecordPut(r)] + [InfoPut(r.id, d)] == [RecordPut(r), InfoPut(r.id, d)];
    assert [RecordPut(r), InfoPut(r.id, d)] + [LeasedPut(r, lease)] ==
           [RecordPut(r), InfoPut(r.id, d), LeasedPut(r, lease)];
    assert ws == [RecordPut(r), InfoPut(r.id, d), LeasedPut(r, lease)][..|ws|];
    assert |ws| == 1 ==> ws == [RecordPut(r)];
    assert |ws| == 2 ==> ws == [RecordPut(r), InfoPut(r.id, d)];
    assert |ws| == 3 ==> ws == [RecordPut(r), InfoPut(r.id, d), LeasedPut(r, lease)];
  }

  /** Wherever the subscriber of an undeploy breaks off, the liveness key is there as long as the record. */
  lemma UndeployCanBreakOff(store: Store, r: ProtocolInfo, ws: seq<Write>)
    requires ws <= [RecordDelete(r), LeasedDelete(r)] && r in store.leased
    ensures var s := AllWritten(store, ws);
            r in s.records ==> r in s.leased
  {
    WrittenMore(store, [], RecordDelete(r));
    WrittenMore(store, [RecordDelete(r)], LeasedDelete(r));
    assert [] + [RecordDelete(r)] == [RecordDelete(r)];
    assert [RecordDelete(r)] + [LeasedDelete(r)] == [RecordDelete(r), LeasedDelete(r)];
    assert ws == [RecordDelete(r), LeasedDelete(r)][..|ws|];
    assert |ws| == 1 ==> ws == [RecordDelete(r)];
  }

  // ---------------------------------------------------------------- one container among others

  ghost predicate Agrees(local: Site, s: Site, a: string) {
    a in s.processes && a in local.processes && local.store == s.store && local.processes[a] == s.processes[a]
  }

  /** Serving a deploy reads and changes only the container's own state and the store. */
  lemma {:induction false} ServingIsLocal(local: Site, s: Site, a: string, req: DeployRequest,
                                          groups: seq<(string, seq<DeviceInfo>)>)
    requires Agrees(local, s, a)
    ensures var (l1, ok1) := ServeGroups(local, a, req, groups);
            var (s1, ok2) := ServeGroups(s, a, req, groups);
            Agrees(l1, s1, a) && ok1 == ok2 && s1.processes == s.processes[a := l1.processes[a]]
    decreases |groups|
  {
    if groups != [] {
      var (group, devices) := groups[0];
      var id := ContainerId(req.protocolId, group, req.numberIndex);
      if id !in s.processes[a].manager && req.ptype in s.processes[a].types {
        ServingIsLocal(StartGroup(local, a, req.ptype, id, Detail(group, devices)),
                       StartGroup(s, a, req.ptype, id, Detail(group, devices)), a, req, groups[1..]);
      }
    }
  }

  lemma UndeployingIsLocal(local: Site, s: Site, a: string, id: string)
    requires Agrees(local, s, a)
    ensures ServeUndeploy(local, a, id).store == ServeUndeploy(s, a, id).store
    ensures ServeUndeploy(s, a, id).processes == s.processes
  {}
}
