/**
 Uninterrupted calls: what one request to a container, and one `dispatchToAlive`, do to etcd and
 to the processes when nothing else happens meanwhile. The classes in `Container` and
 `Coordinator` are proved against these functions, and `Simulation` shows that each of them is
 a run of the interleaved machine in `Cluster`.
 */
module Calls {
  import opened Wrappers
  import opened Keys
  import opened Store
  import opened Cluster

  datatype Site = Site(store: Store, processes: map<string, Process>)

  // The request of the deploy API. The groups are the request's map in its iteration order.
  datatype DeployRequest = DeployRequest(
    ptype: string,
    protocolId: string,
    numberIndex: Int64,
    groups: seq<(string, seq<DeviceInfo>)>)

  // ---------------------------------------------------------------- container requests

  // The three puts of the deploy subscriber.
  function Publish(store: Store, r: ProtocolInfo, d: Detail, lease: nat): Store {
    store.PutRecord(r).PutInfo(r.id, d).PutLeased(r, lease)
  }

  // Starting one group that is neither registered nor of an unknown type.
  function StartGroup(s: Site, a: string, ptype: string, id: string, d: Detail): Site
    requires a in s.processes
  {
    var p := s.processes[a];
    Site(if p.phase.Ready? then Publish(s.store, ProtocolInfo(a, ptype, id), d, p.lease) else s.store,
         s.processes[a := p.(manager := p.manager[id := Wrapper(ptype, d)])])
  }

  // Container.Deploy. A registered id ends the call at once, with success and with the remaining
  // groups left alone.
  function ServeGroups(s: Site, a: string, req: DeployRequest, groups: seq<(string,
                       seq<DeviceInfo>)>): (r: (Site, bool))
    requires a in s.processes
    ensures r.0.processes.Keys == s.processes.Keys
    decreases |groups|
  {
    if groups == [] then (s, true)
    else
      var (group, devices) := groups[0];
      var id := ContainerId(req.protocolId, group, req.numberIndex);
      if id in s.processes[a].manager then (s, true)
      else if req.ptype !in s.processes[a].types then (s, false)
      else ServeGroups(StartGroup(s, a, req.ptype, id, Detail(group, devices)), a, req, groups[1..])
  }

  function ServeDeploy(s: Site, a: string, req: DeployRequest): (r: (Site, bool))
    requires a in s.processes
    ensures r.0.processes.Keys == s.processes.Keys
  {
    ServeGroups(s, a, req, req.groups)
  }

  predicate Undeploys(s: Site, a: string, id: string) {
    a in s.processes && id in s.processes[a].manager && s.processes[a].phase.Ready?
  }

  // dealUnDeployRequest for a composed id. The manager keeps its entry.
  function ServeUndeploy(s: Site, a: string, id: string): Site {
    if Undeploys(s, a, id) then
      var r := ProtocolInfo(a, s.processes[a].manager[id].ptype, id);
      s.(store := s.store.DeleteRecord(r).DeleteLeased(r))
    else s
  }

  // getProtocolStatus
  predicate IsRunning(s: Site, a: string, ptype: string, id: string) {
    a in s.processes && id in s.processes[a].manager && ProtocolInfo(a, ptype, id) in s.store.leased
  }

  // ---------------------------------------------------------------- dispatchToAlive

  predicate LeasedAt(s: Site, r: ProtocolInfo, a: string) {
    ProtocolInfo(a, r.ptype, r.id) in s.store.leased
  }

  // checkProtocolAlreadyAlive
  predicate AlreadyAlive(s: Site, r: ProtocolInfo) {
    exists a :: a in s.store.up && LeasedAt(s, r, a)
  }

  // The undeploy request carries the id and nothing else, so an id without a colon is completed
  // with an empty group.
  function UndeployId(r: ProtocolInfo): string {
    ContainerId(r.id, "", 0)
  }

  // doRemoveGarbageData
  function RemoveGarbage(s: Site, r: ProtocolInfo, target: string): Site {
    if target == r.addr then s
    else
      var s1 := s.(store := s.store.DeleteRecord(r));
      if r.addr in s.store.up then ServeUndeploy(s1, r.addr, UndeployId(r)) else s1
  }

  // The request that dispatchToAlive sends: one group, with the recorded devices.
  function RedeployRequest(r: ProtocolInfo, d: Detail): DeployRequest {
    DeployRequest(r.ptype, r.id, 0, [(d.deviceGroupId, d.devices)])
  }

  // The first deploy request of the loop: None when it is not sent or fails.
  function Redeployed(s: Site, r: ProtocolInfo, target: string): Option<Site> {
    if r.id !in s.store.infos || target !in s.processes then None
    else
      var (s1, ok) := ServeDeploy(s, target, RedeployRequest(r, s.store.infos[r.id]));
      if ok then Some(s1) else None
  }

  // The whole call, in closed form: the polling loop changes nothing after its first round.
  function Dispatched(s: Site, r: ProtocolInfo, target: string): (Site, bool) {
    if AlreadyAlive(s, r) then (RemoveGarbage(s, r, target), true)
    else
      match Redeployed(s, r, target)
      case None => (s, false)
      case Some(s1) =>
        var s2 := RemoveGarbage(s1, r, target);
        (s2, IsRunning(s2, target, r.ptype, r.id))
  }

  /**
   What doRemoveGarbageData takes from etcd, record by record: nothing if the pick is the record's own
   address; else the record, and, if the old node is in the alive list, subscribed and has the id, also
   the record and the key under which it holds the id. An id that is not composed is completed first.
   */
  lemma RemovesExactly(s: Site, r: ProtocolInfo, target: string, q: ProtocolInfo)
    ensures var s' := RemoveGarbage(s, r, target);
            var id := if ':' in r.id then r.id else r.id + "::0";
            var asked := target != r.addr && r.addr in s.store.up && r.addr in s.processes
                         && s.processes[r.addr].phase.Ready? && id in s.processes[r.addr].manager;
            var held := if asked then Some(ProtocolInfo(r.addr, s.processes[r.addr].manager[id].ptype, id)) else None;
            && s'.processes == s.processes
            && s'.store == s.store.(records := s'.store.records, leased := s'.store.leased)
            && (q in s'.store.records <==> q in s.store.records && (target == r.addr || q != r) && held != Some(q))
            && (q in s'.store.leased <==> q in s.store.leased && held != Some(q))
  {
    ItoaMeaning(0, 0);
    assert r.id + ":" + "" + ":" + "0" == r.id + "::0";
  }

  // ---------------------------------------------------------------- facts about container requests

  // The id under which the target serves the request: the record's own when it is composed.
  function ServedId(s: Site, r: ProtocolInfo): string
    requires r.id in s.store.infos
  {
    ContainerId(r.id, s.store.infos[r.id].deviceGroupId, 0)
  }

  /** A composed id stays; another one is registered at the target with the recorded group and index 0. */
  lemma ServedIdMeaning(s: Site, r: ProtocolInfo)
    requires r.id in s.store.infos
    ensures ServedId(s, r) == if ':' in r.id then r.id else r.id + ":" + s.store.infos[r.id].deviceGroupId + ":0"
  {
    ItoaMeaning(0, 0);
    var start := r.id + ":" + s.store.infos[r.id].deviceGroupId;
    assert start + ":" + "0" == start + ":0";
  }

  lemma RedeployMeaning(s: Site, r: ProtocolInfo, target: string)
    requires r.id in s.store.infos && target in s.processes
    ensures var p := s.processes[target];
            Redeployed(s, r, target) ==
            if ServedId(s, r) in p.manager then Some(s)
            else if r.ptype !in p.types then None
            else Some(StartGroup(s, target, r.ptype, ServedId(s, r), s.store.infos[r.id]))
    ensures !ServeDeploy(s, target, RedeployRequest(r, s.store.infos[r.id])).1 ==>
              ServeDeploy(s, target, RedeployRequest(r, s.store.infos[r.id])).0 == s
  {
    var d := s.store.infos[r.id];
    var req := RedeployRequest(r, d);
    var started := StartGroup(s, target, r.ptype, ServedId(s, r), d);
    assert req.groups[1..] == [];
    assert Detail(d.deviceGroupId, d.devices) == d;
    assert ServeGroups(started, target, req, []) == (started, true);
  }

  ghost predicate DistinctGroups(groups: seq<(string, seq<DeviceInfo>)>) {
    forall i, j :: 0 <= i < j < |groups| ==> groups[i].0 != groups[j].0
  }

  function GroupId(req: DeployRequest, groups: seq<(string, seq<DeviceInfo>)>, i: nat): string
    requires i < |groups|
  {
    ContainerId(req.protocolId, groups[i].0, req.numberIndex)
  }

  ghost predicate Registered(s: Site, a: string, req: DeployRequest, groups: seq<(string, seq<DeviceInfo>)>, i: nat)
    requires a in s.processes && i < |groups|
  {
    GroupId(req, groups, i) in s.processes[a].manager
  }

  lemma GroupIdsDiffer(req: DeployRequest, g: string, h: string)
    requires ':' !in req.protocolId && g != h
    ensures ContainerId(req.protocolId, g, req.numberIndex) != ContainerId(req.protocolId, h, req.numberIndex)
  {
    if ContainerId(req.protocolId, g, req.numberIndex) == ContainerId(req.protocolId, h, req.numberIndex) {
      ComposeInjective(req.protocolId, g, req.numberIndex, req.protocolId, h, req.numberIndex);
    }
  }

  // What the start of the first group leaves for the others.
  lemma StartFirst(s: Site, a: string, req: DeployRequest, groups: seq<(string, seq<DeviceInfo>)>)
    requires a in s.processes && groups != [] && ':' !in req.protocolId && DistinctGroups(groups)
    ensures var s1 := StartGroup(s, a, req.ptype, GroupId(req, groups, 0), Detail(groups[0].0, groups[0].1));
            && DistinctGroups(groups[1..])
            && (forall i :: 0 <= i < |groups| - 1 ==>
                  && groups[1..][i] == groups[i + 1]
                  && (Registered(s1, a, req, groups[1..], i) <==> Registered(s, a, req, groups, i + 1)))
  {
    forall i | 0 <= i < |groups| - 1
      ensures GroupId(req, groups, 0) != GroupId(req, groups[1..], i)
    {
      assert groups[1..][i] == groups[i + 1];
      GroupIdsDiffer(req, groups[0].0, groups[i + 1].0);
    }
  }

  lemma {:induction false} ServingOnlyRegisters(s: Site, a: string, req: DeployRequest,
                                                groups: seq<(string, seq<DeviceInfo>)>, id: string)
    requires a in s.processes
    ensures id in s.processes[a].manager ==> id in ServeGroups(s, a, req, groups).0.processes[a].manager
    ensures id in ServeGroups(s, a, req, groups).0.processes[a].manager ==>
              id in s.processes[a].manager || exists i :: 0 <= i < |groups| && GroupId(req, groups, i) == id
    decreases |groups|
  {
    if groups != [] {
      var (group, devices) := groups[0];
      var gid := ContainerId(req.protocolId, group, req.numberIndex);
      if gid !in s.processes[a].manager && req.ptype in s.processes[a].types {
        var s1 := StartGroup(s, a, req.ptype, gid, Detail(group, devices));
        ServingOnlyRegisters(s1, a, req, groups[1..], id);
        if id in ServeGroups(s1, a, req, groups[1..]).0.processes[a].manager && id !in s1.processes[a].manager {
          var i :| 0 <= i < |groups| - 1 && GroupId(req, groups[1..], i) == id;
          assert GroupId(req, groups, i + 1) == id;
        }
        if id == gid {
          assert GroupId(req, groups, 0) == id;
        }
      }
    }
  }

  ghost predicate AllRegistered(s: Site, a: string, req: DeployRequest, groups: seq<(string, seq<DeviceInfo>)>)
    requires a in s.processes
  {
    forall i :: 0 <= i < |groups| ==> Registered(s, a, req, groups, i)
  }

  // No group found registered comes before one that is not.
  ghost predicate NoneSkipped(s: Site, a: string, req: DeployRequest, groups: seq<(string, seq<DeviceInfo>)>)
    requires a in s.processes
  {
    forall i, j :: 0 <= i < j < |groups| && Registered(s, a, req, groups, i) ==> Registered(s, a, req, groups, j)
  }

  lemma AllRegisteredSplit(s: Site, a: string, req: DeployRequest, groups: seq<(string, seq<DeviceInfo>)>)
    requires a in s.processes && groups != []
    ensures AllRegistered(s, a, req, groups) <==>
            Registered(s, a, req, groups, 0) && AllRegistered(s, a, req, groups[1..])
  {
    var rest := groups[1..];
    forall i | 0 <= i < |rest|
      ensures Registered(s, a, req, rest, i) <==> Registered(s, a, req, groups, i + 1)
    {
      assert rest[i] == groups[i + 1];
    }
    if AllRegistered(s, a, req, groups) {
      forall i | 0 <= i < |rest|
        ensures Registered(s, a, req, rest, i)
      {
        assert Registered(s, a, req, groups, i + 1);
      }
    }
    if Registered(s, a, req, groups, 0) && AllRegistered(s, a, req, rest) {
      forall i | 0 <= i < |groups|
        ensures Registered(s, a, req, groups, i)
      {
        if i > 0 {
          assert Registered(s, a, req, rest, i - 1);
        }
      }
    }
  }

  lemma NoneSkippedSplit(s: Site, s1: Site, a: string, req: DeployRequest, groups: seq<(string, seq<DeviceInfo>)>)
    requires a in s.processes && a in s1.processes && groups != [] && !Registered(s, a, req, groups, 0)
    requires forall i :: 0 <= i < |groups| - 1 ==>
               (Registered(s1, a, req, groups[1..], i) <==> Registered(s, a, req, groups, i + 1))
    ensures NoneSkipped(s, a, req, groups) <==> NoneSkipped(s1, a, req, groups[1..])
  {
    if NoneSkipped(s, a, req, groups) {
      forall i, j | 0 <= i < j < |groups| - 1 && Registered(s1, a, req, groups[1..], i)
        ensures Registered(s1, a, req, groups[1..], j)
      {
        assert Registered(s, a, req, groups, i + 1) && Registered(s, a, req, groups, j + 1);
      }
    } else {
      var i, j :| 0 <= i < j < |groups| && Registered(s, a, req, groups, i) && !Registered(s, a, req, groups, j);
      assert Registered(s1, a, req, groups[1..], i - 1) && !Registered(s1, a, req, groups[1..], j - 1);
    }
  }

  /**
   One deploy call registers every group of a request exactly when no group of it is found
   registered before one that is not: the first registered group ends the call.
   */
  lemma {:induction false} EveryGroupIsRegisteredIff(s: Site, a: string, req: DeployRequest,
                                                     groups: seq<(string, seq<DeviceInfo>)>)
    requires a in s.processes && req.ptype in s.processes[a].types
    requires ':' !in req.protocolId && DistinctGroups(groups)
    ensures ServeGroups(s, a, req, groups).1
    ensures AllRegistered(ServeGroups(s, a, req, groups).0, a, req, groups) <==> NoneSkipped(s, a, req, groups)
    decreases |groups|
  {
    if groups != [] && !Registered(s, a, req, groups, 0) {
      var s1 := StartGroup(s, a, req.ptype, GroupId(req, groups, 0), Detail(groups[0].0, groups[0].1));
      var after := ServeGroups(s, a, req, groups).0;
      StartFirst(s, a, req, groups);
      EveryGroupIsRegisteredIff(s1, a, req, groups[1..]);
      assert after == ServeGroups(s1, a, req, groups[1..]).0;
      ServingOnlyRegisters(s1, a, req, groups[1..], GroupId(req, groups, 0));
      AllRegisteredSplit(after, a, req, groups);
      NoneSkippedSplit(s, s1, a, req, groups);
    } else if groups != [] {
      FirstRegistered(s, a, req, groups);
    }
  }

  lemma FirstRegistered(s: Site, a: string, req: DeployRequest, groups: seq<(string, seq<DeviceInfo>)>)
    requires a in s.processes && groups != [] && Registered(s, a, req, groups, 0)
    ensures ServeGroups(s, a, req, groups) == (s, true)
    ensures AllRegistered(s, a, req, groups) <==> NoneSkipped(s, a, req, groups)
  {}

  // The later groups of a request leave an id that is not theirs alone.
  lemma {:induction false} ServingLeavesOthers(s: Site, a: string, req: DeployRequest,
                                               groups: seq<(string, seq<DeviceInfo>)>, r: ProtocolInfo)
    requires a in s.processes && r.id in s.processes[a].manager && r.id in s.store.infos
    requires forall i :: 0 <= i < |groups| ==> GroupId(req, groups, i) != r.id
    ensures var s' := ServeGroups(s, a, req, groups).0;
            && r.id in s'.processes[a].manager && s'.processes[a].manager[r.id] == s.processes[a].manager[r.id]
            && r.id in s'.store.infos && s'.store.infos[r.id] == s.store.infos[r.id]
            && (r in s.store.records ==> r in s'.store.records)
            && (r in s.store.leased ==> r in s'.store.leased)
    decreases |groups|
  {
    if groups != [] {
      var id := GroupId(req, groups, 0);
      if id !in s.processes[a].manager && req.ptype in s.processes[a].types {
        assert forall i :: 0 <= i < |groups| - 1 ==> GroupId(req, groups[1..], i) == GroupId(req, groups, i + 1);
        ServingLeavesOthers(StartGroup(s, a, req.ptype, id, Detail(groups[0].0, groups[0].1)), a, req, groups[1..], r);
      }
    }
  }

  // The group is registered with its own devices, recorded and live.
  ghost predicate IsUp(s: Site, a: string, req: DeployRequest, group: string, devices: seq<DeviceInfo>) {
    var id, d := ContainerId(req.protocolId, group, req.numberIndex), Detail(group, devices);
    && IsRunning(s, a, req.ptype, id) && s.processes[a].manager[id] == Wrapper(req.ptype, d)
    && ProtocolInfo(a, req.ptype, id) in s.store.records && id in s.store.infos && s.store.infos[id] == d
  }

  lemma StartedIsUp(s: Site, a: string, req: DeployRequest, group: string, devices: seq<DeviceInfo>)
    requires a in s.processes && s.processes[a].phase.Ready? && s.processes[a].lease in s.store.leases
    ensures var id := ContainerId(req.protocolId, group, req.numberIndex);
            IsUp(StartGroup(s, a, req.ptype, id, Detail(group, devices)), a, req, group, devices)
  {}

  /**
   A deploy of new groups at a subscribed process brings up every one of them: registered, with
   its own devices, and with its record, its info and its liveness key in etcd.
   */
  lemma {:induction false} NewGroupsComeUp(s: Site, a: string, req: DeployRequest,
                                           groups: seq<(string, seq<DeviceInfo>)>, i: nat)
    requires a in s.processes && req.ptype in s.processes[a].types
    requires s.processes[a].phase.Ready? && s.processes[a].lease in s.store.leases
    requires ':' !in req.protocolId && DistinctGroups(groups) && i < |groups|
    requires forall j :: 0 <= j < |groups| ==> !Registered(s, a, req, groups, j)
    ensures IsUp(ServeGroups(s, a, req, groups).0, a, req, groups[i].0, groups[i].1)
    decreases |groups|
  {
    var (group, devices) := groups[0];
    var id := GroupId(req, groups, 0);
    var s1, rest := StartGroup(s, a, req.ptype, id, Detail(group, devices)), groups[1..];
    assert !Registered(s, a, req, groups, 0);
    assert ServeGroups(s, a, req, groups) == ServeGroups(s1, a, req, rest);
    StartFirst(s, a, req, groups);
    if i == 0 {
      forall j | 0 <= j < |rest|
        ensures GroupId(req, rest, j) != id
      {
        assert rest[j] == groups[j + 1];
        GroupIdsDiffer(req, group, groups[j + 1].0);
      }
      StartedIsUp(s, a, req, group, devices);
      ServingLeavesOthers(s1, a, req, rest, ProtocolInfo(a, req.ptype, id));
    } else {
      NewGroupsComeUp(s1, a, req, rest, i - 1);
      assert rest[i - 1] == groups[i];
    }
  }

  /** A repeated deploy of a composed id, or of one group already there, starts and publishes nothing. */
  lemma RepeatedDeployIsNoop(s: Site, a: string, req: DeployRequest, group: string, devices: seq<DeviceInfo>,
                             req': DeployRequest, devices': seq<DeviceInfo>)
    requires a in s.processes && req.groups == [(group, devices)] && ServeDeploy(s, a, req).1
    requires req'.groups == [(group, devices')]
    requires (req'.protocolId == req.protocolId && req'.numberIndex == req.numberIndex)
             || req'.protocolId == ContainerId(req.protocolId, group, req.numberIndex)
    ensures ServeDeploy(ServeDeploy(s, a, req).0, a, req') == (ServeDeploy(s, a, req).0, true)
  {
    var id := ContainerId(req.protocolId, group, req.numberIndex);
    var after := ServeDeploy(s, a, req).0;
    CheckedIdIsRegisteredId(req.protocolId, group, req.numberIndex, group, req'.numberIndex);
    assert ContainerId(req'.protocolId, group, req'.numberIndex) == id;
    assert req.groups[1..] == [];
    assert id in after.processes[a].manager by {
      if id !in s.processes[a].manager {
        var started := StartGroup(s, a, req.ptype, id, Detail(group, devices));
        assert ServeGroups(started, a, req, []) == (started, true);
      }
    }
  }

  /**
   What a stop undoes: after the start of a new group at a subscribed process, its stop leaves etcd
   as it was, but for the info record, exactly if neither the record nor the liveness key was
   there before. The process keeps its entry.
   */
  lemma StopUndoesStartIff(s: Site, a: string, ptype: string, id: string, d: Detail)
    requires a in s.processes && s.processes[a].phase.Ready? && id !in s.processes[a].manager
    ensures var r, after := ProtocolInfo(a, ptype, id), ServeUndeploy(StartGroup(s, a, ptype, id, d), a, id);
            && after.processes == StartGroup(s, a, ptype, id, d).processes
            && (after.store == s.store.PutInfo(id, d) <==> r !in s.store.records && r !in s.store.leased)
  {}

  /**
   A stopped protocol is not started again at the same process: a deploy of it answers with success,
   writes nothing, and its record and liveness key stay away.
   */
  lemma StoppedIsNotRestarted(s: Site, a: string, req: DeployRequest, group: string, devices: seq<DeviceInfo>)
    requires req.groups == [(group, devices)]
    requires Undeploys(s, a, ContainerId(req.protocolId, group, req.numberIndex))
    ensures var id := ContainerId(req.protocolId, group, req.numberIndex);
            var stopped := ServeUndeploy(s, a, id);
            && ServeDeploy(stopped, a, req) == (stopped, true)
            && ProtocolInfo(a, s.processes[a].manager[id].ptype, id) !in stopped.store.records
            && !IsRunning(stopped, a, s.processes[a].manager[id].ptype, id)
  {}

  // ---------------------------------------------------------------- facts about a dispatch

  ghost predicate HasRecordOf(s: Site, id: string) {
    exists q :: q in s.store.records && q.id == id
  }

  // The request reaches a process that accepts it.
  predicate Accepts(s: Site, r: ProtocolInfo, target: string) {
    && r.id in s.store.infos && target in s.processes
    && (ServedId(s, r) in s.processes[target].manager || r.ptype in s.processes[target].types)
  }

  /**
   When one dispatch keeps the last record of an id. It is lost exactly when the pick is not the
   record's own address and either the id was found alive (the witness had no record), or the
   target accepted the request without writing a record: because its manager still had the id,
   or because it had not subscribed yet. (The ids of records are composed by the containers.)
   */
  lemma LastRecordSurvivesIff(s: Site, r: ProtocolInfo, target: string)
    requires ':' in r.id && r in s.store.records && forall q :: q in s.store.records && q.id == r.id ==> q == r
    ensures HasRecordOf(Dispatched(s, r, target).0, r.id) <==>
            || target == r.addr
            || (!AlreadyAlive(s, r) &&
                (Accepts(s, r, target) ==> r.id !in s.processes[target].manager && s.processes[target].phase.Ready?))
  {
    var after := Dispatched(s, r, target).0;
    var own := ProtocolInfo(target, r.ptype, r.id);
    if r.id in s.store.infos && target in s.processes {
      RedeployMeaning(s, r, target);
    }
    if target == r.addr {
      assert r in after.store.records;
    } else if !AlreadyAlive(s, r) {
      if !Accepts(s, r, target) {
        assert r in after.store.records;
      } else if r.id !in s.processes[target].manager && s.processes[target].phase.Ready? {
        assert own in after.store.records;
      }
    }
  }

  /**
   What true means: afterwards the id is leased at a node of the alive list, except when the only
   such lease was the record's own, the pick was another node, and the undeploy removed it.
   */
  lemma AliveAfterSuccessIff(s: Site, r: ProtocolInfo, target: string)
    requires ':' in r.id && target in s.store.up && Dispatched(s, r, target).1
    ensures AlreadyAlive(Dispatched(s, r, target).0, r) <==>
            !(&& AlreadyAlive(s, r) && target != r.addr
              && (forall a :: a in s.store.up && LeasedAt(s, r, a) ==> a == r.addr)
              && Undeploys(s, r.addr, r.id) && s.processes[r.addr].manager[r.id].ptype == r.ptype)
  {
    var after := Dispatched(s, r, target).0;
    if AlreadyAlive(s, r) {
      assert after.store.up == s.store.up;
      if w :| w in s.store.up && LeasedAt(s, r, w) && w != r.addr {
        assert LeasedAt(after, r, w);
      } else {
        var w :| w in s.store.up && LeasedAt(s, r, w);
        assert w == r.addr && (LeasedAt(after, r, w) || forall a :: a in s.store.up ==> !LeasedAt(after, r, a));
      }
    } else {
      RedeployMeaning(s, r, target);
      assert LeasedAt(after, r, target) && target in after.store.up;
    }
  }

  /** A dispatch that returns false before a deploy request was accepted has changed nothing. */
  lemma EarlyFailureChangesNothing(s: Site, r: ProtocolInfo, target: string)
    requires !Dispatched(s, r, target).1 && Dispatched(s, r, target).0 != s
    ensures Accepts(s, r, target) && !IsRunning(Dispatched(s, r, target).0, target, r.ptype, r.id)
  {
    if r.id in s.store.infos && target in s.processes {
      RedeployMeaning(s, r, target);
    }
  }

  // A second round of the polling loop finds everything done.
  lemma SecondRoundIsNoop(s: Site, r: ProtocolInfo, target: string)
    requires Redeployed(s, r, target).Some?
    ensures var s2 := RemoveGarbage(Redeployed(s, r, target).value, r, target);
            && Redeployed(s2, r, target) == Some(s2)
            && RemoveGarbage(s2, r, target) == s2
  {
    RedeployMeaning(s, r, target);
    var s1 := Redeployed(s, r, target).value;
    var s2 := RemoveGarbage(s1, r, target);
    assert s2.processes == s1.processes && s2.store.infos == s1.store.infos && s2.store.up == s1.store.up;
    RedeployMeaning(s2, r, target);
    GarbageIsGone(s1, r, target);
  }

  lemma GarbageIsGone(s: Site, r: ProtocolInfo, target: string)
    ensures RemoveGarbage(RemoveGarbage(s, r, target), r, target) == RemoveGarbage(s, r, target)
  {}
}
