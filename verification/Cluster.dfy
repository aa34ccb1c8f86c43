/**
 The deploy, fault and recover protocol as a state machine: every etcd operation and every
 request is one step, and the steps of all coordinators and containers interleave freely.

 - A container process lives under one lease. It grants the lease, puts its node key and only
   then subscribes to the deploy events (`EtcdRegister.Start`), while its HTTP server may already
   take requests.
 - `DeployTask` is one call of `Container.Deploy` for one device group, with the subscriber's
   three puts; `UndeployTask` is `ProtocolWrapper.Stop` with the subscriber's two deletes.
 - `Dispatch` is one call of `dispatchToAlive`. A coordinator's fault loop is one goroutine, so it
   runs at most one at a time, and it holds the view's read lock meanwhile.
 */
module Cluster {
  import opened Wrappers
  import opened Store
  import opened View
  import opened Selection

  datatype Wrapper = Wrapper(ptype: string, detail: Detail)

  datatype Phase = Granted | Announced | Ready

  datatype Process = Process(lease: nat, phase: Phase, types: set<string>, manager: map<string, Wrapper>)

  datatype DeployPc = LookingUp | PuttingRecord | PuttingInfo | PuttingLeased | Registering | Replied(ok: bool)

  datatype DeployTask = DeployTask(addr: string, lease: nat, ptype: string, id: string, detail: Detail, pc: DeployPc)
  {
    function Info(): ProtocolInfo {
      ProtocolInfo(addr, ptype, id)
    }

    predicate Putting() {
      pc.PuttingRecord? || pc.PuttingInfo? || pc.PuttingLeased?
    }

    predicate WroteRecord() {
      pc.PuttingInfo? || pc.PuttingLeased?
    }
  }

  datatype UndeployPc = DroppingRecord | DroppingLeased | Stopped

  datatype UndeployTask = UndeployTask(addr: string, lease: nat, ptype: string, id: string, pc: UndeployPc)
  {
    function Info(): ProtocolInfo {
      ProtocolInfo(addr, ptype, id)
    }
  }

  // The store, the container processes and the requests they are serving.
  //
  // The last four fields are history. `deleted` and `gone` are the DELETE events on protocol keys
  // and on container keys, which may be redelivered at will. `removed` and `unwritten` are read by
  // no step. A pair (lease, id) is removed once the removal of the id under that lease has begun:
  // by a stop, by the deletion of its record or by the undeploy request of a dispatch. It is
  // unwritten once a deploy under the lease went on without having put the record: because the
  // process had not subscribed yet, or because the put failed.
  datatype World = World(
    store: Store,
    processes: map<string, Process>,
    deploys: map<nat, DeployTask>,
    undeploys: map<nat, UndeployTask>,
    nextLease: nat,
    nextTask: nat,
    deleted: set<ProtocolInfo>,
    gone: set<string>,
    removed: set<(nat, string)>,
    unwritten: set<(nat, string)>)

  // `keep` is the address where the protocol is known to run; `polls` tells the deploying branch
  // of dispatchToAlive, which goes on to poll the target, from the already-alive branch.
  datatype DispatchPc =
    | Confirming
    | Choosing
    | Listing
    | Probing(todo: set<string>)
    | Reading
    | Waiting(task: nat)
    | Removing(keep: string, polls: bool)
    | Checking(keep: string, polls: bool)
    | Undeploying(keep: string, polls: bool)
    | Polling

  datatype Dispatch = Dispatch(rec: ProtocolInfo, target: string, count: nat, pc: DispatchPc)

  datatype State = State(world: World, dispatches: map<NodeId, Dispatch>, views: map<NodeId, seq<NodeInfo>>)

  // ---------------------------------------------------------------- containers

  predicate Holds(w: World, a: string, id: string) {
    && a in w.processes
    && (id in w.processes[a].manager || exists k :: k in w.deploys && w.deploys[k].addr == a && w.deploys[k].id == id)
  }

  // The leases under which the id runs, or may come to run, at the address.
  function LeasesOf(w: World, a: string, id: string): set<(nat, string)> {
    (set r | r in w.store.leased && r.addr == a && r.id == id :: (w.store.leased[r], id))
    + (if Holds(w, a, id) then {(w.processes[a].lease, id)} else {})
  }

  predicate CanUndeploy(w: World, a: string, id: string) {
    a in w.processes && id in w.processes[a].manager && w.processes[a].phase.Ready?
  }

  // getProtocolStatus
  predicate Running(w: World, a: string, ptype: string, id: string) {
    a in w.processes && id in w.processes[a].manager && ProtocolInfo(a, ptype, id) in w.store.leased
  }

  datatype Act =
    | Boot(addr: string, types: set<string>)
    | Announce(addr: string)
    | Subscribe(addr: string)
    | Crash(addr: string)
    | ExpireLease(lease: nat)
    | UserDeploy(addr: string, ptype: string, id: string, detail: Detail)
    | DeployStep(k: nat)
    | DeployFails(k: nat)
    | Stop(addr: string, id: string)   // by a user's undeploy request, or as the container shuts down
    | UndeployStep(k: nat)
    | UndeployFails(k: nat)

  predicate CanAct(w: World, act: Act) {
    match act
    case Boot(a, _) => a !in w.processes
    case Announce(a) => a in w.processes && w.processes[a].phase.Granted?
    case Subscribe(a) => a in w.processes && w.processes[a].phase.Announced?
    case Crash(a) => a in w.processes
    case ExpireLease(l) => l in w.store.leases
    case UserDeploy(a, _, _, _) => a in w.processes
    case DeployStep(k) => k in w.deploys && !w.deploys[k].pc.Replied? && w.deploys[k].addr in w.processes
    case DeployFails(k) => k in w.deploys && w.deploys[k].Putting()
    case Stop(a, id) => CanUndeploy(w, a, id)
    case UndeployStep(k) => k in w.undeploys && !w.undeploys[k].pc.Stopped?
    case UndeployFails(k) => k in w.undeploys && !w.undeploys[k].pc.Stopped?
  }

  function StartDeploy(w: World, a: string, ptype: string, id: string, d: Detail): World
    requires a in w.processes
  {
    w.(deploys := w.deploys[w.nextTask := DeployTask(a, w.processes[a].lease, ptype, id, d, LookingUp)],
    nextTask := w.nextTask + 1)
  }

  // The manager is asked for the id, then for the type; without the subscription nothing is put.
  function AfterLookUp(p: Process, t: DeployTask): DeployPc {
    if t.id in p.manager then Replied(true)
    else if t.ptype !in p.types then Replied(false)
    else if p.phase.Ready? then PuttingRecord
    else Registering
  }

  function LookUp(w: World, k: nat): World
    requires k in w.deploys && w.deploys[k].addr in w.processes
  {
    var t := w.deploys[k];
    var pc := AfterLookUp(w.processes[t.addr], t);
    w.(deploys := w.deploys[k := t.(pc := pc)],
    unwritten := if pc.Registering? then w.unwritten + {(t.lease, t.id)} else w.unwritten)
  }

  function RegisterIfAbsent(p: Process, id: string, wrapper: Wrapper): Process {
    if id in p.manager then p else p.(manager := p.manager[id := wrapper])
  }

  function Register(w: World, k: nat): World
    requires k in w.deploys && w.deploys[k].addr in w.processes
  {
    var t := w.deploys[k];
    w.(deploys := w.deploys[k := t.(pc := Replied(true))],
    processes := w.processes[t.addr := RegisterIfAbsent(w.processes[t.addr], t.id, Wrapper(t.ptype, t.detail))])
  }

  // The subscriber's puts, in their order.
  function Put(w: World, k: nat): World
    requires k in w.deploys && w.deploys[k].Putting()
  {
    var t := w.deploys[k];
    match t.pc
    case PuttingRecord => w.(deploys := w.deploys[k := t.(pc := PuttingInfo)], store := w.store.PutRecord(t.Info()))
    case PuttingInfo => w.(deploys := w.deploys[k := t.(pc := PuttingLeased)], store := w.store.PutInfo(t.id, t.detail))
    case PuttingLeased =>
      w.(deploys := w.deploys[k := t.(pc := Registering)], store := w.store.PutLeased(t.Info(), t.lease))
  }

  function NextDeploy(w: World, k: nat): World
    requires k in w.deploys && !w.deploys[k].pc.Replied? && w.deploys[k].addr in w.processes
  {
    if w.deploys[k].pc.LookingUp? then LookUp(w, k)
    else if w.deploys[k].pc.Registering? then Register(w, k)
    else Put(w, k)
  }

  // A failed put makes the subscriber return; the protocol is registered all the same.
  function FailDeploy(w: World, k: nat): World
    requires k in w.deploys
  {
    var t := w.deploys[k];
    w.(deploys := w.deploys[k := t.(pc := Registering)],
    unwritten := if t.pc.PuttingRecord? then w.unwritten + {(t.lease, t.id)} else w.unwritten)
  }

  function StartUndeploy(w: World, a: string, id: string): World
    requires CanUndeploy(w, a, id)
  {
    var p := w.processes[a];
    w.(undeploys := w.undeploys[w.nextTask := UndeployTask(a, p.lease, p.manager[id].ptype, id, DroppingRecord)],
    nextTask := w.nextTask + 1,
    removed := w.removed + LeasesOf(w, a, id))
  }

  // The node record goes first, the liveness key second.
  function NextUndeploy(w: World, k: nat): World
    requires k in w.undeploys && !w.undeploys[k].pc.Stopped?
  {
    var u := w.undeploys[k];
    match u.pc
    case DroppingRecord =>
      w.(undeploys := w.undeploys[k := u.(pc := DroppingLeased)], store := w.store.DeleteRecord(u.Info()),
      deleted := if u.Info() in w.store.records then w.deleted + {u.Info()} else w.deleted)
    case DroppingLeased =>
      w.(undeploys := w.undeploys[k := u.(pc := Stopped)], store := w.store.DeleteLeased(u.Info()),
      deleted := if u.Info() in w.store.leased then w.deleted + {u.Info()} else w.deleted)
  }

  function StopUndeploy(w: World, k: nat): World
    requires k in w.undeploys
  {
    w.(undeploys := w.undeploys[k := w.undeploys[k].(pc := Stopped)])
  }

  function DoBoot(w: World, a: string, types: set<string>): World {
    w.(processes := w.processes[a := Process(w.nextLease, Granted, types, map[])],
    store := w.store.(leases := w.store.leases + {w.nextLease}), nextLease := w.nextLease + 1)
  }

  function DoAnnounce(w: World, a: string): World
    requires a in w.processes
  {
    w.(processes := w.processes[a := w.processes[a].(phase := Announced)],
    store := w.store.PutUp(a, w.processes[a].lease))
  }

  function DoCrash(w: World, a: string): World {
    w.(processes := w.processes - {a},
    deploys := map k | k in w.deploys && w.deploys[k].addr != a :: w.deploys[k],
    undeploys := map k | k in w.undeploys && w.undeploys[k].addr != a :: w.undeploys[k])
  }

  function DoExpire(w: World, l: nat): World {
    w.(store := w.store.Expire(l),
    deleted := w.deleted + (set r | r in w.store.leased && w.store.leased[r] == l),
    gone := w.gone + (set a | a in w.store.up && w.store.up[a] == l))
  }

  function Perform(w: World, act: Act): World
    requires CanAct(w, act)
  {
    match act
    case Boot(a, types) => DoBoot(w, a, types)
    case Announce(a) => DoAnnounce(w, a)
    case Subscribe(a) => w.(processes := w.processes[a := w.processes[a].(phase := Ready)])
    case Crash(a) => DoCrash(w, a)
    case ExpireLease(l) => DoExpire(w, l)
    case UserDeploy(a, t, id, d) => StartDeploy(w, a, t, id, d)
    case DeployStep(k) => NextDeploy(w, k)
    case DeployFails(k) => FailDeploy(w, k)
    case Stop(a, id) => StartUndeploy(w, a, id)
    case UndeployStep(k) => NextUndeploy(w, k)
    case UndeployFails(k) => StopUndeploy(w, k)
  }

  // ---------------------------------------------------------------- dispatches

  // What a dispatch asks of the world: to serve its deploy request, to delete the old record, to
  // serve its undeploy request.
  function DeleteGarbage(w: World, r: ProtocolInfo): World {
    w.(store := w.store.DeleteRecord(r),
    deleted := if r in w.store.records then w.deleted + {r} else w.deleted,
    removed := w.removed + LeasesOf(w, r.addr, r.id))
  }

  function RequestUndeploy(w: World, a: string, id: string): World {
    if CanUndeploy(w, a, id) then StartUndeploy(w, a, id) else w
  }

  datatype Move =
    | Confirm
    | Choose(addr: string)
    | ListAlive
    | Probe(addr: string)
    | EndProbes
    | Redeploy
    | Collect
    | Remove
    | RemoveFails
    | CheckUp
    | SendUndeploy
    | Poll
    | Abort

  predicate HasReplied(w: World, k: nat) {
    k in w.deploys && w.deploys[k].pc == Replied(true)
  }

  predicate CanMove(w: World, d: Dispatch, move: Move) {
    match move
    case Confirm => d.pc.Confirming?
    case Choose(a) => d.pc.Choosing? && a in w.store.up
    case ListAlive => d.pc.Listing?
    case Probe(a) => d.pc.Probing? && a in d.pc.todo
    case EndProbes => d.pc.Probing? || d.pc.Listing?   // all probed, or a failed read
    case Redeploy => d.pc.Reading? && d.rec.id in w.store.infos && d.target in w.processes
    case Collect => d.pc.Waiting? && HasReplied(w, d.pc.task) && d.count <= 5
    case Remove => d.pc.Removing?
    case RemoveFails => d.pc.Removing? || d.pc.Checking? || d.pc.Undeploying?
    case CheckUp => d.pc.Checking?
    case SendUndeploy => d.pc.Undeploying?
    case Poll => d.pc.Polling?
    case Abort => true
  }

  // The move's effect on the world.
  function Effect(w: World, d: Dispatch, move: Move): World
    requires CanMove(w, d, move)
  {
    match move
    case Redeploy => StartDeploy(w, d.target, d.rec.ptype, d.rec.id, w.store.infos[d.rec.id])
    case Remove => if d.target == d.rec.addr then w else DeleteGarbage(w, d.rec)
    case SendUndeploy => RequestUndeploy(w, d.rec.addr, d.rec.id)
    case _ => w
  }

  datatype Outcome = Continue(dispatch: Dispatch) | Done

  // After doRemoveGarbageData: the already-alive branch is done, the deploying branch polls.
  function AfterRemoval(d: Dispatch): Outcome
    requires d.pc.Removing? || d.pc.Checking? || d.pc.Undeploying?
  {
    if d.pc.polls then Continue(d.(pc := Polling)) else Done
  }

  function AfterProbe(w: World, d: Dispatch, a: string): DispatchPc
    requires d.pc.Probing?
  {
    if ProtocolInfo(a, d.rec.ptype, d.rec.id) in w.store.leased then Removing(a, false) else Probing(d.pc.todo - {a})
  }

  // Where the move leaves the dispatch. The reply to the undeploy request is not looked at, so the
  // dispatch need not wait for it.
  function Next(w: World, d: Dispatch, move: Move): Outcome
    requires CanMove(w, d, move)
  {
    match move
    case Confirm => if d.rec in w.store.leased then Done else Continue(d.(pc := Choosing))
    case Choose(a) => Continue(d.(target := a, pc := Listing))
    case ListAlive => Continue(d.(pc := Probing(w.store.up.Keys)))
    case Probe(a) => Continue(d.(pc := AfterProbe(w, d, a)))
    case EndProbes => Continue(d.(pc := Reading))
    case Redeploy => Continue(d.(pc := Waiting(w.nextTask)))
    case Collect => Continue(d.(pc := Removing(d.target, true)))
    case Remove =>
      if d.target == d.rec.addr then AfterRemoval(d)
      else Continue(d.(pc := Checking(d.pc.keep, d.pc.polls)))
    case RemoveFails => AfterRemoval(d)
    case CheckUp =>
      if d.rec.addr in w.store.up then Continue(d.(pc := Undeploying(d.pc.keep, d.pc.polls))) else AfterRemoval(d)
    case SendUndeploy => AfterRemoval(d)
    case Poll =>
      if Running(w, d.target, d.rec.ptype, d.rec.id) then Done
      else Continue(d.(pc := Reading, count := d.count + 1))
    case Abort => Done
  }

  lemma MoveKeepsRecord(w: World, d: Dispatch, move: Move)
    requires CanMove(w, d, move)
    ensures Next(w, d, move).Continue? ==> Next(w, d, move).dispatch.rec == d.rec
  {}

  // ---------------------------------------------------------------- the machine

  datatype Step =
    | Container(act: Act)
    | Learn(c: NodeId, event: Event)
    | StartRecovery(c: NodeId, addr: string, kvs: seq<ProtocolInfo>)
    | GiveUp(c: NodeId, addr: string, kvs: seq<ProtocolInfo>)
    | Begin(c: NodeId, rec: ProtocolInfo, recovering: bool)
    | Advance(c: NodeId, move: Move)

  // The owner test and the read of the node record. A DELETE event is dispatched at once; a
  // recover event first checks the liveness key of the record it found.
  predicate CanBegin(hash: string -> nat, s: State, c: NodeId, r: ProtocolInfo, recovering: bool) {
    && c in s.views && c !in s.dispatches
    && r in s.world.store.records && (recovering || r in s.world.deleted)
    && Owns(s.views[c], c, hash(r.id))
  }

  // A coordinator outside a dispatch handles events: of the deploy nodes, of a container that is
  // gone, and of a recover key for which it finds nothing to dispatch.
  ghost predicate Enabled(hash: string -> nat, s: State, st: Step) {
    match st
    case Container(act) => CanAct(s.world, act)
    case Learn(c, _) => c in s.views && c !in s.dispatches
    case StartRecovery(c, a, kvs) =>
      c in s.views && c !in s.dispatches && a in s.world.gone && IsScan(kvs, s.world.store, a)
    case GiveUp(c, a, kvs) =>
      && c in s.views && c !in s.dispatches && IsScan(kvs, s.world.store, a)
      && Selected(s.views[c], c, hash, kvs, s.world.store).None?
    case Begin(c, r, recovering) => CanBegin(hash, s, c, r, recovering)
    case Advance(c, move) => c in s.dispatches && CanMove(s.world, s.dispatches[c], move)
  }

  ghost function Apply(hash: string -> nat, s: State, st: Step): State
    requires Enabled(hash, s, st)
  {
    match st
    case Container(act) => s.(world := Perform(s.world, act))
    case Learn(c, e) => s.(views := s.views[c := ApplyEvent(s.views[c], e)])
    case StartRecovery(c, a, kvs) => s.(world := s.world.(store := NodeGone(s.world.store, a, kvs)))
    case GiveUp(c, a, kvs) => s.(world := s.world.(store := s.world.store.DeleteRecover(a)))
    case Begin(c, r, recovering) =>
      s.(dispatches := s.dispatches[c := Dispatch(r, "", 0, if recovering then Confirming else Choosing)])
    case Advance(c, move) =>
      var w := Effect(s.world, s.dispatches[c], move);
      match Next(s.world, s.dispatches[c], move)
      case Done => State(w, s.dispatches - {c}, s.views)
      case Continue(d) => State(w, s.dispatches[c := d], s.views)
  }

  // Nothing deployed and nothing running; the coordinators have taken their snapshots.
  predicate Init(s: State) {
    && s.world.store == Store({}, map[], map[], map[], {}, {})
    && s.world.processes == map[] && s.world.deploys == map[] && s.world.undeploys == map[]
    && s.world.deleted == {} && s.world.gone == {} && s.world.removed == {} && s.world.unwritten == {}
    && s.dispatches == map[]
  }

  ghost predicate IsRun(hash: string -> nat, states: seq<State>, steps: seq<Step>) {
    && |states| == |steps| + 1
    && Init(states[0])
    && forall i {:trigger steps[i]} :: 0 <= i < |steps| ==>
         Enabled(hash, states[i], steps[i]) && states[i + 1] == Apply(hash, states[i], steps[i])
  }
}
