/**
 What every reachable state of the cluster keeps, with no hypothesis on the run: a liveness key has
 its durable records behind it unless its removal has begun, and a manager entry has its record
 unless its removal has begun or the record was never written.
 */
module Durability {
  import opened Store
  import opened Cluster
  import opened Leases

  ghost predicate TasksBelong(w: World) {
    && (forall k :: k in w.deploys ==> DeployBelongs(w, k, w.deploys[k]))
    && (forall k :: k in w.undeploys ==> UndeployBelongs(w, k, w.undeploys[k]))
  }

  ghost predicate DeployBelongs(w: World, k: nat, t: DeployTask) {
    k < w.nextTask && t.addr in w.processes && w.processes[t.addr].lease == t.lease
  }

  ghost predicate UndeployBelongs(w: World, k: nat, u: UndeployTask) {
    k < w.nextTask && u.addr in w.processes && w.processes[u.addr].lease == u.lease
  }

  // A liveness key implies the info record, and the node record unless its removal has begun.
  ghost predicate KeysAreBacked(w: World) {
    forall r :: r in w.store.leased ==>
      r.id in w.store.infos && (r in w.store.records || (w.store.leased[r], r.id) in w.removed)
  }

  // Under this lease the id may be registered without a record.
  ghost predicate Doubtful(w: World, lease: nat, id: string) {
    (lease, id) in w.removed || (lease, id) in w.unwritten
  }

  ghost predicate EntryIsBacked(w: World, a: string, p: Process, id: string) {
    id in p.manager && !Doubtful(w, p.lease, id) ==> ProtocolInfo(a, p.manager[id].ptype, id) in w.store.records
  }

  ghost predicate EntriesAreBacked(w: World) {
    forall a, id {:trigger EntryIsBacked(w, a, w.processes[a], id)} :: a in w.processes ==>
      EntryIsBacked(w, a, w.processes[a], id)
  }

  ghost predicate DeployIsBacked(w: World, t: DeployTask) {
    && (t.WroteRecord() && (t.lease, t.id) !in w.removed ==> t.Info() in w.store.records)
    && (t.pc.Registering? && !Doubtful(w, t.lease, t.id) ==> t.Info() in w.store.records)
    && (t.pc.PuttingLeased? ==> t.id in w.store.infos)
    && (t.pc == Replied(true) ==> t.addr in w.processes && t.id in w.processes[t.addr].manager)
  }

  ghost predicate DeploysAreBacked(w: World) {
    forall k :: k in w.deploys ==> DeployIsBacked(w, w.deploys[k])
  }

  // Everything that an unfinished removal may still make stale counts as removed.
  ghost predicate RemovalIsKnown(w: World, u: UndeployTask) {
    !u.pc.Stopped? ==>
      && (u.lease, u.id) in w.removed
      && forall r :: r in w.store.leased && r.addr == u.addr && r.id == u.id ==> (w.store.leased[r], r.id) in w.removed
  }

  ghost predicate RemovalsAreKnown(w: World) {
    forall k :: k in w.undeploys ==> RemovalIsKnown(w, w.undeploys[k])
  }

  ghost predicate Inv(w: World) {
    TasksBelong(w) && KeysAreBacked(w) && EntriesAreBacked(w) && DeploysAreBacked(w) && RemovalsAreKnown(w)
  }

  // ---------------------------------------------------------------- deploy requests

  // Task k moves on; the store only grows, apart from the liveness keys, which are dealt with
  // separately; managers only grow by backed entries.
  ghost predicate Grows(w: World, w': World, k: nat) {
    && w'.undeploys == w.undeploys && w.nextTask <= w'.nextTask
    && w'.deploys.Keys <= w.deploys.Keys + {k}
    && (forall j :: j in w'.deploys && j != k ==> w'.deploys[j] == w.deploys[j])
    && w.store.records <= w'.store.records && w.store.infos.Keys <= w'.store.infos.Keys
    && w.removed <= w'.removed && w.unwritten <= w'.unwritten
    && w.processes.Keys <= w'.processes.Keys
    && (forall a :: a in w.processes ==>
          && w'.processes[a].lease == w.processes[a].lease
          && w.processes[a].manager.Keys <= w'.processes[a].manager.Keys)
  }

  lemma GrowthKeepsDeploys(w: World, w': World, k: nat)
    requires Grows(w, w', k) && TasksBelong(w) && DeploysAreBacked(w)
    requires k in w'.deploys ==> DeployBelongs(w', k, w'.deploys[k]) && DeployIsBacked(w', w'.deploys[k])
    ensures DeploysAreBacked(w') && TasksBelong(w')
  {}

  // No undeploy of the id is under way at the address.
  ghost predicate NotBeingRemoved(w: World, a: string, id: string) {
    forall k :: k in w.undeploys && w.undeploys[k].addr == a && w.undeploys[k].id == id ==> w.undeploys[k].pc.Stopped?
  }

  lemma GrowthKeepsRemovals(w: World, w': World, k: nat)
    requires Grows(w, w', k) && RemovalsAreKnown(w)
    requires forall r :: r in w'.store.leased ==>
               || (r in w.store.leased && w'.store.leased[r] == w.store.leased[r])
               || (w'.store.leased[r], r.id) in w.removed
               || NotBeingRemoved(w, r.addr, r.id)
    ensures RemovalsAreKnown(w')
  {}

  lemma GrowthKeepsEntries(w: World, w': World, k: nat)
    requires Grows(w, w', k) && EntriesAreBacked(w) && w'.processes == w.processes
    ensures EntriesAreBacked(w')
  {
    forall a, id | a in w'.processes
      ensures EntryIsBacked(w', a, w'.processes[a], id)
    {
      assert EntryIsBacked(w, a, w.processes[a], id);
    }
  }

  lemma LookUpKeepsInv(w: World, k: nat)
    requires Inv(w) && k in w.deploys && w.deploys[k].pc.LookingUp? && w.deploys[k].addr in w.processes
    ensures Inv(LookUp(w, k))
  {
    var w' := LookUp(w, k);
    assert DeployBelongs(w, k, w.deploys[k]);
    GrowthKeepsDeploys(w, w', k);
    GrowthKeepsRemovals(w, w', k);
    GrowthKeepsEntries(w, w', k);
  }

  // A process whose lease is not removed for the id is not removing it.
  lemma UnremovedIsNotBeingRemoved(w: World, a: string, id: string)
    requires TasksBelong(w) && RemovalsAreKnown(w)
    ensures a in w.processes && (w.processes[a].lease, id) !in w.removed ==> NotBeingRemoved(w, a, id)
  {}

  lemma PutKeepsInv(w: World, k: nat)
    requires Inv(w) && k in w.deploys && w.deploys[k].Putting()
    ensures Inv(Put(w, k))
  {
    var t, w' := w.deploys[k], Put(w, k);
    assert DeployIsBacked(w, t) && DeployBelongs(w, k, t);
    GrowthKeepsDeploys(w, w', k);
    UnremovedIsNotBeingRemoved(w, t.addr, t.id);
    GrowthKeepsRemovals(w, w', k);
    GrowthKeepsEntries(w, w', k);
  }

  lemma RegisterKeepsInv(w: World, k: nat)
    requires Inv(w) && k in w.deploys && w.deploys[k].pc.Registering? && w.deploys[k].addr in w.processes
    ensures Inv(Register(w, k))
  {
    var t, w' := w.deploys[k], Register(w, k);
    assert DeployIsBacked(w, t) && DeployBelongs(w, k, t);
    GrowthKeepsDeploys(w, w', k);
    GrowthKeepsRemovals(w, w', k);
    forall a, id | a in w'.processes
      ensures EntryIsBacked(w', a, w'.processes[a], id)
    {
      assert EntryIsBacked(w, a, w.processes[a], id);
    }
  }

  lemma FailDeployKeepsInv(w: World, k: nat)
    requires Inv(w) && k in w.deploys && w.deploys[k].Putting()
    ensures Inv(FailDeploy(w, k))
  {
    var t, w' := w.deploys[k], FailDeploy(w, k);
    assert DeployIsBacked(w, t) && DeployBelongs(w, k, t);
    GrowthKeepsDeploys(w, w', k);
    GrowthKeepsRemovals(w, w', k);
    GrowthKeepsEntries(w, w', k);
  }

  lemma StartDeployKeepsInv(w: World, a: string, ptype: string, id: string, d: Detail)
    requires Inv(w) && a in w.processes
    ensures Inv(StartDeploy(w, a, ptype, id, d))
  {
    var w' := StartDeploy(w, a, ptype, id, d);
    GrowthKeepsDeploys(w, w', w.nextTask);
    GrowthKeepsRemovals(w, w', w.nextTask);
    GrowthKeepsEntries(w, w', w.nextTask);
  }

  // ---------------------------------------------------------------- processes and leases

  lemma ProcessStepKeepsInv(w: World, act: Act)
    requires Inv(w) && CanAct(w, act) && (act.Boot? || act.Announce? || act.Subscribe?)
    ensures Inv(Perform(w, act))
  {
    var w' := Perform(w, act);
    GrowthKeepsDeploys(w, w', w.nextTask);
    GrowthKeepsRemovals(w, w', w.nextTask);
    forall a, id | a in w'.processes
      ensures EntryIsBacked(w', a, w'.processes[a], id)
    {
      assert a in w.processes ==> EntryIsBacked(w, a, w.processes[a], id);
    }
  }

  lemma CrashKeepsInv(w: World, a: string)
    requires Inv(w)
    ensures Inv(DoCrash(w, a))
  {
    var w' := DoCrash(w, a);
    forall k | k in w'.deploys
      ensures DeployIsBacked(w', w'.deploys[k]) && DeployBelongs(w', k, w'.deploys[k])
    {
      assert DeployIsBacked(w, w.deploys[k]) && DeployBelongs(w, k, w.deploys[k]);
    }
    forall k | k in w'.undeploys
      ensures RemovalIsKnown(w', w'.undeploys[k]) && UndeployBelongs(w', k, w'.undeploys[k])
    {
      assert RemovalIsKnown(w, w.undeploys[k]) && UndeployBelongs(w, k, w.undeploys[k]);
    }
    forall b, id | b in w'.processes
      ensures EntryIsBacked(w', b, w'.processes[b], id)
    {
      assert EntryIsBacked(w, b, w.processes[b], id);
    }
  }

  lemma ExpireKeepsInv(w: World, l: nat)
    requires Inv(w)
    ensures Inv(DoExpire(w, l))
  {
    var w' := DoExpire(w, l);
    GrowthKeepsDeploys(w, w', w.nextTask);
    GrowthKeepsRemovals(w, w', w.nextTask);
    GrowthKeepsEntries(w, w', w.nextTask);
  }

  // ---------------------------------------------------------------- removals

  lemma StartUndeployKeepsInv(w: World, a: string, id: string)
    requires Inv(w) && CanUndeploy(w, a, id)
    ensures Inv(StartUndeploy(w, a, id))
  {
    var w' := StartUndeploy(w, a, id);
    forall r | r in w'.store.leased && r.addr == a && r.id == id
      ensures (w'.store.leased[r], r.id) in w'.removed
    {
      assert (w.store.leased[r], id) in LeasesOf(w, a, id);
    }
    forall k | k in w'.undeploys
      ensures RemovalIsKnown(w', w'.undeploys[k]) && UndeployBelongs(w', k, w'.undeploys[k])
    {
      if k != w.nextTask {
        assert RemovalIsKnown(w, w.undeploys[k]) && UndeployBelongs(w, k, w.undeploys[k]);
      }
    }
    MoreRemoved(w, w');
  }

  // Only the task bookkeeping and the history have changed.
  lemma MoreRemoved(w: World, w': World)
    requires TasksBelong(w) && KeysAreBacked(w) && EntriesAreBacked(w) && DeploysAreBacked(w)
    requires w'.store == w.store && w'.processes == w.processes && w'.deploys == w.deploys
    requires w.removed <= w'.removed && w.unwritten <= w'.unwritten && w.nextTask <= w'.nextTask
    ensures KeysAreBacked(w') && EntriesAreBacked(w') && DeploysAreBacked(w')
    ensures forall k :: k in w'.deploys ==> DeployBelongs(w', k, w'.deploys[k])
  {
    forall k | k in w'.deploys
      ensures DeployIsBacked(w', w'.deploys[k]) && DeployBelongs(w', k, w'.deploys[k])
    {
      assert DeployIsBacked(w, w.deploys[k]) && DeployBelongs(w, k, w.deploys[k]);
    }
    forall b, i | b in w'.processes
      ensures EntryIsBacked(w', b, w'.processes[b], i)
    {
      assert EntryIsBacked(w, b, w.processes[b], i);
    }
  }

  // A record may go when everything that could rely on it counts as removed.
  lemma RecordMayGo(w: World, w': World, r: ProtocolInfo)
    requires Inv(w) && w' == w.(store := w.store.DeleteRecord(r), deleted := w'.deleted, removed := w'.removed)
    requires w.removed <= w'.removed && w.unwritten <= w'.unwritten
    requires r in w.store.leased ==> (w.store.leased[r], r.id) in w'.removed
    requires Holds(w, r.addr, r.id) ==> (w.processes[r.addr].lease, r.id) in w'.removed
    ensures Inv(w')
  {
    forall k | k in w'.deploys
      ensures DeployIsBacked(w', w'.deploys[k]) && DeployBelongs(w', k, w'.deploys[k])
    {
      var t := w.deploys[k];
      assert DeployIsBacked(w, t) && DeployBelongs(w, k, t);
      if t.addr == r.addr && t.id == r.id {
        assert Holds(w, r.addr, r.id);
      }
    }
    forall k | k in w'.undeploys
      ensures RemovalIsKnown(w', w'.undeploys[k]) && UndeployBelongs(w', k, w'.undeploys[k])
    {
      assert RemovalIsKnown(w, w.undeploys[k]) && UndeployBelongs(w, k, w.undeploys[k]);
    }
    forall a, id | a in w'.processes
      ensures EntryIsBacked(w', a, w'.processes[a], id)
    {
      assert EntryIsBacked(w, a, w.processes[a], id);
    }
  }

  lemma DeleteGarbageKeepsInv(w: World, r: ProtocolInfo)
    requires Inv(w)
    ensures Inv(DeleteGarbage(w, r))
  {
    if r in w.store.leased {
      assert (w.store.leased[r], r.id) in LeasesOf(w, r.addr, r.id);
    }
    RecordMayGo(w, DeleteGarbage(w, r), r);
  }

  lemma DropRecordKeepsInv(w: World, k: nat)
    requires Inv(w) && k in w.undeploys && w.undeploys[k].pc.DroppingRecord?
    ensures Inv(NextUndeploy(w, k))
  {
    var u, w' := w.undeploys[k], NextUndeploy(w, k);
    assert RemovalIsKnown(w, u) && UndeployBelongs(w, k, u);
    var mid := w'.(undeploys := w.undeploys);
    RecordMayGo(w, mid, u.Info());
    TaskOnly(mid, w', k);
  }

  // Undeploy task k has moved on without a change to anything else.
  lemma TaskOnly(w: World, w': World, k: nat)
    requires Inv(w) && k in w.undeploys
    requires w' == w.(undeploys := w'.undeploys)
    requires exists pc: UndeployPc :: w'.undeploys == w.undeploys[k := w.undeploys[k].(pc := pc)]
                                      && (pc.Stopped? || !w.undeploys[k].pc.Stopped?)
    ensures Inv(w')
  {
    forall j | j in w'.undeploys
      ensures RemovalIsKnown(w', w'.undeploys[j]) && UndeployBelongs(w', j, w'.undeploys[j])
    {
      assert RemovalIsKnown(w, w.undeploys[j]) && UndeployBelongs(w, j, w.undeploys[j]);
    }
    MoreRemoved(w, w');
  }

  lemma DropLeasedKeepsInv(w: World, k: nat)
    requires Inv(w) && k in w.undeploys && w.undeploys[k].pc.DroppingLeased?
    ensures Inv(NextUndeploy(w, k))
  {
    var w' := NextUndeploy(w, k);
    var mid := w'.(undeploys := w.undeploys);
    GrowthKeepsDeploys(w, mid, w.nextTask);
    GrowthKeepsRemovals(w, mid, w.nextTask);
    GrowthKeepsEntries(w, mid, w.nextTask);
    TaskOnly(mid, w', k);
  }

  lemma StopUndeployKeepsInv(w: World, k: nat)
    requires Inv(w) && k in w.undeploys
    ensures Inv(StopUndeploy(w, k))
  {
    TaskOnly(w, StopUndeploy(w, k), k);
  }

  lemma RecoverKeyKeepsInv(w: World, store: Store)
    requires Inv(w) && store == w.store.(recover := store.recover)
    ensures Inv(w.(store := store))
  {
    var w' := w.(store := store);
    GrowthKeepsDeploys(w, w', w.nextTask);
    GrowthKeepsRemovals(w, w', w.nextTask);
    GrowthKeepsEntries(w, w', w.nextTask);
  }

  // ---------------------------------------------------------------- all steps

  lemma ActKeepsInv(w: World, act: Act)
    requires Inv(w) && CanAct(w, act)
    ensures Inv(Perform(w, act))
  {
    match act {
      case Boot(_, _) => ProcessStepKeepsInv(w, act);
      case Announce(_) => ProcessStepKeepsInv(w, act);
      case Subscribe(_) => ProcessStepKeepsInv(w, act);
      case Crash(a) => CrashKeepsInv(w, a);
      case ExpireLease(l) => ExpireKeepsInv(w, l);
      case UserDeploy(a, t, id, d) => StartDeployKeepsInv(w, a, t, id, d);
      case DeployStep(k) =>
        if w.deploys[k].pc.LookingUp? {
          LookUpKeepsInv(w, k);
        } else if w.deploys[k].pc.Registering? {
          RegisterKeepsInv(w, k);
        } else {
          PutKeepsInv(w, k);
        }
      case DeployFails(k) => FailDeployKeepsInv(w, k);
      case Stop(a, id) => StartUndeployKeepsInv(w, a, id);
      case UndeployStep(k) =>
        if w.undeploys[k].pc.DroppingRecord? {
          DropRecordKeepsInv(w, k);
        } else {
          DropLeasedKeepsInv(w, k);
        }
      case UndeployFails(k) => StopUndeployKeepsInv(w, k);
    }
  }

  lemma EffectKeepsInv(w: World, d: Dispatch, move: Move)
    requires Inv(w) && CanMove(w, d, move)
    ensures Inv(Effect(w, d, move))
  {
    if move.Redeploy? {
      StartDeployKeepsInv(w, d.target, d.rec.ptype, d.rec.id, w.store.infos[d.rec.id]);
    } else if move.Remove? {
      DeleteGarbageKeepsInv(w, d.rec);
    } else if move.SendUndeploy? && CanUndeploy(w, d.rec.addr, d.rec.id) {
      StartUndeployKeepsInv(w, d.rec.addr, d.rec.id);
    }
  }

  lemma StepKeepsInv(hash: string -> nat, s: State, st: Step)
    requires Inv(s.world) && Enabled(hash, s, st)
    ensures Inv(Apply(hash, s, st).world)
  {
    match st {
      case Container(act) => ActKeepsInv(s.world, act);
      case Advance(c, move) => EffectKeepsInv(s.world, s.dispatches[c], move);
      case StartRecovery(_, a, kvs) => RecoverKeyKeepsInv(s.world, NodeGone(s.world.store, a, kvs));
      case GiveUp(_, a, _) => RecoverKeyKeepsInv(s.world, s.world.store.DeleteRecover(a));
      case Begin(_, _, _) =>
      case Learn(_, _) =>
    }
  }

  lemma {:induction false} RunKeepsInv(hash: string -> nat, states: seq<State>, steps: seq<Step>, n: nat)
    requires IsRun(hash, states, steps) && n <= |steps|
    ensures Inv(states[n].world)
  {
    if n > 0 {
      RunKeepsInv(hash, states, steps, n - 1);
      StepKeepsInv(hash, states[n - 1], steps[n - 1]);
    }
  }

  /**
   Liveness implies durable data, in every reachable state: a leased key has its info record, and
   its node record unless the removal of that id has begun under the key's lease.
   */
  lemma LivenessImpliesDurable(hash: string -> nat, states: seq<State>, steps: seq<Step>, n: nat, r: ProtocolInfo)
    requires IsRun(hash, states, steps) && n <= |steps|
    requires r in states[n].world.store.leased
    ensures r.id in states[n].world.store.infos
    ensures r in states[n].world.store.records || (states[n].world.store.leased[r], r.id) in states[n].world.removed
  {
    RunKeepsInv(hash, states, steps, n);
  }

  // The steps that begin a removal of the id: a stop, a dispatch's deletion of its record, and an
  // undeploy request of a dispatch that reaches a process that has the id.
  ghost predicate BeginsRemoval(s: State, st: Step, a: string, id: string) {
    match st
    case Container(Stop(b, i)) => b == a && i == id
    case Advance(c, move) =>
      && c in s.dispatches && s.dispatches[c].rec.addr == a && s.dispatches[c].rec.id == id
      && ((move.Remove? && s.dispatches[c].target != a) || (move.SendUndeploy? && CanUndeploy(s.world, a, id)))
    case _ => false
  }

  lemma OnlyAStopRemoves(w: World, act: Act)
    requires CanAct(w, act)
    ensures Perform(w, act).removed == if act.Stop? then w.removed + LeasesOf(w, act.addr, act.id) else w.removed
  {}

  lemma OnlyARemovalRemoves(w: World, d: Dispatch, move: Move)
    requires CanMove(w, d, move)
    ensures Effect(w, d, move).removed ==
            if (move.Remove? && d.target != d.rec.addr)
               || (move.SendUndeploy? && CanUndeploy(w, d.rec.addr, d.rec.id))
            then w.removed + LeasesOf(w, d.rec.addr, d.rec.id)
            else w.removed
  {}

  // Only these steps make a pair removed, and only at the address where the lease holds the id.
  lemma RemovedByStep(hash: string -> nat, s: State, st: Step, l: nat, id: string) returns (a: string)
    requires Enabled(hash, s, st)
    requires (l, id) !in s.world.removed && (l, id) in Apply(hash, s, st).world.removed
    ensures BeginsRemoval(s, st, a, id) && (l, id) in LeasesOf(s.world, a, id)
  {
    match st {
      case Container(act) =>
        OnlyAStopRemoves(s.world, act);
        a := if act.Stop? then act.addr else "";
      case Advance(c, move) =>
        OnlyARemovalRemoves(s.world, s.dispatches[c], move);
        a := s.dispatches[c].rec.addr;
      case _ =>
    }
  }

  /** Under which leases the removal of an id at an address counts: those under which it is or may come to be held. */
  lemma LeasesOfMeaning(w: World, a: string, id: string, l: nat, i: string)
    ensures (l, i) in LeasesOf(w, a, id) <==>
            && i == id
            && ((exists r :: r in w.store.leased && r.addr == a && r.id == id && w.store.leased[r] == l)
                || (a in w.processes && w.processes[a].lease == l
                    && (id in w.processes[a].manager
                        || exists k :: k in w.deploys && w.deploys[k].addr == a && w.deploys[k].id == id)))
  {}

  /** What removed means: a step of the run began the removal of the id under that lease. */
  lemma {:induction false} RemovedWasBegun(hash: string -> nat, states: seq<State>, steps: seq<Step>, n: nat,
                                           l: nat, id: string)
    returns (m: nat, a: string)
    requires IsRun(hash, states, steps) && n <= |steps| && (l, id) in states[n].world.removed
    ensures m < n && BeginsRemoval(states[m], steps[m], a, id) && (l, id) in LeasesOf(states[m].world, a, id)
  {
    assert n > 0;
    if (l, id) in states[n - 1].world.removed {
      m, a := RemovedWasBegun(hash, states, steps, n - 1, l, id);
    } else {
      a := RemovedByStep(hash, states[n - 1], steps[n - 1], l, id);
      m := n - 1;
    }
  }

  /**
   The same as a statement about the run: whenever a protocol is live, its info is recorded, and so
   is the node it runs on, unless a stop, a dispatch's deletion or an undeploy request hit it
   before, at its own address and while that lease held the id.
   */
  lemma LiveUnlessRemovalBegan(hash: string -> nat, states: seq<State>, steps: seq<Step>, n: nat, r: ProtocolInfo)
    returns (m: nat)
    requires IsRun(hash, states, steps) && n <= |steps| && r in states[n].world.store.leased
    ensures r.id in states[n].world.store.infos
    ensures r !in states[n].world.store.records ==>
              && m < n && BeginsRemoval(states[m], steps[m], r.addr, r.id)
              && (states[n].world.store.leased[r], r.id) in LeasesOf(states[m].world, r.addr, r.id)
  {
    m := 0;
    LivenessImpliesDurable(hash, states, steps, n, r);
    if r !in states[n].world.store.records {
      var a;
      m, a := RemovedWasBegun(hash, states, steps, n, states[n].world.store.leased[r], r.id);
      SameHome(hash, states, steps, m, n, a, r);
    }
  }

  /**
   What a RUNNING answer of the container at r.addr means, in every reachable state: its manager has
   the id, the liveness key and the info record are there and, unless its removal has begun, so is
   the node record.
   */
  lemma RunningImpliesDurable(hash: string -> nat, states: seq<State>, steps: seq<Step>, n: nat, r: ProtocolInfo)
    requires IsRun(hash, states, steps) && n <= |steps| && Running(states[n].world, r.addr, r.ptype, r.id)
    ensures var w := states[n].world;
            && r.addr in w.processes && r.id in w.processes[r.addr].manager
            && r.id in w.store.infos && r in w.store.leased
            && (r in w.store.records || (w.store.leased[r], r.id) in w.removed)
  {
    LivenessImpliesDurable(hash, states, steps, n, r);
  }

  // The step goes on with a deploy without having put its record.
  ghost predicate SkipsRecord(s: State, st: Step, l: nat, id: string) {
    && st.Container? && (st.act.DeployStep? || st.act.DeployFails?) && st.act.k in s.world.deploys
    && var t := s.world.deploys[st.act.k];
       && t.lease == l && t.id == id
       && (if st.act.DeployFails? then t.pc.PuttingRecord?
           else t.pc.LookingUp? && t.addr in s.world.processes && !s.world.processes[t.addr].phase.Ready?
                && id !in s.world.processes[t.addr].manager && t.ptype in s.world.processes[t.addr].types)
  }

  lemma UnwrittenByStep(hash: string -> nat, s: State, st: Step, l: nat, id: string)
    requires Enabled(hash, s, st)
    ensures (l, id) in Apply(hash, s, st).world.unwritten <==> (l, id) in s.world.unwritten || SkipsRecord(s, st, l, id)
  {
    match st {
      case Container(act) => UnwrittenByAct(s, act, l, id);
      case Advance(c, move) => assert Effect(s.world, s.dispatches[c], move).unwritten == s.world.unwritten;
      case _ =>
    }
  }

  lemma UnwrittenByAct(s: State, act: Act, l: nat, id: string)
    requires CanAct(s.world, act)
    ensures (l, id) in Perform(s.world, act).unwritten <==>
            (l, id) in s.world.unwritten || SkipsRecord(s, Container(act), l, id)
  {}

  /**
   What unwritten means: a deploy under that lease was served before the subscription, or its put of
   the record failed.
   */
  lemma {:induction false} UnwrittenIff(hash: string -> nat, states: seq<State>, steps: seq<Step>, n: nat,
                                        l: nat, id: string)
    requires IsRun(hash, states, steps) && n <= |steps|
    ensures (l, id) in states[n].world.unwritten <==>
            exists m {:trigger steps[m]} :: 0 <= m < n && SkipsRecord(states[m], steps[m], l, id)
  {
    if n > 0 {
      UnwrittenIff(hash, states, steps, n - 1, l, id);
      UnwrittenByStep(hash, states[n - 1], steps[n - 1], l, id);
    }
  }

  lemma StepKeepsEntries(hash: string -> nat, s: State, st: Step, a: string, id: string)
    requires Enabled(hash, s, st) && st != Container(Crash(a))
    requires a in s.world.processes && id in s.world.processes[a].manager
    ensures var ps, ps' := s.world.processes, Apply(hash, s, st).world.processes;
            && a in ps' && ps'[a].lease == ps[a].lease && id in ps'[a].manager
            && ps'[a].manager[id] == ps[a].manager[id]
  {
    match st {
      case Container(act) => ActKeepsEntries(s.world, act, a, id);
      case Advance(c, move) => assert Effect(s.world, s.dispatches[c], move).processes == s.world.processes;
      case _ =>
    }
  }

  lemma ActKeepsEntries(w: World, act: Act, a: string, id: string)
    requires CanAct(w, act) && act != Crash(a) && a in w.processes && id in w.processes[a].manager
    ensures var ps' := Perform(w, act).processes;
            && a in ps' && ps'[a].lease == w.processes[a].lease && id in ps'[a].manager
            && ps'[a].manager[id] == w.processes[a].manager[id]
  {}

  /** As long as a process lives, what its manager has registered stays, through stops and further deploys. */
  lemma {:induction false} EntriesStay(hash: string -> nat, states: seq<State>, steps: seq<Step>, a: string, id: string,
                                       i: nat, j: nat)
    requires IsRun(hash, states, steps) && i <= j <= |steps|
    requires a in states[i].world.processes && id in states[i].world.processes[a].manager
    requires forall m {:trigger steps[m]} :: i <= m < j ==> steps[m] != Container(Crash(a))
    ensures a in states[j].world.processes && id in states[j].world.processes[a].manager
    ensures states[j].world.processes[a].manager[id] == states[i].world.processes[a].manager[id]
    decreases j
  {
    if i < j {
      EntriesStay(hash, states, steps, a, id, i, j - 1);
      StepKeepsEntries(hash, states[j - 1], steps[j - 1], a, id);
    }
  }
}
