/**
 The uninterrupted calls of `Calls`, which the classes implement, are runs of the interleaved
 machine in `Cluster`: scheduled without interference, the machine's steps have their effect.
 */
module Simulation {
  import opened Wrappers
  import opened Keys
  import opened Store
  import opened View
  import opened Selection
  import opened Cluster
  import opened Calls
  import opened Recovery
  import opened Paths

  function SiteOf(s: State): Site {
    Site(s.world.store, s.world.processes)
  }

  // Same dispatches and views: only containers have moved.
  predicate SameCoordinators(s: State, s': State) {
    s'.dispatches == s.dispatches && s'.views == s.views
  }

  // ---------------------------------------------------------------- serving a deploy request

  // The outcome of a deploy task for one group, as Container.Deploy serves it.
  function Served(s: Site, t: DeployTask): (Site, bool)
    requires t.addr in s.processes
  {
    var p := s.processes[t.addr];
    if t.id in p.manager then (s, true)
    else if t.ptype !in p.types then (s, false)
    else (StartGroup(s, t.addr, t.ptype, t.id, t.detail), true)
  }

  // The machine's world once the request has been served without interference.
  function Answered(w: World, k: nat): World
    requires k in w.deploys && w.deploys[k].addr in w.processes
  {
    var t := w.deploys[k];
    var p := w.processes[t.addr];
    var (site, ok) := Served(Site(w.store, w.processes), t);
    w.(store := site.store, processes := site.processes, deploys := w.deploys[k := t.(pc := Replied(ok))],
    unwritten := if t.id !in p.manager && t.ptype in p.types && !p.phase.Ready?
                 then w.unwritten + {(t.lease, t.id)} else w.unwritten)
  }

  lemma PutsRun(hash: string -> nat, ok: Condition, s: State, k: nat)
    requires forall u :: ok(u, Container(DeployStep(k)))
    requires k in s.world.deploys && s.world.deploys[k].pc.PuttingRecord?
    requires s.world.deploys[k].addr in s.world.processes
    ensures var t := s.world.deploys[k];
            Reaches(hash, ok, s, s.(world := s.world.(
                      deploys := s.world.deploys[k := t.(pc := Registering)],
                      store := Publish(s.world.store, t.Info(), t.detail, t.lease))))
  {
    var st := Container(DeployStep(k));
    Stay(hash, ok, s);
    Then(hash, ok, s, s, st);
    var s1 := Apply(hash, s, st);
    Then(hash, ok, s, s1, st);
    var s2 := Apply(hash, s1, st);
    Then(hash, ok, s, s2, st);
    var t := s.world.deploys[k];
    assert Apply(hash, s2, st).world.deploys == s.world.deploys[k := t.(pc := Registering)];
  }

  lemma RegistersLast(hash: string -> nat, ok: Condition, s: State, t: State, k: nat)
    requires Reaches(hash, ok, s, t) && forall u :: ok(u, Container(DeployStep(k)))
    requires k in t.world.deploys && t.world.deploys[k].pc.Registering? && t.world.deploys[k].addr in t.world.processes
    ensures Reaches(hash, ok, s, t.(world := Register(t.world, k)))
  {
    Then(hash, ok, s, t, Container(DeployStep(k)));
  }

  /** A deploy request served without interference: the machine does what the call does. */
  lemma DeployRuns(hash: string -> nat, ok: Condition, s: State, k: nat)
    requires forall u :: ok(u, Container(DeployStep(k)))
    requires k in s.world.deploys && s.world.deploys[k].pc.LookingUp?
    requires var t := s.world.deploys[k];
             t.addr in s.world.processes && s.world.processes[t.addr].lease == t.lease
    ensures Reaches(hash, ok, s, s.(world := Answered(s.world, k)))
  {
    var t, st := s.world.deploys[k], Container(DeployStep(k));
    var s1, end := Apply(hash, s, st), Answered(s.world, k);
    Stay(hash, ok, s);
    Then(hash, ok, s, s, st);
    if s1.world.deploys[k].pc.PuttingRecord? {
      var s2 := s1.(world := s1.world.(deploys := s1.world.deploys[k := t.(pc := Registering)],
                                       store := Publish(s1.world.store, t.Info(), t.detail, t.lease)));
      PutsRun(hash, ok, s1, k);
      Reached(hash, ok, s, s1, s2);
      RegistersLast(hash, ok, s, s2, k);
      assert Register(s2.world, k).deploys == end.deploys;
      assert Register(s2.world, k) == end;
    } else if s1.world.deploys[k].pc.Registering? {
      RegistersLast(hash, ok, s, s1, k);
      assert Register(s1.world, k).deploys == end.deploys;
      assert Register(s1.world, k) == end;
    } else {
      assert s1.world == end;
    }
  }

  // ---------------------------------------------------------------- removing garbage

  lemma UndeployRuns(hash: string -> nat, ok: Condition, s: State, a: string, id: string, k: nat)
    returns (s': State)
    requires forall u :: ok(u, Container(UndeployStep(k)))
    requires a in s.world.processes && id in s.world.processes[a].manager && s.world.processes[a].phase.Ready?
    requires k in s.world.undeploys
    requires s.world.undeploys[k] == UndeployTask(a, s.world.processes[a].lease, s.world.processes[a].manager[id].ptype,
                                                  id, DroppingRecord)
    ensures Reaches(hash, ok, s, s') && SameCoordinators(s, s') && SiteOf(s') == ServeUndeploy(SiteOf(s), a, id)
  {
    var st := Container(UndeployStep(k));
    Stay(hash, ok, s);
    Then(hash, ok, s, s, st);
    var s1 := Apply(hash, s, st);
    Then(hash, ok, s, s1, st);
    s' := Apply(hash, s1, st);
  }

  // Where doRemoveGarbageData leaves coordinator c.
  predicate AfterGarbage(s: State, s': State, c: NodeId)
    requires c in s.dispatches && s.dispatches[c].pc.Removing?
  {
    var d := s.dispatches[c];
    if d.pc.polls then c in s'.dispatches && s'.dispatches[c] == d.(pc := Polling) else c !in s'.dispatches
  }

  lemma SendingRuns(hash: string -> nat, s: State, c: NodeId) returns (s': State)
    requires c in s.dispatches && s.dispatches[c].pc.Undeploying?
    ensures Reaches(hash, Any(), s, s') && s'.views == s.views
    ensures var d := s.dispatches[c];
            && SiteOf(s') == ServeUndeploy(SiteOf(s), d.rec.addr, d.rec.id)
            && (if d.pc.polls then c in s'.dispatches && s'.dispatches[c] == d.(pc := Polling) else c !in s'.dispatches)
  {
    var d := s.dispatches[c];
    Stay(hash, Any(), s);
    Then(hash, Any(), s, s, Advance(c, SendUndeploy));
    var s1 := Apply(hash, s, Advance(c, SendUndeploy));
    s' := s1;
    if CanUndeploy(s.world, d.rec.addr, d.rec.id) {
      s' := UndeployRuns(hash, Any(), s1, d.rec.addr, d.rec.id, s.world.nextTask);
      Reached(hash, Any(), s, s1, s');
    }
  }

  lemma RemovalRuns(hash: string -> nat, s: State, c: NodeId) returns (s': State)
    requires c in s.dispatches && s.dispatches[c].pc.Removing? && ':' in s.dispatches[c].rec.id
    ensures Reaches(hash, Any(), s, s') && AfterGarbage(s, s', c) && s'.views == s.views
    ensures SiteOf(s') == RemoveGarbage(SiteOf(s), s.dispatches[c].rec, s.dispatches[c].target)
  {
    var d := s.dispatches[c];
    Stay(hash, Any(), s);
    Then(hash, Any(), s, s, Advance(c, Remove));
    var s1 := Apply(hash, s, Advance(c, Remove));
    s' := s1;
    if d.target != d.rec.addr {
      Then(hash, Any(), s, s1, Advance(c, CheckUp));
      var s2 := Apply(hash, s1, Advance(c, CheckUp));
      s' := s2;
      if d.rec.addr in s1.world.store.up {
        s' := SendingRuns(hash, s2, c);
        Reached(hash, Any(), s, s2, s');
      }
    }
  }

  // ---------------------------------------------------------------- a whole dispatch

  lemma AliveBranchRuns(hash: string -> nat, s: State, c: NodeId, target: string) returns (s': State)
    requires c in s.dispatches && s.dispatches[c].pc.Choosing? && target in s.world.store.up
    requires ':' in s.dispatches[c].rec.id && AlreadyAlive(SiteOf(s), s.dispatches[c].rec)
    ensures Reaches(hash, Any(), s, s') && c !in s'.dispatches && s'.views == s.views
    ensures SiteOf(s') == RemoveGarbage(SiteOf(s), s.dispatches[c].rec, target)
  {
    var r := s.dispatches[c].rec;
    var w :| w in s.world.store.up && LeasedAt(SiteOf(s), r, w);
    Stay(hash, Any(), s);
    Then(hash, Any(), s, s, Advance(c, Choose(target)));
    var s1 := Apply(hash, s, Advance(c, Choose(target)));
    Then(hash, Any(), s, s1, Advance(c, ListAlive));
    var s2 := Apply(hash, s1, Advance(c, ListAlive));
    Then(hash, Any(), s, s2, Advance(c, Probe(w)));
    var s3 := Apply(hash, s2, Advance(c, Probe(w)));
    s' := RemovalRuns(hash, s3, c);
    Reached(hash, Any(), s, s3, s');
  }

  // To the point where the info record is read and the deploy request goes out.
  lemma ReadingRuns(hash: string -> nat, s: State, c: NodeId, target: string) returns (s': State)
    requires c in s.dispatches && s.dispatches[c].pc.Choosing? && target in s.world.store.up
    ensures Reaches(hash, Any(), s, s') && s'.world == s.world && s'.views == s.views
    ensures c in s'.dispatches && s'.dispatches[c] == s.dispatches[c].(target := target, pc := Reading)
  {
    Stay(hash, Any(), s);
    Then(hash, Any(), s, s, Advance(c, Choose(target)));
    var s1 := Apply(hash, s, Advance(c, Choose(target)));
    Then(hash, Any(), s, s1, Advance(c, ListAlive));
    var s2 := Apply(hash, s1, Advance(c, ListAlive));
    Then(hash, Any(), s, s2, Advance(c, EndProbes));
    s' := Apply(hash, s2, Advance(c, EndProbes));
  }

  // From the request to the reply.
  lemma RequestRuns(hash: string -> nat, s: State, c: NodeId) returns (s': State)
    requires c in s.dispatches && s.dispatches[c].pc.Reading? && ':' in s.dispatches[c].rec.id
    requires s.dispatches[c].rec.id in s.world.store.infos && s.dispatches[c].target in s.world.processes
    ensures Reaches(hash, Any(), s, s') && c in s'.dispatches && s'.views == s.views
    ensures s'.dispatches[c] == s.dispatches[c].(pc := Waiting(s.world.nextTask))
    ensures var d := s.dispatches[c];
            match Redeployed(SiteOf(s), d.rec, d.target)
            case None => SiteOf(s') == SiteOf(s)
            case Some(site) => SiteOf(s') == site && HasReplied(s'.world, s.world.nextTask)
  {
    var d, k := s.dispatches[c], s.world.nextTask;
    Stay(hash, Any(), s);
    Then(hash, Any(), s, s, Advance(c, Redeploy));
    var s1 := Apply(hash, s, Advance(c, Redeploy));
    s' := s1.(world := Answered(s1.world, k));
    DeployRuns(hash, Any(), s1, k);
    Reached(hash, Any(), s, s1, s');
    RedeployMeaning(SiteOf(s), d.rec, d.target);
    assert s1.world.deploys[k] ==
           DeployTask(d.target, s.world.processes[d.target].lease, d.rec.ptype, d.rec.id,
                       s.world.store.infos[d.rec.id], LookingUp);
    assert SiteOf(s1) == SiteOf(s);
  }

  lemma Abandon(hash: string -> nat, s: State, t: State, c: NodeId) returns (s': State)
    requires Reaches(hash, Any(), s, t) && c in t.dispatches
    ensures Reaches(hash, Any(), s, s') && s'.world == t.world && c !in s'.dispatches && s'.views == t.views
  {
    Then(hash, Any(), s, t, Advance(c, Abort));
    s' := Apply(hash, t, Advance(c, Abort));
  }

  // After an accepted request: remove the garbage, poll, and give up if it does not run.
  lemma FinishRuns(hash: string -> nat, s: State, c: NodeId) returns (s': State)
    requires c in s.dispatches && s.dispatches[c].pc.Waiting? && s.dispatches[c].count <= 5
    requires HasReplied(s.world, s.dispatches[c].pc.task) && ':' in s.dispatches[c].rec.id
    ensures Reaches(hash, Any(), s, s') && c !in s'.dispatches && s'.views == s.views
    ensures SiteOf(s') == RemoveGarbage(SiteOf(s), s.dispatches[c].rec, s.dispatches[c].target)
  {
    Stay(hash, Any(), s);
    Then(hash, Any(), s, s, Advance(c, Collect));
    var s1 := Apply(hash, s, Advance(c, Collect));
    var s2 := RemovalRuns(hash, s1, c);
    Reached(hash, Any(), s, s1, s2);
    Then(hash, Any(), s, s2, Advance(c, Poll));
    s' := Apply(hash, s2, Advance(c, Poll));
    if c in s'.dispatches {
      s' := Abandon(hash, s, s', c);
    }
  }

  /**
   One dispatchToAlive, from the choice of its target to its return, is a run of the machine with
   the same effect on etcd and on the processes.
   */
  lemma DispatchRuns(hash: string -> nat, s: State, c: NodeId, target: string) returns (s': State)
    requires c in s.dispatches && s.dispatches[c].pc.Choosing? && s.dispatches[c].count == 0
    requires ':' in s.dispatches[c].rec.id && target in s.world.store.up
    ensures Reaches(hash, Any(), s, s') && c !in s'.dispatches && s'.views == s.views
    ensures SiteOf(s') == Dispatched(SiteOf(s), s.dispatches[c].rec, target).0
  {
    var r := s.dispatches[c].rec;
    if AlreadyAlive(SiteOf(s), r) {
      s' := AliveBranchRuns(hash, s, c, target);
      return;
    }
    var s1 := ReadingRuns(hash, s, c, target);
    if r.id !in s.world.store.infos || target !in s.world.processes {
      s' := Abandon(hash, s, s1, c);
      return;
    }
    var s2 := RequestRuns(hash, s1, c);
    Reached(hash, Any(), s, s1, s2);
    if Redeployed(SiteOf(s), r, target).None? {
      s' := Abandon(hash, s, s2, c);
    } else {
      s' := FinishRuns(hash, s2, c);
      Reached(hash, Any(), s, s2, s');
    }
  }

  // ---------------------------------------------------------------- from the event on

  /** A DELETE event at the owner: the machine begins the dispatch and does what the handler does. */
  lemma DeleteEventRuns(hash: string -> nat, s: State, c: NodeId, r: ProtocolInfo, target: string) returns (s': State)
    requires CanBegin(hash, s, c, r, false) && ':' in r.id && target in s.world.store.up
    ensures Reaches(hash, Any(), s, s') && c !in s'.dispatches && s'.views == s.views
    ensures SiteOf(s') == Dispatched(SiteOf(s), r, target).0
  {
    Stay(hash, Any(), s);
    Then(hash, Any(), s, s, Begin(c, r, false));
    var s1 := Apply(hash, s, Begin(c, r, false));
    s' := DispatchRuns(hash, s1, c, target);
    Reached(hash, Any(), s, s1, s');
  }

  // What is selected can be begun: it is recorded, stranded, and this coordinator owns it.
  lemma SelectedCanBegin(hash: string -> nat, s: State, c: NodeId, a: string, kvs: seq<ProtocolInfo>)
    requires c in s.views && c !in s.dispatches && IsScan(kvs, s.world.store, a)
    requires Selected(s.views[c], c, hash, kvs, s.world.store).Some?
    ensures var r := Selected(s.views[c], c, hash, kvs, s.world.store).value;
            CanBegin(hash, s, c, r, true) && r !in s.world.store.leased && r in kvs
  {
    var stranded := Stranded(kvs, s.world.store);
    var first := Take(stranded, |s.views[c]|);
    FirstOwnedMeaning(s.views[c], c, hash, first);
    var i :| 0 <= i < |first| && first[i] == Selected(s.views[c], c, hash, kvs, s.world.store).value;
    assert first[i] == stranded[i] && stranded[i] in stranded;
  }

  /**
   A recover event, from the scan on: the machine selects among the records found and dispatches
   the selected one, or deletes the recover key, as the handler does.
   */
  lemma RecoverEventRuns(hash: string -> nat, s: State, c: NodeId, a: string, kvs: seq<ProtocolInfo>, target: string)
    returns (s': State)
    requires c in s.views && c !in s.dispatches && IsScan(kvs, s.world.store, a) && target in s.world.store.up
    requires forall r :: r in kvs && r !in s.world.store.leased ==> ':' in r.id
    ensures Reaches(hash, Any(), s, s') && c !in s'.dispatches && s'.views == s.views
    ensures SiteOf(s') == RecoverEvent(s.views[c], c, hash, SiteOf(s), a, kvs, target).0
  {
    Stay(hash, Any(), s);
    match Selected(s.views[c], c, hash, kvs, s.world.store)
    case None =>
      Then(hash, Any(), s, s, GiveUp(c, a, kvs));
      s' := Apply(hash, s, GiveUp(c, a, kvs));
    case Some(r) =>
      SelectedCanBegin(hash, s, c, a, kvs);
      Then(hash, Any(), s, s, Begin(c, r, true));
      var s1 := Apply(hash, s, Begin(c, r, true));
      Then(hash, Any(), s, s1, Advance(c, Confirm));
      var s2 := Apply(hash, s1, Advance(c, Confirm));
      s' := DispatchRuns(hash, s2, c, target);
      Reached(hash, Any(), s, s2, s');
  }
}
