/**
 A deployed protocol is never lost: through crashes, lease expiries, failed requests and any
 interleaving of dispatches, an id that has a node record keeps at least one.

 The code does not promise this unconditionally; `Careful` lists what it relies on, each as a
 condition on the step that needs it. For each of them `Losses` has a run that breaks it in one step,
 keeps all others, and loses the last record.
 */
module Conservation {
  import opened Store
  import opened View
  import opened Cluster
  import opened Durability

  ghost predicate HasRecord(w: World, id: string) {
    exists r :: r in w.store.records && r.id == id
  }

  /**
   The conditions on the steps that concern `id`:
   - nothing stops it: neither a user's undeploy request nor the shutdown of its container;
   - a coordinator that starts to dispatch it while others do shares its view with them, and it and
     they are listed in it;
   and unless the dispatch has picked the old record's own address, where it deletes nothing:
   - the liveness key that makes it believe the id is alive elsewhere is not the old record's own,
     and the removal of the id has not begun under its lease;
   - the process that answered the deploy request has not undeployed the id before, was
     subscribed, and did not fail to write its record.
   */
  ghost predicate Careful(s: State, st: Step, id: string) {
    match st
    case Container(act) => act.Stop? ==> act.id != id
    case Learn(_, _) => true
    case StartRecovery(_, _, _) => true
    case GiveUp(_, _, _) => true
    case Begin(c, r, _) => r.id == id && c in s.views ==> SharesViewWithDispatchers(s, c, id)
    case Advance(c, move) => c in s.dispatches && s.dispatches[c].rec.id == id ==>
      CarefulMove(s.world, s.dispatches[c], move)
  }

  ghost predicate SharesViewWithDispatchers(s: State, c: NodeId, id: string)
    requires c in s.views
  {
    forall d :: d in s.dispatches && s.dispatches[d].rec.id == id ==>
      d in s.views && s.views[d] == s.views[c] && InView(s.views[c], c) && InView(s.views[c], d)
  }

  ghost predicate CarefulMove(w: World, d: Dispatch, move: Move) {
    match move
    case Probe(a) =>
      var key := ProtocolInfo(a, d.rec.ptype, d.rec.id);
      d.target != d.rec.addr && key in w.store.leased ==>
        a != d.rec.addr && (w.store.leased[key], d.rec.id) !in w.removed
    case Collect =>
      d.target != d.rec.addr && d.pc.Waiting? && d.pc.task in w.deploys ==>
        !Doubtful(w, w.deploys[d.pc.task].lease, d.rec.id)
    case _ => true
  }

  // ---------------------------------------------------------------- the invariant

  // The id has a record at `a` that nothing under way will delete.
  ghost predicate Kept(w: World, a: string, id: string) {
    (exists t :: ProtocolInfo(a, t, id) in w.store.records) && NotBeingRemoved(w, a, id)
  }

  ghost predicate Safe(w: World, id: string) {
    exists a :: Kept(w, a, id)
  }

  ghost predicate BeingRemoved(w: World, id: string) {
    exists k :: k in w.undeploys && w.undeploys[k].id == id && !w.undeploys[k].pc.Stopped?
  }

  // Before the old record goes, another one is in place.
  ghost predicate DispatchIsSafe(w: World, d: Dispatch) {
    match d.pc
    case Waiting(k) =>
      && k < w.nextTask
      && (k in w.deploys ==> w.deploys[k].addr == d.target && w.deploys[k].id == d.rec.id)
    case Removing(keep, _) => d.target != d.rec.addr ==> keep != d.rec.addr && Kept(w, keep, d.rec.id)
    case Checking(keep, _) => keep != d.rec.addr && Kept(w, keep, d.rec.id)
    case Undeploying(keep, _) => keep != d.rec.addr && Kept(w, keep, d.rec.id)
    case _ => true
  }

  ghost predicate DispatchesAreSafe(s: State, id: string) {
    forall c :: c in s.dispatches && s.dispatches[c].rec.id == id ==> DispatchIsSafe(s.world, s.dispatches[c])
  }

  ghost predicate DispatchersOwn(hash: string -> nat, s: State) {
    forall c :: c in s.dispatches ==> c in s.views && Owns(s.views[c], c, hash(s.dispatches[c].rec.id))
  }

  ghost predicate OneDispatcher(s: State, id: string) {
    forall c, d :: c in s.dispatches && d in s.dispatches ==>
      s.dispatches[c].rec.id == id && s.dispatches[d].rec.id == id ==> c == d
  }

  ghost predicate CInv(hash: string -> nat, s: State, id: string) {
    && Inv(s.world) && DispatchersOwn(hash, s) && OneDispatcher(s, id) && DispatchesAreSafe(s, id)
    && (HasRecord(s.world, id) || BeingRemoved(s.world, id) ==> Safe(s.world, id))
  }

  // ---------------------------------------------------------------- container acts

  // An act that does not stop the id deletes no kept record of it.
  lemma ActKeepsKept(w: World, act: Act, a: string, id: string)
    requires CanAct(w, act) && (act.Stop? ==> act.id != id)
    requires Kept(w, a, id)
    ensures Kept(Perform(w, act), a, id)
  {}

  // The only act that can give the id its first record is a deploy's put.
  lemma ActMakesSafe(w: World, act: Act, id: string)
    requires CanAct(w, act) && (act.Stop? ==> act.id != id)
    requires HasRecord(w, id) || BeingRemoved(w, id) ==> Safe(w, id)
    requires HasRecord(Perform(w, act), id) || BeingRemoved(Perform(w, act), id)
    ensures Safe(Perform(w, act), id)
  {
    var w' := Perform(w, act);
    if Safe(w, id) {
      var a :| Kept(w, a, id);
      ActKeepsKept(w, act, a, id);
    } else {
      NothingBeingRemoved(w, act, id);
      var r :| r in w'.store.records && r.id == id;
      assert ProtocolInfo(r.addr, r.ptype, id) in w'.store.records;
      assert Kept(w', r.addr, id);
    }
  }

  lemma NothingBeingRemoved(w: World, act: Act, id: string)
    requires CanAct(w, act) && (act.Stop? ==> act.id != id) && !BeingRemoved(w, id)
    ensures !BeingRemoved(Perform(w, act), id)
  {}

  lemma ActKeepsDispatch(w: World, act: Act, d: Dispatch)
    requires TasksBelong(w) && CanAct(w, act) && (act.Stop? ==> act.id != d.rec.id)
    requires DispatchIsSafe(w, d)
    ensures DispatchIsSafe(Perform(w, act), d)
  {
    match d.pc {
      case Waiting(k) => ActKeepsTask(w, act, k);
      case Removing(keep, _) =>
        if d.target != d.rec.addr {
          ActKeepsKept(w, act, keep, d.rec.id);
        }
      case Checking(keep, _) => ActKeepsKept(w, act, keep, d.rec.id);
      case Undeploying(keep, _) => ActKeepsKept(w, act, keep, d.rec.id);
      case _ =>
    }
  }

  // Task numbers are not reused, and a task keeps its address and id.
  lemma ActKeepsTask(w: World, act: Act, k: nat)
    requires CanAct(w, act) && k < w.nextTask
    ensures k < Perform(w, act).nextTask
    ensures k in Perform(w, act).deploys ==>
              && k in w.deploys && Perform(w, act).deploys[k].addr == w.deploys[k].addr
              && Perform(w, act).deploys[k].id == w.deploys[k].id
  {}

  lemma ActKeepsCInv(hash: string -> nat, s: State, act: Act, id: string)
    requires CInv(hash, s, id) && CanAct(s.world, act) && (act.Stop? ==> act.id != id)
    ensures CInv(hash, s.(world := Perform(s.world, act)), id)
  {
    var s' := s.(world := Perform(s.world, act));
    ActKeepsInv(s.world, act);
    forall c | c in s'.dispatches && s'.dispatches[c].rec.id == id
      ensures DispatchIsSafe(s'.world, s'.dispatches[c])
    {
      ActKeepsDispatch(s.world, act, s.dispatches[c]);
    }
    if HasRecord(s'.world, id) || BeingRemoved(s'.world, id) {
      ActMakesSafe(s.world, act, id);
    }
  }

  // The recover keys play no part.
  lemma RecoverKeyKeepsKept(w: World, store: Store, a: string, id: string)
    requires store == w.store.(recover := store.recover)
    ensures Kept(w, a, id) <==> Kept(w.(store := store), a, id)
  {}

  lemma RecoverKeyKeepsCInv(hash: string -> nat, s: State, store: Store, id: string)
    requires CInv(hash, s, id) && store == s.world.store.(recover := store.recover)
    ensures CInv(hash, s.(world := s.world.(store := store)), id)
    ensures Safe(s.world, id) ==> Safe(s.world.(store := store), id)
  {
    var s' := s.(world := s.world.(store := store));
    RecoverKeyKeepsInv(s.world, store);
    forall a
      ensures Kept(s.world, a, id) <==> Kept(s'.world, a, id)
    {
      RecoverKeyKeepsKept(s.world, store, a, id);
    }
    forall c | c in s'.dispatches && s'.dispatches[c].rec.id == id
      ensures DispatchIsSafe(s'.world, s'.dispatches[c])
    {
      assert DispatchIsSafe(s.world, s.dispatches[c]);
    }
  }

  // ---------------------------------------------------------------- starting a dispatch

  // Coordinators that share a view cannot both own the id, so nobody else is dispatching it.
  lemma BeginIsAlone(hash: string -> nat, s: State, c: NodeId, r: ProtocolInfo, recovering: bool)
    requires DispatchersOwn(hash, s) && CanBegin(hash, s, c, r, recovering)
    requires SharesViewWithDispatchers(s, c, r.id)
    ensures forall d :: d in s.dispatches ==> s.dispatches[d].rec.id != r.id
  {
    forall d | d in s.dispatches
      ensures s.dispatches[d].rec.id != r.id
    {
      if s.dispatches[d].rec.id == r.id {
        AtMostOneDispatcher(s.views[c], hash(r.id), c, d);
      }
    }
  }

  lemma BeginKeepsCInv(hash: string -> nat, s: State, c: NodeId, r: ProtocolInfo, recovering: bool, id: string)
    requires CInv(hash, s, id) && CanBegin(hash, s, c, r, recovering)
    requires Careful(s, Begin(c, r, recovering), id)
    ensures CInv(hash, Apply(hash, s, Begin(c, r, recovering)), id)
  {
    if r.id == id {
      BeginIsAlone(hash, s, c, r, recovering);
    }
    var s' := Apply(hash, s, Begin(c, r, recovering));
    assert s'.world == s.world;
  }

  // ---------------------------------------------------------------- moves

  // The already-alive answer: the witness's own record is there, and stays.
  lemma WitnessIsKept(w: World, a: string, ptype: string, id: string)
    requires Inv(w) && ProtocolInfo(a, ptype, id) in w.store.leased
    requires (w.store.leased[ProtocolInfo(a, ptype, id)], id) !in w.removed
    ensures Kept(w, a, id)
  {
    var key := ProtocolInfo(a, ptype, id);
    assert key in w.store.records;
    forall k | k in w.undeploys && w.undeploys[k].addr == a && w.undeploys[k].id == id
      ensures w.undeploys[k].pc.Stopped?
    {
      assert RemovalIsKnown(w, w.undeploys[k]);
    }
  }

  // The deploy answer: the target's record is there, and stays.
  lemma TargetIsKept(w: World, k: nat)
    requires Inv(w) && HasReplied(w, k) && !Doubtful(w, w.deploys[k].lease, w.deploys[k].id)
    ensures Kept(w, w.deploys[k].addr, w.deploys[k].id)
  {
    var t := w.deploys[k];
    assert DeployIsBacked(w, t) && DeployBelongs(w, k, t);
    var p := w.processes[t.addr];
    assert EntryIsBacked(w, t.addr, w.processes[t.addr], t.id);
    assert ProtocolInfo(t.addr, p.manager[t.id].ptype, t.id) in w.store.records;
    UnremovedIsNotBeingRemoved(w, t.addr, t.id);
  }

  // A dispatch deletes and undeploys only at its old record's address.
  lemma EffectKeepsKept(w: World, d: Dispatch, move: Move, a: string, id: string)
    requires CanMove(w, d, move) && Kept(w, a, id)
    requires d.rec.id != id || d.rec.addr != a || (!move.Remove? && !move.SendUndeploy?)
             || (move.Remove? && d.target == d.rec.addr)
    ensures Kept(Effect(w, d, move), a, id)
  {}

  // Where the move leaves the dispatch, its promise holds.
  lemma MoveKeepsOwnSafety(w: World, d: Dispatch, move: Move)
    requires Inv(w) && CanMove(w, d, move) && DispatchIsSafe(w, d) && CarefulMove(w, d, move)
    ensures Next(w, d, move).Continue? ==> DispatchIsSafe(Effect(w, d, move), Next(w, d, move).dispatch)
  {
    match move {
      case Probe(a) =>
        if d.target != d.rec.addr && ProtocolInfo(a, d.rec.ptype, d.rec.id) in w.store.leased {
          WitnessIsKept(w, a, d.rec.ptype, d.rec.id);
        }
      case Collect =>
        if d.target != d.rec.addr {
          TargetIsKept(w, d.pc.task);
        }
      case Remove =>
        if d.target != d.rec.addr {
          EffectKeepsKept(w, d, move, d.pc.keep, d.rec.id);
        }
      case _ =>
    }
  }

  // After the move the id is still safe, and if it was not known to the store before, it is not now.
  lemma EffectKeepsSafe(w: World, d: Dispatch, move: Move, id: string)
    requires CanMove(w, d, move) && (d.rec.id == id ==> DispatchIsSafe(w, d))
    requires HasRecord(w, id) || BeingRemoved(w, id) ==> Safe(w, id)
    ensures HasRecord(Effect(w, d, move), id) || BeingRemoved(Effect(w, d, move), id) ==> Safe(Effect(w, d, move), id)
    ensures Safe(w, id) ==> Safe(Effect(w, d, move), id)
  {
    var w' := Effect(w, d, move);
    if d.rec.id == id && ((move.Remove? && d.target != d.rec.addr) || move.SendUndeploy?) {
      EffectKeepsKept(w, d, move, d.pc.keep, id);
      assert Safe(w', id);
    } else if Safe(w, id) {
      var a :| Kept(w, a, id);
      EffectKeepsKept(w, d, move, a, id);
    } else {
      assert !HasRecord(w', id);
      forall k | k in w'.undeploys && w'.undeploys[k].id == id
        ensures w'.undeploys[k].pc.Stopped?
      {
        assert k in w.undeploys;
      }
    }
  }

  lemma OnlyTheMoverChanges(hash: string -> nat, s: State, c: NodeId, move: Move)
    requires Enabled(hash, s, Advance(c, move))
    ensures Apply(hash, s, Advance(c, move)).views == s.views
    ensures forall e :: e in Apply(hash, s, Advance(c, move)).dispatches && e != c ==>
              e in s.dispatches && Apply(hash, s, Advance(c, move)).dispatches[e] == s.dispatches[e]
    ensures c in Apply(hash, s, Advance(c, move)).dispatches ==>
              Next(s.world, s.dispatches[c], move).Continue?
              && Apply(hash, s, Advance(c, move)).dispatches[c] == Next(s.world, s.dispatches[c], move).dispatch
  {}

  // Only the moving coordinator's entry changes, and it keeps its record.
  lemma MoveKeepsDispatchers(hash: string -> nat, s: State, c: NodeId, move: Move, id: string)
    requires Enabled(hash, s, Advance(c, move)) && DispatchersOwn(hash, s) && OneDispatcher(s, id)
    ensures DispatchersOwn(hash, Apply(hash, s, Advance(c, move)))
    ensures OneDispatcher(Apply(hash, s, Advance(c, move)), id)
  {
    OnlyTheMoverChanges(hash, s, c, move);
    MoveKeepsRecord(s.world, s.dispatches[c], move);
    var s' := Apply(hash, s, Advance(c, move));
    assert forall e :: e in s'.dispatches ==> e in s.dispatches && s'.dispatches[e].rec == s.dispatches[e].rec;
  }

  lemma MoveKeepsDispatches(hash: string -> nat, s: State, c: NodeId, move: Move, id: string)
    requires CInv(hash, s, id) && Enabled(hash, s, Advance(c, move)) && Careful(s, Advance(c, move), id)
    ensures DispatchesAreSafe(Apply(hash, s, Advance(c, move)), id)
  {
    var d, s' := s.dispatches[c], Apply(hash, s, Advance(c, move));
    OnlyTheMoverChanges(hash, s, c, move);
    MoveKeepsRecord(s.world, d, move);
    forall e | e in s'.dispatches && s'.dispatches[e].rec.id == id
      ensures DispatchIsSafe(s'.world, s'.dispatches[e])
    {
      if e == c {
        MoveKeepsOwnSafety(s.world, d, move);
      } else {
        OtherDispatchIsSafe(s.world, d, move, s.dispatches[e]);
      }
    }
  }

  lemma MoveKeepsCInv(hash: string -> nat, s: State, c: NodeId, move: Move, id: string)
    requires CInv(hash, s, id) && Enabled(hash, s, Advance(c, move)) && Careful(s, Advance(c, move), id)
    ensures CInv(hash, Apply(hash, s, Advance(c, move)), id)
  {
    EffectKeepsInv(s.world, s.dispatches[c], move);
    EffectKeepsSafe(s.world, s.dispatches[c], move, id);
    MoveKeepsDispatchers(hash, s, c, move, id);
    MoveKeepsDispatches(hash, s, c, move, id);
  }

  lemma OtherDispatchIsSafe(w: World, d: Dispatch, move: Move, e: Dispatch)
    requires CanMove(w, d, move) && DispatchIsSafe(w, e) && d.rec.id != e.rec.id
    ensures DispatchIsSafe(Effect(w, d, move), e)
  {}

  // ---------------------------------------------------------------- runs

  lemma StepKeepsCInv(hash: string -> nat, s: State, st: Step, id: string)
    requires CInv(hash, s, id) && Enabled(hash, s, st) && Careful(s, st, id)
    ensures CInv(hash, Apply(hash, s, st), id)
    ensures Safe(s.world, id) ==> Safe(Apply(hash, s, st).world, id)
  {
    match st {
      case Container(act) =>
        ActKeepsCInv(hash, s, act, id);
        if Safe(s.world, id) {
          var a :| Kept(s.world, a, id);
          ActKeepsKept(s.world, act, a, id);
        }
      case Learn(c, e) =>
        assert Apply(hash, s, st).world == s.world;
      case StartRecovery(c, a, kvs) => RecoverKeyKeepsCInv(hash, s, NodeGone(s.world.store, a, kvs), id);
      case GiveUp(c, a, kvs) => RecoverKeyKeepsCInv(hash, s, s.world.store.DeleteRecover(a), id);
      case Begin(c, r, recovering) => BeginKeepsCInv(hash, s, c, r, recovering, id);
      case Advance(c, move) =>
        MoveKeepsCInv(hash, s, c, move, id);
        EffectKeepsSafe(s.world, s.dispatches[c], move, id);
    }
  }

  ghost predicate CarefulRun(states: seq<State>, steps: seq<Step>, id: string)
    requires |states| == |steps| + 1
  {
    forall i {:trigger steps[i]} :: 0 <= i < |steps| ==> Careful(states[i], steps[i], id)
  }

  lemma {:induction false} RunKeepsCInv(hash: string -> nat, states: seq<State>, steps: seq<Step>, id: string, n: nat)
    requires IsRun(hash, states, steps) && CarefulRun(states, steps, id) && n <= |steps|
    ensures CInv(hash, states[n], id)
  {
    if n > 0 {
      RunKeepsCInv(hash, states, steps, id, n - 1);
      StepKeepsCInv(hash, states[n - 1], steps[n - 1], id);
    }
  }

  /** Conservation: in a careful run, an id that has a node record has one ever after. */
  lemma {:induction false} RecordsAreConserved(hash: string -> nat, states: seq<State>, steps: seq<Step>, id: string,
                                               i: nat, j: nat)
    requires IsRun(hash, states, steps) && CarefulRun(states, steps, id)
    requires i <= j <= |steps| && HasRecord(states[i].world, id)
    ensures HasRecord(states[j].world, id)
    decreases j - i
  {
    StaysSafe(hash, states, steps, id, i, j);
    var a :| Kept(states[j].world, a, id);
    var t :| ProtocolInfo(a, t, id) in states[j].world.store.records;
  }

  lemma {:induction false} StaysSafe(hash: string -> nat, states: seq<State>, steps: seq<Step>, id: string,
                                     i: nat, j: nat)
    requires IsRun(hash, states, steps) && CarefulRun(states, steps, id)
    requires i <= j <= |steps| && HasRecord(states[i].world, id)
    ensures Safe(states[j].world, id)
    decreases j
  {
    if i == j {
      RunKeepsCInv(hash, states, steps, id, i);
    } else {
      StaysSafe(hash, states, steps, id, i, j - 1);
      RunKeepsCInv(hash, states, steps, id, j - 1);
      StepKeepsCInv(hash, states[j - 1], steps[j - 1], id);
    }
  }

  /**
   The old record is deleted only when another one is in place: at the witness's or the target's
   address, with no removal of it under way.
   */
  lemma DeletedOnlyWhenReplaced(hash: string -> nat, states: seq<State>, steps: seq<Step>, id: string, n: nat,
                                c: NodeId)
    requires IsRun(hash, states, steps) && CarefulRun(states, steps, id) && n < |steps|
    requires steps[n] == Advance(c, Remove) && states[n].dispatches[c].rec.id == id
    requires states[n].dispatches[c].target != states[n].dispatches[c].rec.addr
    ensures var d := states[n].dispatches[c];
            d.pc.keep != d.rec.addr && Kept(states[n].world, d.pc.keep, id) && Kept(states[n + 1].world, d.pc.keep, id)
  {
    RunKeepsCInv(hash, states, steps, id, n);
    var d := states[n].dispatches[c];
    assert DispatchIsSafe(states[n].world, d);
    EffectKeepsKept(states[n].world, d, Remove, d.pc.keep, id);
  }
}
