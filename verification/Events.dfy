/**
 A graceful stop and a crash look different to the coordinators, in every interleaving: the events
 of a stop never lead to a dispatch, those of a crash do, whenever they are handled, at exactly one
 of the coordinators that share a view.

 Both rest on the node record. A step that puts it is needed to bring it back, and a step that
 deletes it to lose it.
 */
module Events {
  import opened Store
  import opened View
  import opened Cluster
  import opened Durability

  // The subscriber's first put, at the record's own address.
  ghost predicate PutsRecord(s: State, st: Step, r: ProtocolInfo) {
    && st.Container? && st.act.DeployStep? && st.act.k in s.world.deploys
    && s.world.deploys[st.act.k].pc.PuttingRecord? && s.world.deploys[st.act.k].Info() == r
  }

  // The subscriber's first delete, or a dispatch of the record to another address.
  ghost predicate DeletesRecord(s: State, st: Step, r: ProtocolInfo) {
    match st
    case Container(UndeployStep(k)) =>
      k in s.world.undeploys && s.world.undeploys[k].pc.DroppingRecord? && s.world.undeploys[k].Info() == r
    case Advance(c, Remove) =>
      c in s.dispatches && s.dispatches[c].rec == r && s.dispatches[c].target != r.addr
    case _ => false
  }

  lemma ActOnRecords(w: World, act: Act, r: ProtocolInfo)
    requires CanAct(w, act)
    ensures r in Perform(w, act).store.records <==>
            || (act.DeployStep? && w.deploys[act.k].pc.PuttingRecord? && w.deploys[act.k].Info() == r)
            || (r in w.store.records
                && !(act.UndeployStep? && w.undeploys[act.k].pc.DroppingRecord? && w.undeploys[act.k].Info() == r))
    ensures w.deleted <= Perform(w, act).deleted
  {}

  lemma EffectOnRecords(w: World, d: Dispatch, move: Move, r: ProtocolInfo)
    requires CanMove(w, d, move)
    ensures r in Effect(w, d, move).store.records <==>
            r in w.store.records && !(move.Remove? && d.rec == r && d.target != r.addr)
    ensures w.deleted <= Effect(w, d, move).deleted
  {}

  /** A record is there after a step iff the step puts it, or it was there and the step does not delete it. */
  lemma RecordAfterStep(hash: string -> nat, s: State, st: Step, r: ProtocolInfo)
    requires Enabled(hash, s, st)
    ensures r in Apply(hash, s, st).world.store.records <==>
            PutsRecord(s, st, r) || (r in s.world.store.records && !DeletesRecord(s, st, r))
    ensures s.world.deleted <= Apply(hash, s, st).world.deleted
  {
    match st {
      case Container(act) => ActOnRecords(s.world, act, r);
      case Advance(c, move) => EffectOnRecords(s.world, s.dispatches[c], move, r);
      case _ =>
    }
  }

  // ---------------------------------------------------------------- the events

  // etcd deletes a key of the protocol, or the container's node key, in the step from s to s'.
  ghost predicate Vanishes(s: State, s': State, r: ProtocolInfo) {
    || (r in s.world.store.records && r !in s'.world.store.records)
    || (r in s.world.store.leased && r !in s'.world.store.leased)
  }

  ghost predicate NodeVanishes(s: State, s': State, a: string) {
    a in s.world.store.up && a !in s'.world.store.up
  }

  lemma ActOnEvents(w: World, act: Act, r: ProtocolInfo)
    requires CanAct(w, act)
    ensures var w' := Perform(w, act);
            r in w'.deleted <==>
            || r in w.deleted || (r in w.store.records && r !in w'.store.records)
            || (r in w.store.leased && r !in w'.store.leased)
  {}

  lemma ActOnNodeEvents(w: World, act: Act, a: string)
    requires CanAct(w, act)
    ensures var w' := Perform(w, act); a in w'.gone <==> a in w.gone || (a in w.store.up && a !in w'.store.up)
  {}

  lemma EffectOnEvents(w: World, d: Dispatch, move: Move, r: ProtocolInfo)
    requires CanMove(w, d, move)
    ensures var w' := Effect(w, d, move);
            && (r in w'.deleted <==> r in w.deleted || (r in w.store.records && r !in w'.store.records))
            && w'.store.leased == w.store.leased && w'.store.up == w.store.up && w'.gone == w.gone
  {}

  lemma StepOnEvents(hash: string -> nat, s: State, st: Step, r: ProtocolInfo, a: string)
    requires Enabled(hash, s, st)
    ensures var s' := Apply(hash, s, st);
            && (r in s'.world.deleted <==> r in s.world.deleted || Vanishes(s, s', r))
            && (a in s'.world.gone <==> a in s.world.gone || NodeVanishes(s, s', a))
  {
    match st {
      case Container(act) =>
        ActOnEvents(s.world, act, r);
        ActOnNodeEvents(s.world, act, a);
      case Advance(c, move) => EffectOnEvents(s.world, s.dispatches[c], move, r);
      case _ =>
    }
  }

  /** The events that can be handled are exactly the deletions that have taken place in etcd. */
  lemma {:induction false} EventsAreDeletions(hash: string -> nat, states: seq<State>, steps: seq<Step>, n: nat,
                                              r: ProtocolInfo, a: string)
    requires IsRun(hash, states, steps) && n <= |steps|
    ensures r in states[n].world.deleted <==> exists m :: 0 <= m < n && Vanishes(states[m], states[m + 1], r)
    ensures a in states[n].world.gone <==> exists m :: 0 <= m < n && NodeVanishes(states[m], states[m + 1], a)
  {
    if n > 0 {
      EventsAreDeletions(hash, states, steps, n - 1, r, a);
      StepOnEvents(hash, states[n - 1], steps[n - 1], r, a);
      assert Vanishes(states[n - 1], states[n - 1 + 1], r) <==> Vanishes(states[n - 1], states[n], r);
      assert NodeVanishes(states[n - 1], states[n - 1 + 1], a) <==> NodeVanishes(states[n - 1], states[n], a);
    }
  }

  /** Nothing starts without its event: a dispatch outside recovery, and a recovery, follow a deletion. */
  lemma StartsFollowDeletions(hash: string -> nat, states: seq<State>, steps: seq<Step>, n: nat, c: NodeId,
                              r: ProtocolInfo, a: string, kvs: seq<ProtocolInfo>)
    requires IsRun(hash, states, steps) && n < |steps|
    ensures steps[n] == Begin(c, r, false) ==> exists m :: 0 <= m < n && Vanishes(states[m], states[m + 1], r)
    ensures steps[n] == StartRecovery(c, a, kvs) ==>
              exists m :: 0 <= m < n && NodeVanishes(states[m], states[m + 1], a)
  {
    EventsAreDeletions(hash, states, steps, n, r, a);
  }

  // ---------------------------------------------------------------- what coordinators learn

  // The events of the deploy nodes that coordinator c has handled.
  ghost function Learned(steps: seq<Step>, c: NodeId): seq<Event> {
    if steps == [] then []
    else
      var before := Learned(steps[..|steps| - 1], c);
      match steps[|steps| - 1]
      case Learn(d, e) => if d == c then before + [e] else before
      case _ => before
  }

  lemma StepOnView(hash: string -> nat, s: State, st: Step, c: NodeId)
    requires Enabled(hash, s, st) && c in s.views
    ensures c in Apply(hash, s, st).views
    ensures Apply(hash, s, st).views[c] ==
            if st.Learn? && st.c == c then ApplyEvent(s.views[c], st.event) else s.views[c]
  {}

  lemma LearnedMore(view: seq<NodeInfo>, steps: seq<Step>, n: nat, c: NodeId)
    requires 0 < n <= |steps|
    ensures var st := steps[n - 1];
            var before := ApplyAll(view, Learned(steps[..n - 1], c));
            ApplyAll(view, Learned(steps[..n], c)) ==
            if st.Learn? && st.c == c then ApplyEvent(before, st.event) else before
  {
    assert steps[..n][..n - 1] == steps[..n - 1];
    var log, st := Learned(steps[..n - 1], c), steps[n - 1];
    if st.Learn? && st.c == c {
      assert (log + [st.event])[..|log|] == log;
    }
  }

  /**
   In every run a coordinator's view is the fold of what it has learned over what it started with,
   so that all that is proved about the watched view holds of it.
   */
  lemma {:induction false} ViewIsTheFold(hash: string -> nat, states: seq<State>, steps: seq<Step>, n: nat, c: NodeId)
    requires IsRun(hash, states, steps) && n <= |steps| && c in states[0].views
    ensures c in states[n].views && states[n].views[c] == ApplyAll(states[0].views[c], Learned(steps[..n], c))
  {
    if n > 0 {
      ViewIsTheFold(hash, states, steps, n - 1, c);
      StepOnView(hash, states[n - 1], steps[n - 1], c);
      LearnedMore(states[0].views[c], steps, n, c);
    }
  }

  // ---------------------------------------------------------------- a graceful stop

  lemma {:induction false} StaysAbsent(hash: string -> nat, states: seq<State>, steps: seq<Step>, r: ProtocolInfo,
                                       i: nat, j: nat)
    requires IsRun(hash, states, steps) && i <= j <= |steps| && r !in states[i].world.store.records
    requires forall m {:trigger steps[m]} :: i <= m < j ==> !PutsRecord(states[m], steps[m], r)
    ensures r !in states[j].world.store.records
    decreases j
  {
    if i < j {
      StaysAbsent(hash, states, steps, r, i, j - 1);
      RecordAfterStep(hash, states[j - 1], steps[j - 1], r);
    }
  }

  /**
   A stop is silent: once an undeploy has deleted the record, and while no deploy at that address
   puts it again, no DELETE event for it, redelivered however often and in whatever order, and no
   recover event starts a dispatch at any coordinator, whatever its view.
   */
  lemma StopIsSilent(hash: string -> nat, states: seq<State>, steps: seq<Step>, k: nat, i: nat, j: nat,
                     c: NodeId, recovering: bool)
    requires IsRun(hash, states, steps) && i < j <= |steps|
    requires steps[i] == Container(UndeployStep(k)) && states[i].world.undeploys[k].pc.DroppingRecord?
    requires var r := states[i].world.undeploys[k].Info();
             forall m {:trigger steps[m]} :: i < m < j ==> !PutsRecord(states[m], steps[m], r)
    ensures states[i].world.undeploys[k].Info() !in states[j].world.store.records
    ensures !CanBegin(hash, states[j], c, states[i].world.undeploys[k].Info(), recovering)
  {
    var r := states[i].world.undeploys[k].Info();
    RecordAfterStep(hash, states[i], steps[i], r);
    StaysAbsent(hash, states, steps, r, i + 1, j);
  }

  // An undeploy that comes to its second delete has made its first.
  lemma {:induction false} RecordWentFirst(hash: string -> nat, states: seq<State>, steps: seq<Step>, k: nat, n: nat)
    returns (m: nat)
    requires IsRun(hash, states, steps) && n <= |steps|
    requires k in states[n].world.undeploys && states[n].world.undeploys[k].pc.DroppingLeased?
    ensures m < n && steps[m] == Container(UndeployStep(k)) && k in states[m].world.undeploys
    ensures states[m].world.undeploys[k] == states[n].world.undeploys[k].(pc := DroppingRecord)
  {
    assert n > 0;
    UndeployMovesOn(hash, states[n - 1], steps[n - 1], k);
    if k in states[n - 1].world.undeploys && states[n - 1].world.undeploys[k].pc.DroppingLeased? {
      m := RecordWentFirst(hash, states, steps, k, n - 1);
    } else {
      m := n - 1;
    }
  }

  lemma UndeployMovesOn(hash: string -> nat, s: State, st: Step, k: nat)
    requires Enabled(hash, s, st) && k in Apply(hash, s, st).world.undeploys
    requires Apply(hash, s, st).world.undeploys[k].pc.DroppingLeased?
    ensures var u := Apply(hash, s, st).world.undeploys[k];
            && k in s.world.undeploys
            && (s.world.undeploys[k] == u
                || (s.world.undeploys[k] == u.(pc := DroppingRecord) && st == Container(UndeployStep(k))))
  {
    match st {
      case Container(act) => ActMovesOn(s.world, act, k);
      case Advance(c, move) => assert k in s.world.undeploys;
      case _ =>
    }
  }

  lemma ActMovesOn(w: World, act: Act, k: nat)
    requires CanAct(w, act) && k in Perform(w, act).undeploys && Perform(w, act).undeploys[k].pc.DroppingLeased?
    ensures var u := Perform(w, act).undeploys[k];
            && k in w.undeploys
            && (w.undeploys[k] == u || (w.undeploys[k] == u.(pc := DroppingRecord) && act == UndeployStep(k)))
  {}

  /**
   The DELETE event that a stop makes on a liveness key is as silent: the record has gone before, so
   unless a deploy there puts it again it is not there when the key goes, or at any time after.
   */
  lemma StopDropsTheRecordFirst(hash: string -> nat, states: seq<State>, steps: seq<Step>, k: nat, n: nat, j: nat)
    returns (m: nat)
    requires IsRun(hash, states, steps) && n < j <= |steps| && steps[n] == Container(UndeployStep(k))
    requires states[n].world.undeploys[k].pc.DroppingLeased?
    ensures m < n && steps[m] == Container(UndeployStep(k))
    ensures var r := states[n].world.undeploys[k].Info();
            && r !in states[m + 1].world.store.records && r !in states[n + 1].world.store.leased
            && ((forall l {:trigger steps[l]} :: m < l < j ==> !PutsRecord(states[l], steps[l], r)) ==>
                r !in states[n].world.store.records && r !in states[j].world.store.records)
  {
    m := RecordWentFirst(hash, states, steps, k, n);
    var r := states[n].world.undeploys[k].Info();
    RecordAfterStep(hash, states[m], steps[m], r);
    if forall l {:trigger steps[l]} :: m < l < j ==> !PutsRecord(states[l], steps[l], r) {
      StaysAbsent(hash, states, steps, r, m + 1, n);
      StaysAbsent(hash, states, steps, r, m + 1, j);
    }
  }

  // ---------------------------------------------------------------- a crash

  lemma {:induction false} StaysNoticed(hash: string -> nat, states: seq<State>, steps: seq<Step>, r: ProtocolInfo,
                                        i: nat, j: nat)
    requires IsRun(hash, states, steps) && i <= j <= |steps|
    requires r in states[i].world.store.records && r in states[i].world.deleted
    requires forall m {:trigger steps[m]} :: i <= m < j ==> !DeletesRecord(states[m], steps[m], r)
    ensures r in states[j].world.store.records && r in states[j].world.deleted
    decreases j
  {
    if i < j {
      StaysNoticed(hash, states, steps, r, i, j - 1);
      RecordAfterStep(hash, states[j - 1], steps[j - 1], r);
    }
  }

  /**
   A crash is noticed: when the lease of a live protocol expires whose removal had not begun, its
   DELETE event finds the record whenever it is handled, until a step deletes the record. Every
   coordinator that is not busy then can dispatch it exactly if it owns the id in its view.
   */
  lemma CrashIsNoticed(hash: string -> nat, states: seq<State>, steps: seq<Step>, n: nat, l: nat, r: ProtocolInfo,
                       j: nat)
    requires IsRun(hash, states, steps) && n < j <= |steps| && steps[n] == Container(ExpireLease(l))
    requires r in states[n].world.store.leased && states[n].world.store.leased[r] == l
    requires (l, r.id) !in states[n].world.removed
    requires forall m {:trigger steps[m]} :: n < m < j ==> !DeletesRecord(states[m], steps[m], r)
    ensures r in states[j].world.store.records && r in states[j].world.deleted
    ensures forall c :: c in states[j].views && c !in states[j].dispatches ==>
              (CanBegin(hash, states[j], c, r, false) <==> Owns(states[j].views[c], c, hash(r.id)))
  {
    LivenessImpliesDurable(hash, states, steps, n, r);
    var w, s' := states[n].world, states[n + 1];
    assert r in w.store.records;
    assert r in s'.world.deleted && r in s'.world.store.records;
    StaysNoticed(hash, states, steps, r, n + 1, j);
  }

  /** Among the coordinators that share a duplicate-free view when they handle it, exactly one can. */
  lemma CrashHasOneDispatcher(hash: string -> nat, states: seq<State>, steps: seq<Step>, n: nat, l: nat,
                              r: ProtocolInfo, j: nat, view: seq<NodeInfo>)
    returns (owner: NodeId)
    requires IsRun(hash, states, steps) && n < j <= |steps| && steps[n] == Container(ExpireLease(l))
    requires r in states[n].world.store.leased && states[n].world.store.leased[r] == l
    requires (l, r.id) !in states[n].world.removed
    requires forall m {:trigger steps[m]} :: n < m < j ==> !DeletesRecord(states[m], steps[m], r)
    requires view != [] && DistinctIds(view)
    ensures InView(view, owner)
    ensures forall c :: c in states[j].views && states[j].views[c] == view && InView(view, c) ==>
              (CanBegin(hash, states[j], c, r, false) <==> c == owner && c !in states[j].dispatches)
  {
    CrashIsNoticed(hash, states, steps, n, l, r, j);
    owner := OwnerOf(view, hash(r.id));
    forall c | c in states[j].views && states[j].views[c] == view && InView(view, c)
      ensures CanBegin(hash, states[j], c, r, false) <==> c == owner && c !in states[j].dispatches
    {
      if Owns(view, c, hash(r.id)) {
        AtMostOneDispatcher(view, hash(r.id), c, owner);
      }
    }
  }
}
