/**
 One dispatchToAlive among everything else that happens: its retry loop is bounded, it always comes
 to an end, and it reports success only for a protocol that it has seen alive, whatever the other
 coordinators and the containers do meanwhile and whichever requests fail.
 */
module Dispatching {
  import opened Store
  import opened View
  import opened Cluster

  // ---------------------------------------------------------------- the end of a dispatch

  // The dispatch is between a deploy request and the next look at its outcome.
  predicate HasAsked(d: Dispatch) {
    match d.pc
    case Waiting(_) => true
    case Removing(_, polls) => polls
    case Checking(_, polls) => polls
    case Undeploying(_, polls) => polls
    case Polling => true
    case _ => false
  }

  // In doRemoveGarbageData, and there in the already-alive branch.
  predicate InRemoval(d: Dispatch) {
    d.pc.Removing? || d.pc.Checking? || d.pc.Undeploying?
  }

  predicate FoundAlive(d: Dispatch) {
    match d.pc
    case Removing(_, polls) => !polls
    case Checking(_, polls) => !polls
    case Undeploying(_, polls) => !polls
    case _ => false
  }

  predicate WithinBounds(d: Dispatch) {
    && d.count <= 6
    && (d.count == 6 ==> d.pc.Reading? || d.pc.Waiting?)
    && (d.pc.Confirming? || d.pc.Choosing? || d.pc.Listing? || d.pc.Probing? || FoundAlive(d) ==> d.count == 0)
  }

  function Rank(pc: DispatchPc): nat {
    match pc
    case Confirming => 9
    case Choosing => 8
    case Listing => 7
    case Probing(_) => 6
    case Reading => 5
    case Waiting(_) => 4
    case Removing(_, _) => 3
    case Checking(_, _) => 2
    case Undeploying(_, _) => 1
    case Polling => 0
  }

  function Unprobed(pc: DispatchPc): nat {
    if pc.Probing? then |pc.todo| else 0
  }

  // Lexicographically: rounds left, place in the round, nodes left to probe.
  predicate Lower(d': Dispatch, d: Dispatch) {
    || d'.count > d.count
    || (d'.count == d.count && Rank(d'.pc) < Rank(d.pc))
    || (d'.count == d.count && Rank(d'.pc) == Rank(d.pc) && Unprobed(d'.pc) < Unprobed(d.pc))
  }

  /**
   Every move of a dispatch ends it or brings it closer to its end, in any world: at most six rounds,
   each with finitely many moves.
   */
  lemma MoveLowersMeasure(w: World, d: Dispatch, move: Move)
    requires WithinBounds(d) && CanMove(w, d, move)
    ensures Next(w, d, move).Continue? ==>
              WithinBounds(Next(w, d, move).dispatch) && Lower(Next(w, d, move).dispatch, d)
  {}

  // ---------------------------------------------------------------- counting requests

  // How often coordinator c makes the move in steps i to j - 1.
  ghost function Count(steps: seq<Step>, c: NodeId, move: Move, i: nat, j: nat): nat
    requires j <= |steps|
    decreases j
  {
    if j <= i then 0 else Count(steps, c, move, i, j - 1) + (if steps[j - 1] == Advance(c, move) then 1 else 0)
  }

  // Step i begins a dispatch of coordinator c, which is still under way in state j.
  ghost predicate Busy(states: seq<State>, steps: seq<Step>, c: NodeId, i: nat, j: nat)
    requires |states| == |steps| + 1
  {
    && i < j <= |steps| && steps[i].Begin? && steps[i].c == c
    && forall m {:trigger states[m]} :: i < m <= j ==> c in states[m].dispatches
  }

  ghost predicate Counted(d: Dispatch, deploys: nat, polls: nat) {
    WithinBounds(d) && polls == d.count && deploys == d.count + (if HasAsked(d) then 1 else 0)
  }

  lemma MoveCounts(w: World, d: Dispatch, move: Move, deploys: nat, polls: nat)
    requires Counted(d, deploys, polls) && CanMove(w, d, move)
    ensures Next(w, d, move).Continue? ==>
              Counted(Next(w, d, move).dispatch, if move.Redeploy? then deploys + 1 else deploys,
                      if move.Poll? then polls + 1 else polls)
    ensures (if move.Redeploy? then deploys + 1 else deploys) <= 7 && (if move.Poll? then polls + 1 else polls) <= 6
  {}

  lemma {:induction false} RequestsAreCounted(hash: string -> nat, states: seq<State>, steps: seq<Step>, c: NodeId,
                                              i: nat, j: nat)
    requires IsRun(hash, states, steps) && Busy(states, steps, c, i, j)
    ensures Counted(states[j].dispatches[c], Count(steps, c, Redeploy, i, j), Count(steps, c, Poll, i, j))
    decreases j
  {
    if j == i + 1 {
      assert Count(steps, c, Redeploy, i, i) == 0 && Count(steps, c, Poll, i, i) == 0;
    } else {
      assert c in states[j - 1].dispatches && c in states[j].dispatches;
      RequestsAreCounted(hash, states, steps, c, i, j - 1);
      StepCounts(hash, states[j - 1], steps[j - 1], c, Count(steps, c, Redeploy, i, j - 1),
                 Count(steps, c, Poll, i, j - 1));
    }
  }

  lemma StepCounts(hash: string -> nat, s: State, st: Step, c: NodeId, deploys: nat, polls: nat)
    requires Enabled(hash, s, st) && c in s.dispatches && Counted(s.dispatches[c], deploys, polls)
    ensures var deploys' := deploys + if st == Advance(c, Redeploy) then 1 else 0;
            var polls' := polls + if st == Advance(c, Poll) then 1 else 0;
            && deploys' <= 7 && polls' <= 6
            && (c in Apply(hash, s, st).dispatches ==> Counted(Apply(hash, s, st).dispatches[c], deploys', polls'))
  {
    if st.Advance? && st.c == c {
      MoveCounts(s.world, s.dispatches[c], st.move, deploys, polls);
    }
  }

  /**
   Whatever happens in between, one dispatch sends at most 7 deploy requests and polls at most 6
   times: counted over all steps from its start, up to and including the one that may end it.
   */
  lemma DispatchIsBounded(hash: string -> nat, states: seq<State>, steps: seq<Step>, c: NodeId, i: nat, j: nat)
    requires IsRun(hash, states, steps) && j < |steps| && Busy(states, steps, c, i, j)
    ensures Count(steps, c, Redeploy, i, j + 1) <= 7 && Count(steps, c, Poll, i, j + 1) <= 6
  {
    RequestsAreCounted(hash, states, steps, c, i, j);
    assert c in states[j].dispatches;
    StepCounts(hash, states[j], steps[j], c, Count(steps, c, Redeploy, i, j), Count(steps, c, Poll, i, j));
  }

  /**
   A dispatch does not give up early either: it goes on from an accepted deploy request exactly if it
   has polled fewer than six times, and a poll that does not find the protocol running is followed by
   another round.
   */
  lemma DispatchGoesOn(hash: string -> nat, states: seq<State>, steps: seq<Step>, c: NodeId, i: nat, j: nat)
    requires IsRun(hash, states, steps) && Busy(states, steps, c, i, j)
    ensures var w, d := states[j].world, states[j].dispatches[c];
            && (d.pc.Waiting? && d.pc.task in w.deploys && w.deploys[d.pc.task].pc == Replied(true) ==>
                (CanMove(w, d, Collect) <==> Count(steps, c, Poll, i, j) < 6))
            && (d.pc.Polling? ==>
                && CanMove(w, d, Poll)
                && (Next(w, d, Poll) == Done <==> Running(w, d.target, d.rec.ptype, d.rec.id))
                && (Next(w, d, Poll).Continue? ==>
                    Next(w, d, Poll).dispatch == d.(pc := Reading, count := d.count + 1)))
  {
    RequestsAreCounted(hash, states, steps, c, i, j);
  }

  // ---------------------------------------------------------------- what success means

  // Step m of the dispatch found the protocol leased at the address.
  ghost predicate SawAlive(states: seq<State>, steps: seq<Step>, c: NodeId, r: ProtocolInfo, m: nat, a: string)
    requires m < |steps| < |states|
  {
    steps[m] == Advance(c, Probe(a)) && ProtocolInfo(a, r.ptype, r.id) in states[m].world.store.leased
  }

  // Step m of the dispatch took an answer of success to its deploy request.
  ghost predicate TookAnswer(states: seq<State>, steps: seq<Step>, c: NodeId, m: nat)
    requires m < |steps| < |states|
  {
    && steps[m] == Advance(c, Collect) && c in states[m].dispatches && states[m].dispatches[c].pc.Waiting?
    && HasReplied(states[m].world, states[m].dispatches[c].pc.task)
  }

  lemma {:induction false} RemovalWasEarned(hash: string -> nat, states: seq<State>, steps: seq<Step>, c: NodeId,
                                            i: nat, j: nat)
    returns (m: nat, a: string)
    requires IsRun(hash, states, steps) && Busy(states, steps, c, i, j) && InRemoval(states[j].dispatches[c])
    ensures i < m < j
    ensures if FoundAlive(states[j].dispatches[c]) then SawAlive(states, steps, c, steps[i].rec, m, a)
            else TookAnswer(states, steps, c, m)
    decreases j
  {
    assert j > i + 1;
    assert c in states[j - 1].dispatches && c in states[j].dispatches;
    RecIsKept(hash, states, steps, c, i, j - 1);
    StepKeepsDispatch(hash, states[j - 1], steps[j - 1], c);
    if InRemoval(states[j - 1].dispatches[c]) {
      m, a := RemovalWasEarned(hash, states, steps, c, i, j - 1);
    } else if FoundAlive(states[j].dispatches[c]) {
      m, a := j - 1, steps[j - 1].move.addr;
    } else {
      m, a := j - 1, "";
    }
  }

  /**
   A dispatch touches nothing too early, whatever happens meanwhile: unless one of its probes has
   found the protocol alive, or it has taken an answer of success to its deploy request, no move of
   it changes etcd or begins an undeploy.
   */
  lemma NothingGoesBefore(hash: string -> nat, states: seq<State>, steps: seq<Step>, c: NodeId, i: nat, j: nat)
    returns (m: nat, a: string)
    requires IsRun(hash, states, steps) && j < |steps| && Busy(states, steps, c, i, j)
    requires steps[j].Advance? && steps[j].c == c
    ensures || (states[j + 1].world.store == states[j].world.store
                && states[j + 1].world.undeploys == states[j].world.undeploys)
            || (i < m < j && (SawAlive(states, steps, c, steps[i].rec, m, a) || TookAnswer(states, steps, c, m)))
  {
    m, a := 0, "";
    assert c in states[j].dispatches;
    if InRemoval(states[j].dispatches[c]) {
      m, a := RemovalWasEarned(hash, states, steps, c, i, j);
    } else {
      assert Effect(states[j].world, states[j].dispatches[c], steps[j].move).store == states[j].world.store;
    }
  }

  lemma {:induction false} RecIsKept(hash: string -> nat, states: seq<State>, steps: seq<Step>, c: NodeId,
                                     i: nat, j: nat)
    requires IsRun(hash, states, steps) && Busy(states, steps, c, i, j)
    ensures states[j].dispatches[c].rec == steps[i].rec
    decreases j
  {
    if j > i + 1 {
      assert c in states[j - 1].dispatches && c in states[j].dispatches;
      RecIsKept(hash, states, steps, c, i, j - 1);
      StepKeepsDispatch(hash, states[j - 1], steps[j - 1], c);
    }
  }

  // What one step can do to a dispatch: its record stays, and the removal is only entered after a
  // probe that hits or an answer of success.
  ghost predicate Enters(w: World, d: Dispatch, d': Dispatch, move: Move) {
    if FoundAlive(d') then move.Probe? && ProtocolInfo(move.addr, d.rec.ptype, d.rec.id) in w.store.leased
    else move.Collect? && d.pc.Waiting? && HasReplied(w, d.pc.task)
  }

  lemma StepKeepsDispatch(hash: string -> nat, s: State, st: Step, c: NodeId)
    requires Enabled(hash, s, st) && c in s.dispatches && c in Apply(hash, s, st).dispatches
    ensures var d, d' := s.dispatches[c], Apply(hash, s, st).dispatches[c];
            && d'.rec == d.rec
            && (InRemoval(d') && InRemoval(d) ==> FoundAlive(d') == FoundAlive(d))
            && (InRemoval(d') && !InRemoval(d) ==> st.Advance? && st.c == c && Enters(s.world, d, d', st.move))
  {
    if st.Advance? && st.c == c {
      MoveKeepsDispatch(s.world, s.dispatches[c], st.move);
    }
  }

  lemma MoveKeepsDispatch(w: World, d: Dispatch, move: Move)
    requires CanMove(w, d, move)
    ensures Next(w, d, move).Continue? ==>
              var d' := Next(w, d, move).dispatch;
              && d'.rec == d.rec
              && (InRemoval(d') && InRemoval(d) ==> FoundAlive(d') == FoundAlive(d))
              && (InRemoval(d') && !InRemoval(d) ==> Enters(w, d, d', move))
  {}

  // The end of a dispatch that returns true: a poll that finds the protocol running, or the end of
  // the removal after the protocol was found alive.
  ghost predicate Succeeds(s: State, c: NodeId, move: Move)
    requires c in s.dispatches && CanMove(s.world, s.dispatches[c], move)
  {
    Next(s.world, s.dispatches[c], move).Done? && (move.Poll? || (FoundAlive(s.dispatches[c]) && !move.Abort?))
  }

  /**
   A dispatch succeeds only if its target answers RUNNING at that moment, or if one of its probes
   has found the protocol leased at a node before.
   */
  lemma SuccessIsSeen(hash: string -> nat, states: seq<State>, steps: seq<Step>, c: NodeId, i: nat, j: nat, move: Move)
    returns (m: nat, a: string)
    requires IsRun(hash, states, steps) && j < |steps| && Busy(states, steps, c, i, j)
    requires steps[j] == Advance(c, move)
    requires c in states[j].dispatches && CanMove(states[j].world, states[j].dispatches[c], move)
    requires Succeeds(states[j], c, move)
    ensures var d, r := states[j].dispatches[c], steps[i].rec;
            || (move.Poll? && Running(states[j].world, d.target, r.ptype, r.id))
            || (i < m < j && SawAlive(states, steps, c, r, m, a))
  {
    m, a := 0, "";
    RecIsKept(hash, states, steps, c, i, j);
    if FoundAlive(states[j].dispatches[c]) {
      m, a := RemovalWasEarned(hash, states, steps, c, i, j);
    }
  }

  // ---------------------------------------------------------------- how a dispatch starts

  // The dispatch has a target: it is past the choice of one.
  predicate HasTarget(d: Dispatch) {
    !d.pc.Confirming? && !d.pc.Choosing?
  }

  lemma StepOfStart(hash: string -> nat, s: State, st: Step, c: NodeId)
    requires Enabled(hash, s, st) && c in s.dispatches && c in Apply(hash, s, st).dispatches
    ensures var d, d' := s.dispatches[c], Apply(hash, s, st).dispatches[c];
            && (d.pc.Confirming? && !d'.pc.Confirming? ==> st == Advance(c, Confirm) && d.rec !in s.world.store.leased)
            && (!d.pc.Confirming? ==> !d'.pc.Confirming?)
            && (HasTarget(d) ==> HasTarget(d') && d'.target == d.target)
            && (HasTarget(d') && !HasTarget(d) ==> st == Advance(c, Choose(d'.target)) && d'.target in s.world.store.up)
  {
    if st.Advance? && st.c == c {
      MoveOfStart(s.world, s.dispatches[c], st.move);
    }
  }

  lemma MoveOfStart(w: World, d: Dispatch, move: Move)
    requires CanMove(w, d, move) && Next(w, d, move).Continue?
    ensures var d' := Next(w, d, move).dispatch;
            && (d.pc.Confirming? && !d'.pc.Confirming? ==> move == Confirm && d.rec !in w.store.leased)
            && (!d.pc.Confirming? ==> !d'.pc.Confirming?)
            && (HasTarget(d) ==> HasTarget(d') && d'.target == d.target)
            && (HasTarget(d') && !HasTarget(d) ==> move == Choose(d'.target) && d'.target in w.store.up)
  {}

  /** A recover event dispatches a record only after it has found its liveness key absent. */
  lemma {:induction false} RecoveryConfirms(hash: string -> nat, states: seq<State>, steps: seq<Step>, c: NodeId,
                                            i: nat, j: nat)
    returns (m: nat)
    requires IsRun(hash, states, steps) && Busy(states, steps, c, i, j) && steps[i].recovering
    ensures !states[j].dispatches[c].pc.Confirming? ==>
              i < m < j && steps[m] == Advance(c, Confirm) && steps[i].rec !in states[m].world.store.leased
    decreases j
  {
    m := i;
    if j > i + 1 {
      assert c in states[j - 1].dispatches && c in states[j].dispatches;
      RecIsKept(hash, states, steps, c, i, j - 1);
      StepOfStart(hash, states[j - 1], steps[j - 1], c);
      m := RecoveryConfirms(hash, states, steps, c, i, j - 1);
      if states[j - 1].dispatches[c].pc.Confirming? {
        m := j - 1;
      }
    }
  }

  /** The target of a dispatch is one container all along, which was in the alive list when it was picked. */
  lemma {:induction false} TargetWasAlive(hash: string -> nat, states: seq<State>, steps: seq<Step>, c: NodeId,
                                          i: nat, j: nat)
    returns (m: nat)
    requires IsRun(hash, states, steps) && Busy(states, steps, c, i, j) && HasTarget(states[j].dispatches[c])
    ensures var target := states[j].dispatches[c].target;
            i < m < j && steps[m] == Advance(c, Choose(target)) && target in states[m].world.store.up
    decreases j
  {
    assert j > i + 1;
    assert c in states[j - 1].dispatches && c in states[j].dispatches;
    StepOfStart(hash, states[j - 1], steps[j - 1], c);
    if HasTarget(states[j - 1].dispatches[c]) {
      m := TargetWasAlive(hash, states, steps, c, i, j - 1);
    } else {
      m := j - 1;
    }
  }
}
