/**
 Finite runs of the machine in `Cluster` from any state, all of whose steps meet a condition.
 */
module Paths {
  import opened Cluster

  type Condition = (State, Step) -> bool

  ghost function Any(): Condition {
    (s: State, st: Step) => true
  }

  ghost predicate IsPath(hash: string -> nat, ok: Condition, states: seq<State>, steps: seq<Step>) {
    && |states| == |steps| + 1
    && forall i {:trigger steps[i]} :: 0 <= i < |steps| ==>
         && Enabled(hash, states[i], steps[i]) && ok(states[i], steps[i])
         && states[i + 1] == Apply(hash, states[i], steps[i])
  }

  ghost predicate Reaches(hash: string -> nat, ok: Condition, s: State, t: State) {
    exists states, steps :: IsPath(hash, ok, states, steps) && states[0] == s && states[|steps|] == t
  }

  lemma Stay(hash: string -> nat, ok: Condition, s: State)
    ensures Reaches(hash, ok, s, s)
  {
    assert IsPath(hash, ok, [s], []);
    assert [s][0] == s;
  }

  lemma Then(hash: string -> nat, ok: Condition, s: State, t: State, st: Step)
    requires Reaches(hash, ok, s, t) && Enabled(hash, t, st) && ok(t, st)
    ensures Reaches(hash, ok, s, Apply(hash, t, st))
  {
    var states, steps :| IsPath(hash, ok, states, steps) && states[0] == s && states[|steps|] == t;
    var states', steps' := states + [Apply(hash, t, st)], steps + [st];
    forall i {:trigger steps'[i]} | 0 <= i < |steps'|
      ensures Enabled(hash, states'[i], steps'[i]) && ok(states'[i], steps'[i])
      ensures states'[i + 1] == Apply(hash, states'[i], steps'[i])
    {
      if i < |steps| {
        assert steps'[i] == steps[i];
      }
    }
    assert IsPath(hash, ok, states', steps') && states'[0] == s && states'[|steps'|] == Apply(hash, t, st);
  }

  lemma JoinedAt(hash: string -> nat, ok: Condition, xs: seq<State>, ps: seq<Step>, ys: seq<State>, qs: seq<Step>,
                 i: nat)
    requires IsPath(hash, ok, xs, ps) && IsPath(hash, ok, ys, qs) && xs[|ps|] == ys[0] && i < |ps| + |qs|
    ensures var zs, rs := xs + ys[1..], ps + qs;
            Enabled(hash, zs[i], rs[i]) && ok(zs[i], rs[i]) && zs[i + 1] == Apply(hash, zs[i], rs[i])
  {}

  lemma Reached(hash: string -> nat, ok: Condition, s: State, t: State, u: State)
    requires Reaches(hash, ok, s, t) && Reaches(hash, ok, t, u)
    ensures Reaches(hash, ok, s, u)
  {
    var xs, ps :| IsPath(hash, ok, xs, ps) && xs[0] == s && xs[|ps|] == t;
    var ys, qs :| IsPath(hash, ok, ys, qs) && ys[0] == t && ys[|qs|] == u;
    var zs, rs := xs + ys[1..], ps + qs;
    forall i {:trigger rs[i]} | 0 <= i < |rs|
      ensures Enabled(hash, zs[i], rs[i]) && ok(zs[i], rs[i]) && zs[i + 1] == Apply(hash, zs[i], rs[i])
    {
      JoinedAt(hash, ok, xs, ps, ys, qs, i);
    }
    assert zs[|rs|] == u;
    assert IsPath(hash, ok, zs, rs) && zs[0] == s && zs[|rs|] == u;
  }

  // A path from an initial state is a run.
  lemma ARun(hash: string -> nat, ok: Condition, s: State, t: State) returns (states: seq<State>, steps: seq<Step>)
    requires Init(s) && Reaches(hash, ok, s, t)
    ensures IsRun(hash, states, steps) && states[0] == s && states[|steps|] == t
    ensures forall i {:trigger steps[i]} :: 0 <= i < |steps| ==> ok(states[i], steps[i])
  {
    states, steps :| IsPath(hash, ok, states, steps) && states[0] == s && states[|steps|] == t;
  }
}
