/**
 Migration preserves meaning: whatever dispatches carry a protocol over however many hops, it is
 deployed with the type, device group and device list it was last deployed with.

 What a dispatch sends is the record's type and the detail of the last info record put, in every run
 (`SendsTheLastDetail`), and everything that is ever recorded, sent or running is some user's
 (`NothingIsInvented`). The stored detail stays that of the last completed deploy exactly if no
 request under way can still put another (`StoredDetailStaysIff`).
 */
module Migration {
  import opened Store
  import opened View
  import opened Cluster
  import opened Durability
  import opened Paths

  // ---------------------------------------------------------------- the last detail

  // The step puts the info record of the id.
  ghost predicate PutsInfo(s: State, st: Step, id: string) {
    && st.Container? && st.act.DeployStep? && st.act.k in s.world.deploys
    && s.world.deploys[st.act.k].pc.PuttingInfo? && s.world.deploys[st.act.k].id == id
  }

  lemma OnlyPutsSetInfo(hash: string -> nat, s: State, st: Step, id: string)
    requires Enabled(hash, s, st)
    ensures var infos, infos' := s.world.store.infos, Apply(hash, s, st).world.store.infos;
            if PutsInfo(s, st, id) then id in infos' && infos'[id] == s.world.deploys[st.act.k].detail
            else (id in infos' <==> id in infos) && (id in infos ==> infos'[id] == infos[id])
  {
    match st {
      case Container(act) => OnlyPutsSetInfoAct(s.world, act, id);
      case Advance(c, move) => assert Effect(s.world, s.dispatches[c], move).store.infos == s.world.store.infos;
      case _ =>
    }
  }

  lemma OnlyPutsSetInfoAct(w: World, act: Act, id: string)
    requires CanAct(w, act)
    ensures var infos' := Perform(w, act).store.infos;
            if act.DeployStep? && w.deploys[act.k].pc.PuttingInfo? && w.deploys[act.k].id == id
            then id in infos' && infos'[id] == w.deploys[act.k].detail
            else (id in infos' <==> id in w.store.infos) && (id in infos' ==> infos'[id] == w.store.infos[id])
  {}

  // Step m is the last of the first n that puts the info record.
  ghost predicate IsLastPut(states: seq<State>, steps: seq<Step>, id: string, m: nat, n: nat)
    requires n <= |steps| < |states|
  {
    && m < n && PutsInfo(states[m], steps[m], id)
    && forall l {:trigger steps[l]} :: m < l < n ==> !PutsInfo(states[l], steps[l], id)
  }

  lemma LastPutStays(states: seq<State>, steps: seq<Step>, id: string, m: nat, n: nat)
    requires 0 < n <= |steps| < |states| && IsLastPut(states, steps, id, m, n - 1)
    requires !PutsInfo(states[n - 1], steps[n - 1], id)
    ensures IsLastPut(states, steps, id, m, n)
  {}

  /** The stored detail of an id is, in every run, that of the last deploy whose info was put. */
  lemma {:induction false} InfoIsTheLastPut(hash: string -> nat, states: seq<State>, steps: seq<Step>, n: nat,
                                            id: string)
    returns (m: nat)
    requires IsRun(hash, states, steps) && n <= |steps| && id in states[n].world.store.infos
    ensures IsLastPut(states, steps, id, m, n)
    ensures states[n].world.store.infos[id] == states[m].world.deploys[steps[m].act.k].detail
  {
    assert n > 0;
    var s, st := states[n - 1], steps[n - 1];
    OnlyPutsSetInfo(hash, s, st, id);
    if PutsInfo(s, st, id) {
      return n - 1;
    }
    m := InfoIsTheLastPut(hash, states, steps, n - 1, id);
    LastPutStays(states, steps, id, m, n);
  }

  /**
   What a dispatch asks its target to deploy, in every run: the id and type of the record, under
   the detail that was put last.
   */
  lemma SendsTheLastDetail(hash: string -> nat, states: seq<State>, steps: seq<Step>, n: nat, c: NodeId)
    returns (m: nat)
    requires IsRun(hash, states, steps) && n < |steps| && steps[n] == Advance(c, Redeploy)
    ensures var d, w := states[n].dispatches[c], states[n].world;
            && IsLastPut(states, steps, d.rec.id, m, n)
            && states[n + 1].world.deploys ==
               w.deploys[w.nextTask := DeployTask(d.target, w.processes[d.target].lease, d.rec.ptype, d.rec.id,
                                                  states[m].world.deploys[steps[m].act.k].detail, LookingUp)]
  {
    m := InfoIsTheLastPut(hash, states, steps, n, states[n].dispatches[c].rec.id);
  }

  // ---------------------------------------------------------------- nothing is invented

  // The types and the details that users' requests have named.
  ghost function TypesAsked(steps: seq<Step>): set<(string, string)> {
    set i | 0 <= i < |steps| && steps[i].Container? && steps[i].act.UserDeploy? ::
      (steps[i].act.id, steps[i].act.ptype)
  }

  ghost function DetailsAsked(steps: seq<Step>): set<(string, Detail)> {
    set i | 0 <= i < |steps| && steps[i].Container? && steps[i].act.UserDeploy? ::
      (steps[i].act.id, steps[i].act.detail)
  }

  ghost predicate WorldIsKnown(w: World, types: set<(string, string)>, details: set<(string, Detail)>) {
    && (forall r :: r in w.store.records ==> (r.id, r.ptype) in types)
    && (forall id :: id in w.store.infos ==> (id, w.store.infos[id]) in details)
    && (forall k :: k in w.deploys ==>
          (w.deploys[k].id, w.deploys[k].ptype) in types && (w.deploys[k].id, w.deploys[k].detail) in details)
    && (forall a, id :: a in w.processes && id in w.processes[a].manager ==>
          && (id, w.processes[a].manager[id].ptype) in types
          && (id, w.processes[a].manager[id].detail) in details)
  }

  ghost predicate IsKnown(s: State, types: set<(string, string)>, details: set<(string, Detail)>) {
    && WorldIsKnown(s.world, types, details)
    && forall c :: c in s.dispatches ==> (s.dispatches[c].rec.id, s.dispatches[c].rec.ptype) in types
  }

  lemma ActIsKnown(w: World, act: Act, types: set<(string, string)>, details: set<(string, Detail)>)
    requires CanAct(w, act) && WorldIsKnown(w, types, details)
    requires act.UserDeploy? ==> (act.id, act.ptype) in types && (act.id, act.detail) in details
    ensures WorldIsKnown(Perform(w, act), types, details)
  {
    if act.DeployStep? {
      DeployStepIsKnown(w, act.k, types, details);
    } else if act.Boot? || act.Announce? || act.Subscribe? || act.Crash? || act.ExpireLease? {
      assert Perform(w, act).store.records == w.store.records && Perform(w, act).store.infos == w.store.infos;
    } else {
      assert Perform(w, act).processes == w.processes;
    }
  }

  lemma DeployStepIsKnown(w: World, k: nat, types: set<(string, string)>, details: set<(string, Detail)>)
    requires CanAct(w, DeployStep(k)) && WorldIsKnown(w, types, details)
    ensures WorldIsKnown(NextDeploy(w, k), types, details)
  {}

  lemma EffectIsKnown(w: World, d: Dispatch, move: Move, types: set<(string, string)>, details: set<(string, Detail)>)
    requires CanMove(w, d, move) && WorldIsKnown(w, types, details) && (d.rec.id, d.rec.ptype) in types
    ensures WorldIsKnown(Effect(w, d, move), types, details)
  {}

  lemma StepIsKnown(hash: string -> nat, s: State, st: Step, types: set<(string, string)>,
                    details: set<(string, Detail)>)
    requires Enabled(hash, s, st) && IsKnown(s, types, details)
    requires st.Container? && st.act.UserDeploy? ==>
               (st.act.id, st.act.ptype) in types && (st.act.id, st.act.detail) in details
    ensures IsKnown(Apply(hash, s, st), types, details)
  {
    match st {
      case Container(act) => ActIsKnown(s.world, act, types, details);
      case Advance(c, move) =>
        EffectIsKnown(s.world, s.dispatches[c], move, types, details);
        MoveKeepsRecord(s.world, s.dispatches[c], move);
      case _ =>
    }
  }

  /**
   Nothing is invented: in every reachable state, each type and each device list that is recorded,
   in transit or running under an id is one that a user asked for under that very id.
   */
  lemma {:induction false} NothingIsInvented(hash: string -> nat, states: seq<State>, steps: seq<Step>, n: nat)
    requires IsRun(hash, states, steps) && n <= |steps|
    ensures IsKnown(states[n], TypesAsked(steps[..n]), DetailsAsked(steps[..n]))
  {
    if n > 0 {
      NothingIsInvented(hash, states, steps, n - 1);
      var before, after, st := steps[..n - 1], steps[..n], steps[n - 1];
      assert forall i :: 0 <= i < n - 1 ==> before[i] == after[i];
      assert TypesAsked(before) <= TypesAsked(after) && DetailsAsked(before) <= DetailsAsked(after);
      assert after[n - 1] == st;
      StepIsKnown(hash, states[n - 1], st, TypesAsked(after), DetailsAsked(after));
    }
  }

  // ---------------------------------------------------------------- when the stored detail stays

  // The request can still put its info record: it has not done so yet, and its process neither has
  // the id already nor lacks the type.
  ghost predicate CanPut(w: World, t: DeployTask) {
    || t.pc.PuttingRecord? || t.pc.PuttingInfo?
    || (t.pc.LookingUp? && t.addr in w.processes && t.id !in w.processes[t.addr].manager
        && t.ptype in w.processes[t.addr].types)
  }

  // The detail is stored, and no request under way can put another. Processes that were given
  // another one before may live on; what they hold does not flow back.
  ghost predicate Settled(w: World, id: string, d: Detail) {
    && id in w.store.infos && w.store.infos[id] == d
    && forall k :: k in w.deploys && w.deploys[k].id == id && CanPut(w, w.deploys[k]) ==> w.deploys[k].detail == d
  }

  // No user deploys the id with another detail.
  ghost predicate Consistent(st: Step, id: string, d: Detail) {
    match st
    case Container(UserDeploy(_, _, id', d')) => id' == id ==> d' == d
    case _ => true
  }

  ghost function ConsistentWith(id: string, d: Detail): Condition {
    (s: State, st: Step) => Consistent(st, id, d)
  }

  lemma DeployStepKeepsSettled(w: World, k: nat, id: string, d: Detail)
    requires Settled(w, id, d) && CanAct(w, DeployStep(k))
    ensures Settled(NextDeploy(w, k), id, d)
  {
    var w' := NextDeploy(w, k);
    forall j | j in w'.deploys && w'.deploys[j].id == id && CanPut(w', w'.deploys[j])
      ensures w'.deploys[j].detail == d
    {
      assert CanPut(w, w.deploys[j]);
    }
  }

  lemma ActKeepsSettled(w: World, act: Act, id: string, d: Detail)
    requires TasksBelong(w) && Settled(w, id, d) && CanAct(w, act) && Consistent(Container(act), id, d)
    ensures Settled(Perform(w, act), id, d)
  {
    if act.DeployStep? {
      DeployStepKeepsSettled(w, act.k, id, d);
    } else {
      var w' := Perform(w, act);
      forall j | j in w'.deploys && w'.deploys[j].id == id && CanPut(w', w'.deploys[j])
        ensures w'.deploys[j].detail == d
      {
        assert j in w.deploys ==> DeployBelongs(w, j, w.deploys[j]);
        assert j in w.deploys ==> CanPut(w, w.deploys[j]);
      }
    }
  }

  lemma EffectKeepsSettled(w: World, e: Dispatch, move: Move, id: string, d: Detail)
    requires Settled(w, id, d) && CanMove(w, e, move)
    ensures Settled(Effect(w, e, move), id, d)
  {}

  lemma StepKeepsSettled(hash: string -> nat, s: State, st: Step, id: string, d: Detail)
    requires TasksBelong(s.world) && Settled(s.world, id, d) && Enabled(hash, s, st) && Consistent(st, id, d)
    ensures Settled(Apply(hash, s, st).world, id, d)
  {
    match st {
      case Container(act) => ActKeepsSettled(s.world, act, id, d);
      case Advance(c, move) => EffectKeepsSettled(s.world, s.dispatches[c], move, id, d);
      case _ =>
    }
  }

  lemma {:induction false} PathKeepsSettled(hash: string -> nat, states: seq<State>, steps: seq<Step>, id: string,
                                            d: Detail, n: nat)
    requires IsPath(hash, ConsistentWith(id, d), states, steps) && n <= |steps|
    requires Inv(states[0].world) && Settled(states[0].world, id, d)
    ensures Inv(states[n].world) && Settled(states[n].world, id, d)
  {
    if n > 0 {
      PathKeepsSettled(hash, states, steps, id, d, n - 1);
      StepKeepsInv(hash, states[n - 1], steps[n - 1]);
      StepKeepsSettled(hash, states[n - 1], steps[n - 1], id, d);
    }
  }

  // ---------------------------------------------------------------- how it is upset

  lemma ActsOn(hash: string -> nat, id: string, d: Detail, s0: State, s: State, act: Act)
    requires Reaches(hash, ConsistentWith(id, d), s0, s) && CanAct(s.world, act) && !act.UserDeploy?
    ensures Reaches(hash, ConsistentWith(id, d), s0, s.(world := Perform(s.world, act)))
  {
    Then(hash, ConsistentWith(id, d), s0, s, Container(act));
  }

  // The process of the request comes to be subscribed.
  lemma GetsReady(hash: string -> nat, id: string, d: Detail, s: State, a: string) returns (u: State)
    requires a in s.world.processes
    ensures Reaches(hash, ConsistentWith(id, d), s, u)
    ensures u.world.deploys == s.world.deploys && a in u.world.processes
    ensures u.world.processes[a] == s.world.processes[a].(phase := Ready)
  {
    Stay(hash, ConsistentWith(id, d), s);
    u := s;
    if u.world.processes[a].phase.Granted? {
      ActsOn(hash, id, d, s, u, Announce(a));
      u := u.(world := Perform(u.world, Announce(a)));
    }
    if u.world.processes[a].phase.Announced? {
      ActsOn(hash, id, d, s, u, Subscribe(a));
      u := u.(world := Perform(u.world, Subscribe(a)));
    }
  }

  // A request in its puts completes that of the info record.
  lemma PutsItsInfo(hash: string -> nat, id: string, d: Detail, s: State, k: nat) returns (u: State)
    requires k in s.world.deploys && s.world.deploys[k].addr in s.world.processes
    requires s.world.deploys[k].pc.PuttingRecord? || s.world.deploys[k].pc.PuttingInfo?
    ensures Reaches(hash, ConsistentWith(id, d), s, u)
    ensures var t := s.world.deploys[k]; t.id in u.world.store.infos && u.world.store.infos[t.id] == t.detail
  {
    Stay(hash, ConsistentWith(id, d), s);
    u := s;
    if u.world.deploys[k].pc.PuttingRecord? {
      ActsOn(hash, id, d, s, u, DeployStep(k));
      u := u.(world := NextDeploy(u.world, k));
    }
    ActsOn(hash, id, d, s, u, DeployStep(k));
    u := u.(world := NextDeploy(u.world, k));
  }

  // Without any further user request, a request that can put its info record may come to do so.
  lemma PutsInTheEnd(hash: string -> nat, id: string, d: Detail, s: State, k: nat) returns (u: State)
    requires TasksBelong(s.world) && k in s.world.deploys && CanPut(s.world, s.world.deploys[k])
    ensures Reaches(hash, ConsistentWith(id, d), s, u)
    ensures var t := s.world.deploys[k]; t.id in u.world.store.infos && u.world.store.infos[t.id] == t.detail
  {
    var t, ok := s.world.deploys[k], ConsistentWith(id, d);
    assert DeployBelongs(s.world, k, t);
    if t.pc.LookingUp? {
      var s1 := GetsReady(hash, id, d, s, t.addr);
      ActsOn(hash, id, d, s, s1, DeployStep(k));
      var s2 := s1.(world := NextDeploy(s1.world, k));
      u := PutsItsInfo(hash, id, d, s2, k);
      Reached(hash, ok, s, s2, u);
    } else {
      u := PutsItsInfo(hash, id, d, s, k);
    }
  }

  /**
   When the stored detail stays what it is: in every state that can be reached without a user
   deploying the id with another detail, it is `d`, exactly if it is now and no request under way
   that can still put its info record carries another.
   */
  lemma StoredDetailStaysIff(hash: string -> nat, s: State, id: string, d: Detail)
    requires Inv(s.world)
    ensures Settled(s.world, id, d) <==>
            forall u :: Reaches(hash, ConsistentWith(id, d), s, u) ==>
              id in u.world.store.infos && u.world.store.infos[id] == d
  {
    var ok := ConsistentWith(id, d);
    if Settled(s.world, id, d) {
      forall u | Reaches(hash, ok, s, u)
        ensures id in u.world.store.infos && u.world.store.infos[id] == d
      {
        var states, steps :| IsPath(hash, ok, states, steps) && states[0] == s && states[|steps|] == u;
        PathKeepsSettled(hash, states, steps, id, d, |steps|);
      }
    } else {
      Stay(hash, ok, s);
      if k :| k in s.world.deploys && s.world.deploys[k].id == id && CanPut(s.world, s.world.deploys[k])
              && s.world.deploys[k].detail != d {
        var u := PutsInTheEnd(hash, id, d, s, k);
        assert u.world.store.infos[id] != d;
      }
    }
  }

  // ---------------------------------------------------------------- the meaning of a protocol

  /** Over any number of hops: once settled, the detail stays so while no user deploys another. */
  lemma {:induction false} MigrationKeepsMeaning(hash: string -> nat, states: seq<State>, steps: seq<Step>,
                                                 id: string, d: Detail, i: nat, j: nat)
    requires IsRun(hash, states, steps) && i <= j <= |steps| && Settled(states[i].world, id, d)
    requires forall m {:trigger steps[m]} :: i <= m < j ==> Consistent(steps[m], id, d)
    ensures Settled(states[j].world, id, d)
    decreases j - i
  {
    if i < j {
      MigrationKeepsMeaning(hash, states, steps, id, d, i, j - 1);
      RunKeepsInv(hash, states, steps, j - 1);
      StepKeepsSettled(hash, states[j - 1], steps[j - 1], id, d);
    }
  }

  /** So the request of any later hop is for the id and type of its record, with exactly that detail. */
  lemma RedeployRequestMeaning(hash: string -> nat, states: seq<State>, steps: seq<Step>, id: string, d: Detail,
                               i: nat, j: nat, c: NodeId)
    requires IsRun(hash, states, steps) && i <= j < |steps| && Settled(states[i].world, id, d)
    requires forall m {:trigger steps[m]} :: i <= m < j ==> Consistent(steps[m], id, d)
    requires steps[j] == Advance(c, Redeploy) && states[j].dispatches[c].rec.id == id
    ensures var e, w := states[j].dispatches[c], states[j].world;
            states[j + 1].world.deploys ==
            w.deploys[w.nextTask := DeployTask(e.target, w.processes[e.target].lease, e.rec.ptype, id, d, LookingUp)]
  {
    MigrationKeepsMeaning(hash, states, steps, id, d, i, j);
  }

  // The types under which the id is recorded, being recorded or being dispatched.
  ghost predicate TypesWithin(s: State, id: string, types: set<string>) {
    && (forall r :: r in s.world.store.records && r.id == id ==> r.ptype in types)
    && (forall k :: k in s.world.deploys && s.world.deploys[k].id == id && CanPut(s.world, s.world.deploys[k]) ==>
          s.world.deploys[k].ptype in types)
    && (forall c :: c in s.dispatches && s.dispatches[c].rec.id == id ==> s.dispatches[c].rec.ptype in types)
  }

  lemma DeployStepKeepsTypes(s: State, k: nat, id: string, types: set<string>)
    requires TypesWithin(s, id, types) && CanAct(s.world, DeployStep(k))
    ensures TypesWithin(s.(world := NextDeploy(s.world, k)), id, types)
  {
    var w, w' := s.world, NextDeploy(s.world, k);
    forall j | j in w'.deploys && w'.deploys[j].id == id && CanPut(w', w'.deploys[j])
      ensures w'.deploys[j].ptype in types
    {
      assert CanPut(w, w.deploys[j]);
    }
  }

  lemma ActKeepsTypes(s: State, act: Act, id: string, types: set<string>)
    requires TasksBelong(s.world) && TypesWithin(s, id, types) && CanAct(s.world, act)
    requires act.UserDeploy? && act.id == id ==> act.ptype in types
    ensures TypesWithin(s.(world := Perform(s.world, act)), id, types)
  {
    if act.DeployStep? {
      DeployStepKeepsTypes(s, act.k, id, types);
    } else {
      var w, w' := s.world, Perform(s.world, act);
      assert w'.store.records <= w.store.records;
      forall j | j in w'.deploys && w'.deploys[j].id == id && CanPut(w', w'.deploys[j])
        ensures w'.deploys[j].ptype in types
      {
        assert j in w.deploys ==> DeployBelongs(w, j, w.deploys[j]);
        assert j in w.deploys ==> CanPut(w, w.deploys[j]);
      }
    }
  }

  lemma EffectKeepsTypes(s: State, e: Dispatch, move: Move, id: string, types: set<string>)
    requires TypesWithin(s, id, types) && CanMove(s.world, e, move) && (e.rec.id == id ==> e.rec.ptype in types)
    ensures TypesWithin(s.(world := Effect(s.world, e, move)), id, types)
  {}

  lemma StepKeepsTypes(hash: string -> nat, s: State, st: Step, id: string, types: set<string>)
    requires TasksBelong(s.world) && TypesWithin(s, id, types) && Enabled(hash, s, st)
    requires st.Container? && st.act.UserDeploy? && st.act.id == id ==> st.act.ptype in types
    ensures TypesWithin(Apply(hash, s, st), id, types)
  {
    match st {
      case Container(act) => ActKeepsTypes(s, act, id, types);
      case Advance(c, move) =>
        EffectKeepsTypes(s, s.dispatches[c], move, id, types);
        MoveKeepsRecord(s.world, s.dispatches[c], move);
      case _ =>
    }
  }

  /** No hop brings in a type: the types of an id stay among those it has and those users ask for. */
  lemma {:induction false} MigrationKeepsTypes(hash: string -> nat, states: seq<State>, steps: seq<Step>, id: string,
                                               types: set<string>, i: nat, j: nat)
    requires IsRun(hash, states, steps) && i <= j <= |steps| && TypesWithin(states[i], id, types)
    requires forall m {:trigger steps[m]} :: i <= m < j ==>
               (steps[m].Container? && steps[m].act.UserDeploy? && steps[m].act.id == id ==>
                steps[m].act.ptype in types)
    ensures TypesWithin(states[j], id, types)
    decreases j - i
  {
    if i < j {
      MigrationKeepsTypes(hash, states, steps, id, types, i, j - 1);
      RunKeepsInv(hash, states, steps, j - 1);
      StepKeepsTypes(hash, states[j - 1], steps[j - 1], id, types);
    }
  }
}
