/**
 Recovery among everything else that happens. Once an address has no process and no liveness key,
 its records only leave etcd through the removals of dispatches, one at a time, and nothing comes
 back until a container boots there. From a healthy state recovery can always be brought to its end.
 */
module Stranding {
  import opened Wrappers
  import opened Store
  import opened View
  import opened Selection
  import opened Cluster
  import opened Durability
  import opened Events
  import opened Calls
  import opened Recovery
  import opened Paths
  import opened Simulation

  // Nothing runs and nothing is live at the address, or at one that starts with it.
  ghost predicate Dead(w: World, a: string) {
    && (forall b :: b in w.processes ==> !(a <= b))
    && (forall r :: r in w.store.leased ==> !(a <= r.addr))
  }

  ghost function StrandedAt(s: State, a: string): set<ProtocolInfo> {
    StrandedSet(SiteOf(s), a)
  }

  ghost predicate BootsAt(st: Step, a: string) {
    st.Container? && st.act.Boot? && a <= st.act.addr
  }

  // The record that the step removes because a dispatch has placed its protocol elsewhere.
  ghost function Taken(s: State, st: Step): set<ProtocolInfo> {
    match st
    case Advance(c, Remove) =>
      if c in s.dispatches && s.dispatches[c].target != s.dispatches[c].rec.addr then {s.dispatches[c].rec} else {}
    case _ => {}
  }

  // ---------------------------------------------------------------- one step

  lemma ActKeepsDead(w: World, act: Act, a: string)
    requires TasksBelong(w) && Dead(w, a) && CanAct(w, act) && !BootsAt(Container(act), a)
    ensures Dead(Perform(w, act), a)
  {
    if act.DeployStep? {
      assert DeployBelongs(w, act.k, w.deploys[act.k]);
    }
  }

  lemma NobodyThere(s: State, st: Step, a: string, r: ProtocolInfo)
    requires TasksBelong(s.world) && Dead(s.world, a) && a <= r.addr
    ensures !PutsRecord(s, st, r)
    ensures DeletesRecord(s, st, r) <==> r in Taken(s, st)
  {
    assert forall k :: k in s.world.deploys ==> DeployBelongs(s.world, k, s.world.deploys[k]);
    assert forall k :: k in s.world.undeploys ==> UndeployBelongs(s.world, k, s.world.undeploys[k]);
  }

  /** A step other than a boot there leaves the address dead, and takes at most the dispatched record. */
  lemma StepOnStranded(hash: string -> nat, s: State, st: Step, a: string)
    requires TasksBelong(s.world) && Dead(s.world, a) && Enabled(hash, s, st) && !BootsAt(st, a)
    ensures Dead(Apply(hash, s, st).world, a)
    ensures StrandedAt(Apply(hash, s, st), a) == StrandedAt(s, a) - Taken(s, st)
  {
    var s' := Apply(hash, s, st);
    match st {
      case Container(act) => ActKeepsDead(s.world, act, a);
      case Advance(c, move) => assert Effect(s.world, s.dispatches[c], move).store.leased == s.world.store.leased;
      case _ =>
    }
    forall r: ProtocolInfo | a <= r.addr
      ensures r in s'.world.store.records <==> r in s.world.store.records && r !in Taken(s, st)
    {
      RecordAfterStep(hash, s, st, r);
      NobodyThere(s, st, a, r);
    }
  }

  // ---------------------------------------------------------------- runs

  // How many of the steps i to j - 1 take a stranded record of the address.
  ghost function Takings(states: seq<State>, steps: seq<Step>, a: string, i: nat, j: nat): nat
    requires j <= |steps| < |states|
    decreases j
  {
    if j <= i then 0
    else Takings(states, steps, a, i, j - 1)
         + (if Taken(states[j - 1], steps[j - 1]) * StrandedAt(states[j - 1], a) != {} then 1 else 0)
  }

  lemma TakenIsOne(s: State, st: Step, stranded: set<ProtocolInfo>)
    ensures |stranded - Taken(s, st)| + (if Taken(s, st) * stranded != {} then 1 else 0) == |stranded|
  {
    if Taken(s, st) * stranded != {} {
      var r :| r in Taken(s, st) * stranded;
      assert Taken(s, st) == {r} && stranded == (stranded - {r}) + {r};
    } else {
      assert stranded - Taken(s, st) == stranded;
    }
  }

  /**
   Once an address is dead and until something boots there, in every interleaving: it stays dead, no
   record is added, and each record that goes is taken by a dispatch. So the records still there and
   the takings together are always as many as at the start.
   */
  lemma {:induction false} StrandedAreOnlyTaken(hash: string -> nat, states: seq<State>, steps: seq<Step>, a: string,
                                                i: nat, j: nat)
    requires IsRun(hash, states, steps) && i <= j <= |steps| && Dead(states[i].world, a)
    requires forall m {:trigger steps[m]} :: i <= m < j ==> !BootsAt(steps[m], a)
    ensures Dead(states[j].world, a) && StrandedAt(states[j], a) <= StrandedAt(states[i], a)
    ensures |StrandedAt(states[j], a)| + Takings(states, steps, a, i, j) == |StrandedAt(states[i], a)|
    decreases j
  {
    if i < j {
      StrandedAreOnlyTaken(hash, states, steps, a, i, j - 1);
      RunKeepsInv(hash, states, steps, j - 1);
      StepOnStranded(hash, states[j - 1], steps[j - 1], a);
      TakenIsOne(states[j - 1], steps[j - 1], StrandedAt(states[j - 1], a));
    }
  }

  /**
   A coordinator that is alone in its view deletes the recover key of a dead address only when nothing
   is stranded there, and until something boots there nothing is stranded there ever after.
   */
  lemma KeyGoneMeansDone(hash: string -> nat, states: seq<State>, steps: seq<Step>, self: NodeInfo, a: string,
                         kvs: seq<ProtocolInfo>, i: nat, j: nat)
    requires IsRun(hash, states, steps) && i < j <= |steps| && Dead(states[i].world, a)
    requires steps[i] == GiveUp(self.Id(), a, kvs) && states[i].views[self.Id()] == [self]
    requires forall m {:trigger steps[m]} :: i <= m < j ==> !BootsAt(steps[m], a)
    ensures StrandedAt(states[j], a) == {}
  {
    AloneTakesTheFirst(self, hash, kvs, states[i].world.store);
    ScanFindsStranded(kvs, SiteOf(states[i]), a);
    StrandedAreOnlyTaken(hash, states, steps, a, i, j);
  }

  // ---------------------------------------------------------------- recovery can finish

  lemma {:induction false} SomeSequence(s: set<ProtocolInfo>) returns (kvs: seq<ProtocolInfo>)
    ensures forall r :: r in kvs <==> r in s
  {
    if s == {} {
      kvs := [];
    } else {
      var r :| r in s;
      var rest := SomeSequence(s - {r});
      kvs := [r] + rest;
    }
  }

  lemma SomeScan(store: Store, a: string) returns (kvs: seq<ProtocolInfo>)
    ensures IsScan(kvs, store, a)
  {
    kvs := SomeSequence(set r | r in store.records && a <= r.addr);
  }

  // One event handled without interference.
  lemma OneEventRuns(hash: string -> nat, s: State, self: NodeInfo, a: string) returns (s': State)
    requires self.Id() in s.views && s.views[self.Id()] == [self] && self.Id() !in s.dispatches
    requires Healthy(SiteOf(s), a) && s.world.store.up != map[] && a in s.world.store.recover
    ensures Reaches(hash, Any(), s, s') && s'.views == s.views && self.Id() !in s'.dispatches
    ensures Healthy(SiteOf(s'), a) && s'.world.store.up == s.world.store.up
    ensures if StrandedAt(s, a) == {} then a !in s'.world.store.recover && StrandedAt(s', a) == {}
            else a in s'.world.store.recover && StrandedAt(s', a) < StrandedAt(s, a)
    ensures forall r :: r in s.world.store.leased ==> r in s'.world.store.leased
    ensures forall r :: r in StrandedAt(s, a) && r !in StrandedAt(s', a) ==> AlreadyAlive(SiteOf(s'), r)
  {
    var kvs := SomeScan(s.world.store, a);
    var target :| target in s.world.store.up;
    forall r | r in kvs && r !in s.world.store.leased
      ensures ':' in r.id
    {
      assert r in StrandedAt(s, a);
    }
    s' := RecoverEventRuns(hash, s, self.Id(), a, kvs, target);
    OneRound(self, hash, SiteOf(s), a, Input(kvs, target));
    assert SiteOf(s') == Round(self, hash, SiteOf(s), a, Input(kvs, target)).0;
  }

  /**
   In the machine, too, recovery can be brought to its end: from any state in which a coordinator
   that is alone in its view is idle, some container is alive and the cluster is healthy, there is
   a run after which nothing is stranded, the recover key is gone, and every record that was
   stranded has its protocol live at a node of the alive list.
   */
  lemma {:induction false} RecoveryCanFinish(hash: string -> nat, s: State, self: NodeInfo, a: string)
    returns (end: State)
    requires self.Id() in s.views && s.views[self.Id()] == [self] && self.Id() !in s.dispatches
    requires Healthy(SiteOf(s), a) && s.world.store.up != map[] && a in s.world.store.recover
    ensures Reaches(hash, Any(), s, end) && end.world.store.up == s.world.store.up
    ensures StrandedAt(end, a) == {} && a !in end.world.store.recover
    ensures forall r :: r in s.world.store.leased ==> r in end.world.store.leased
    ensures forall r :: r in StrandedAt(s, a) ==> AlreadyAlive(SiteOf(end), r)
    decreases StrandedAt(s, a)
  {
    var s1 := OneEventRuns(hash, s, self, a);
    if StrandedAt(s, a) == {} {
      end := s1;
    } else {
      end := RecoveryCanFinish(hash, s1, self, a);
      Reached(hash, Any(), s, s1, end);
      forall r | r in StrandedAt(s, a)
        ensures AlreadyAlive(SiteOf(end), r)
      {
        if r !in StrandedAt(s1, a) {
          StillAlive(SiteOf(s1), SiteOf(end), r);
        }
      }
    }
  }

  lemma StillAlive(s: Site, s': Site, r: ProtocolInfo)
    requires AlreadyAlive(s, r) && s'.store.up == s.store.up
    requires forall q :: q in s.store.leased ==> q in s'.store.leased
    ensures AlreadyAlive(s', r)
  {
    var w :| w in s.store.up && LeasedAt(s, r, w);
    assert LeasedAt(s', r, w);
  }
}
