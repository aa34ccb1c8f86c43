/**
 A lease belongs to one address: whatever is ever held under it, a process, a liveness key or a
 deploy request, is held there.
 */
module Leases {
  import opened Store
  import opened View
  import opened Cluster

  // Everything held under a lease is held at a home of it.
  ghost predicate IsHome(w: World, homes: set<(nat, string)>) {
    && (forall a :: a in w.processes ==> (w.processes[a].lease, a) in homes)
    && (forall r :: r in w.store.leased ==> (w.store.leased[r], r.addr) in homes)
    && (forall k :: k in w.deploys ==> (w.deploys[k].lease, w.deploys[k].addr) in homes)
  }

  // A lease has one home, and the next lease has none yet.
  ghost predicate OneHome(homes: set<(nat, string)>, next: nat) {
    && (forall h :: h in homes ==> h.0 < next)
    && (forall g, h :: g in homes && h in homes && g.0 == h.0 ==> g.1 == h.1)
  }

  // The leases granted in the first n steps, with the addresses of their processes.
  ghost function Homes(states: seq<State>, steps: seq<Step>, n: nat): set<(nat, string)>
    requires n <= |steps| < |states|
  {
    if n == 0 then {}
    else
      var before := Homes(states, steps, n - 1);
      match steps[n - 1]
      case Container(Boot(a, _)) => before + {(states[n - 1].world.nextLease, a)}
      case _ => before
  }

  lemma {:induction false} HomesGrow(states: seq<State>, steps: seq<Step>, m: nat, n: nat)
    requires m <= n <= |steps| < |states|
    ensures Homes(states, steps, m) <= Homes(states, steps, n)
    decreases n
  {
    if m < n {
      HomesGrow(states, steps, m, n - 1);
    }
  }

  lemma ActKeepsHomes(w: World, act: Act, homes: set<(nat, string)>)
    requires CanAct(w, act) && !act.Boot? && IsHome(w, homes)
    ensures IsHome(Perform(w, act), homes) && Perform(w, act).nextLease == w.nextLease
  {
    if act.DeployStep? {
      DeployKeepsHomes(w, act.k, homes);
    }
  }

  lemma DeployKeepsHomes(w: World, k: nat, homes: set<(nat, string)>)
    requires CanAct(w, DeployStep(k)) && IsHome(w, homes)
    ensures IsHome(NextDeploy(w, k), homes)
  {}

  lemma EffectKeepsHomes(w: World, d: Dispatch, move: Move, homes: set<(nat, string)>)
    requires CanMove(w, d, move) && IsHome(w, homes)
    ensures IsHome(Effect(w, d, move), homes) && Effect(w, d, move).nextLease == w.nextLease
  {}

  lemma BootMakesHome(w: World, a: string, types: set<string>, homes: set<(nat, string)>)
    requires a !in w.processes && IsHome(w, homes) && OneHome(homes, w.nextLease)
    ensures IsHome(DoBoot(w, a, types), homes + {(w.nextLease, a)})
    ensures OneHome(homes + {(w.nextLease, a)}, DoBoot(w, a, types).nextLease)
  {}

  lemma OtherStepsKeepHomes(hash: string -> nat, s: State, st: Step, homes: set<(nat, string)>)
    requires Enabled(hash, s, st) && IsHome(s.world, homes) && !(st.Container? && st.act.Boot?)
    ensures IsHome(Apply(hash, s, st).world, homes) && Apply(hash, s, st).world.nextLease == s.world.nextLease
  {
    match st {
      case Container(act) => ActKeepsHomes(s.world, act, homes);
      case Advance(c, move) => EffectKeepsHomes(s.world, s.dispatches[c], move, homes);
      case _ =>
    }
  }

  lemma {:induction false} HomesAreHomes(hash: string -> nat, states: seq<State>, steps: seq<Step>, n: nat)
    requires IsRun(hash, states, steps) && n <= |steps|
    ensures IsHome(states[n].world, Homes(states, steps, n))
    ensures OneHome(Homes(states, steps, n), states[n].world.nextLease)
  {
    if n > 0 {
      HomesAreHomes(hash, states, steps, n - 1);
      var s, st, homes := states[n - 1], steps[n - 1], Homes(states, steps, n - 1);
      if st.Container? && st.act.Boot? {
        BootMakesHome(s.world, st.act.addr, st.act.types, homes);
      } else {
        OtherStepsKeepHomes(hash, s, st, homes);
      }
    }
  }

  /** Wherever a lease was held before, it is the address of every key that hangs on it. */
  lemma SameHome(hash: string -> nat, states: seq<State>, steps: seq<Step>, m: nat, n: nat, a: string,
                 r: ProtocolInfo)
    requires IsRun(hash, states, steps) && m <= n <= |steps| && r in states[n].world.store.leased
    requires (states[n].world.store.leased[r], r.id) in LeasesOf(states[m].world, a, r.id)
    ensures a == r.addr
  {
    HomesAreHomes(hash, states, steps, m);
    HomesAreHomes(hash, states, steps, n);
    HomesGrow(states, steps, m, n);
  }

  // ---------------------------------------------------------------- keys go with their lease

  ghost predicate OnLiveLeases(w: World) {
    && (forall r :: r in w.store.leased ==> w.store.leased[r] in w.store.leases)
    && (forall a :: a in w.store.up ==> w.store.up[a] in w.store.leases)
  }

  lemma ActKeepsLiveLeases(w: World, act: Act)
    requires CanAct(w, act) && OnLiveLeases(w)
    ensures OnLiveLeases(Perform(w, act))
  {}

  lemma StepKeepsLiveLeases(hash: string -> nat, s: State, st: Step)
    requires Enabled(hash, s, st) && OnLiveLeases(s.world)
    ensures OnLiveLeases(Apply(hash, s, st).world)
  {
    match st {
      case Container(act) => ActKeepsLiveLeases(s.world, act);
      case Advance(c, move) =>
        assert Effect(s.world, s.dispatches[c], move).store.leased == s.world.store.leased;
        assert Effect(s.world, s.dispatches[c], move).store.up == s.world.store.up;
        assert Effect(s.world, s.dispatches[c], move).store.leases == s.world.store.leases;
      case _ =>
    }
  }

  /** In every reachable state, each liveness key and each container key hangs on a lease that holds. */
  lemma {:induction false} KeysAreOnLiveLeases(hash: string -> nat, states: seq<State>, steps: seq<Step>, n: nat)
    requires IsRun(hash, states, steps) && n <= |steps|
    ensures OnLiveLeases(states[n].world)
  {
    if n > 0 {
      KeysAreOnLiveLeases(hash, states, steps, n - 1);
      StepKeepsLiveLeases(hash, states[n - 1], steps[n - 1]);
    }
  }

  /** What the expiry of a lease takes: the keys on it, and nothing else. */
  lemma ExpiryTakes(w: World, l: nat, r: ProtocolInfo, a: string)
    requires CanAct(w, ExpireLease(l))
    ensures var s, s' := w.store, Perform(w, ExpireLease(l)).store;
            && (r in s'.leased <==> r in s.leased && s.leased[r] != l)
            && (r in s'.leased ==> s'.leased[r] == s.leased[r])
            && (a in s'.up <==> a in s.up && s.up[a] != l) && (a in s'.up ==> s'.up[a] == s.up[a])
            && s'.records == s.records && s'.infos == s.infos && s'.recover == s.recover && l !in s'.leases
  {}
}
