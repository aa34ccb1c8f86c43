/**
 Recovery of a dead node by a coordinator that is alone in its view: every recover event picks one
 stranded record and dispatches it, and the recover key goes when nothing is stranded any more.
 Dispatches may fail, and other things may happen between the events.
 */
module Recovery {
  import opened Wrappers
  import opened Keys
  import opened Store
  import opened View
  import RoundRobin
  import opened Selection
  import opened Cluster
  import opened Calls

  // What the environment contributes to one recover event: the response to the node scan and the
  // container that the round-robin index points at.
  datatype Input = Input(kvs: seq<ProtocolInfo>, target: string)

  ghost function StrandedSet(s: Site, a: string): set<ProtocolInfo> {
    set r | r in s.store.records && a <= r.addr && r !in s.store.leased
  }

  // One recover event: the selected record is dispatched, or the recover key is deleted.
  function RecoverEvent(view: seq<NodeInfo>, c: NodeId, hash: string -> nat, s: Site, a: string,
                        kvs: seq<ProtocolInfo>, target: string): (Site, bool)
  {
    match Selected(view, c, hash, kvs, s.store)
    case None => (s.(store := s.store.DeleteRecover(a)), false)
    case Some(r) => Dispatched(s, r, target)
  }

  ghost function Round(self: NodeInfo, hash: string -> nat, s: Site, a: string, inp: Input): (Site, bool) {
    RecoverEvent([self], self.Id(), hash, s, a, inp.kvs, inp.target)
  }

  /** The scan is what the prefix read of the node's record keys returns. */
  lemma ScanIsThePrefixRead(kvs: seq<ProtocolInfo>, store: Store, a: string)
    requires '/' !in a && forall r :: r in store.records ==> Plain(NodeRecord(r.addr, r.ptype, r.id))
    ensures IsScan(kvs, store, a) <==>
            forall r :: r in kvs <==>
              r in store.records && COMPLETE_PROTOCOL_NODE + "/" + a <= Render(NodeRecord(r.addr, r.ptype, r.id))
  {
    forall r | r in store.records
      ensures COMPLETE_PROTOCOL_NODE + "/" + a <= Render(NodeRecord(r.addr, r.ptype, r.id)) <==> a <= r.addr
    {
      NodeScanMatches(a, NodeRecord(r.addr, r.ptype, r.id));
    }
  }

  // ---------------------------------------------------------------- one round

  lemma ScanFindsStranded(kvs: seq<ProtocolInfo>, s: Site, a: string)
    requires IsScan(kvs, s.store, a)
    ensures forall r :: r in Stranded(kvs, s.store) <==> r in StrandedSet(s, a)
    ensures Stranded(kvs, s.store) == [] <==> StrandedSet(s, a) == {}
  {
    if Stranded(kvs, s.store) != [] {
      assert Stranded(kvs, s.store)[0] in StrandedSet(s, a);
    } else {
      assert StrandedSet(s, a) == {};
    }
  }

  // A deploy that ends in RUNNING strands nothing new.
  lemma DeployStrandsNothing(s: Site, r: ProtocolInfo, target: string, q: ProtocolInfo)
    requires ':' in r.id && Redeployed(s, r, target).Some?
    requires IsRunning(RemoveGarbage(Redeployed(s, r, target).value, r, target), target, r.ptype, r.id)
    requires q in RemoveGarbage(Redeployed(s, r, target).value, r, target).store.records
    requires q !in RemoveGarbage(Redeployed(s, r, target).value, r, target).store.leased
    ensures q in s.store.records && q !in s.store.leased && q != r
  {
    RedeployMeaning(s, r, target);
    GarbageMeaning(Redeployed(s, r, target).value, r, target, q);
  }

  lemma GarbageMeaning(s: Site, r: ProtocolInfo, target: string, q: ProtocolInfo)
    requires q in RemoveGarbage(s, r, target).store.records && q !in RemoveGarbage(s, r, target).store.leased
    ensures q in s.store.records && q !in s.store.leased && (target != r.addr ==> q != r)
  {}

  /**
   A dispatch that returns true leaves fewer stranded records, except in one case: the id was
   found alive elsewhere and the pick was the record's own address, where nothing is done.
   */
  lemma SuccessLowersStrandedIff(s: Site, r: ProtocolInfo, target: string, a: string)
    requires ':' in r.id && r in StrandedSet(s, a) && Dispatched(s, r, target).1
    ensures StrandedSet(Dispatched(s, r, target).0, a) < StrandedSet(s, a) <==>
            !(AlreadyAlive(s, r) && target == r.addr)
  {
    var after := Dispatched(s, r, target).0;
    if AlreadyAlive(s, r) {
      if target != r.addr {
        assert r !in after.store.records;
        forall q | q in StrandedSet(after, a)
          ensures q in StrandedSet(s, a) && q != r
        {
          GarbageMeaning(s, r, target, q);
        }
        assert r !in StrandedSet(after, a);
      }
    } else {
      forall q | q in StrandedSet(after, a)
        ensures q in StrandedSet(s, a) && q != r
      {
        DeployStrandsNothing(s, r, target, q);
      }
      assert r !in StrandedSet(after, a);
    }
  }

  // If the target's address starts with the dead one, its own lease has not expired.
  ghost predicate Steady(s: Site, a: string, target: string) {
    a <= target && target in s.processes ==> s.processes[target].lease in s.store.leases
  }

  /** No dispatch of a composed id strands anything new, whether it succeeds or not. */
  lemma DispatchStrandsNothing(s: Site, r: ProtocolInfo, target: string, a: string)
    requires ':' in r.id && Steady(s, a, target)
    ensures StrandedSet(Dispatched(s, r, target).0, a) <= StrandedSet(s, a)
  {
    forall q | q in StrandedSet(Dispatched(s, r, target).0, a)
      ensures q in StrandedSet(s, a)
    {
      if AlreadyAlive(s, r) {
        GarbageMeaning(s, r, target, q);
      } else if Redeployed(s, r, target).Some? {
        RedeployMeaning(s, r, target);
        GarbageMeaning(Redeployed(s, r, target).value, r, target, q);
      }
    }
  }

  // ---------------------------------------------------------------- any run of recover events

  // The event found a record, and its dispatch returned true, other than by doing nothing because
  // it had picked the record's own address for an id alive elsewhere.
  ghost predicate Succeeds(self: NodeInfo, hash: string -> nat, s: Site, a: string, inp: Input) {
    match Selected([self], self.Id(), hash, inp.kvs, s.store)
    case None => false
    case Some(r) => Dispatched(s, r, inp.target).1 && !(AlreadyAlive(s, r) && inp.target == r.addr)
  }

  // A recover event for `a`, and after it anything that strands nothing more and does not touch the
  // recover key; `won` tells whether the event succeeded.
  ghost predicate Follows(self: NodeInfo, hash: string -> nat, s: Site, s': Site, a: string, inp: Input, won: bool) {
    && IsScan(inp.kvs, s.store, a) && Steady(s, a, inp.target)
    && StrandedSet(s', a) <= StrandedSet(Round(self, hash, s, a, inp).0, a)
    && (a in s'.store.recover <==> a in Round(self, hash, s, a, inp).0.store.recover)
    && (won <==> Succeeds(self, hash, s, a, inp))
  }

  ghost predicate IsRecovering(self: NodeInfo, hash: string -> nat, a: string, sites: seq<Site>, inputs: seq<Input>,
                               wins: seq<bool>)
  {
    && |sites| == |inputs| + 1 && |wins| == |inputs|
    && forall i {:trigger inputs[i]} :: 0 <= i < |inputs| ==>
         Follows(self, hash, sites[i], sites[i + 1], a, inputs[i], wins[i])
  }

  // One event: nothing is stranded that was not before, and a success frees at least one record.
  lemma AnyRound(self: NodeInfo, hash: string -> nat, s: Site, a: string, inp: Input)
    requires IsScan(inp.kvs, s.store, a) && Steady(s, a, inp.target)
    requires forall r :: r in StrandedSet(s, a) ==> ':' in r.id
    ensures var s' := Round(self, hash, s, a, inp).0;
            && StrandedSet(s', a) <= StrandedSet(s, a)
            && (Succeeds(self, hash, s, a, inp) ==> StrandedSet(s', a) < StrandedSet(s, a))
            && (a in s'.store.recover <==> a in s.store.recover && StrandedSet(s, a) != {})
  {
    AloneTakesTheFirst(self, hash, inp.kvs, s.store);
    ScanFindsStranded(inp.kvs, s, a);
    var s' := Round(self, hash, s, a, inp).0;
    if StrandedSet(s, a) != {} {
      var r := Stranded(inp.kvs, s.store)[0];
      DispatchStrandsNothing(s, r, inp.target, a);
      DispatchKeepsKeys(s, r, inp.target);
      if Succeeds(self, hash, s, a, inp) {
        SuccessLowersStrandedIff(s, r, inp.target, a);
      }
    } else {
      assert StrandedSet(s', a) == {};
    }
  }

  lemma DispatchKeepsKeys(s: Site, r: ProtocolInfo, target: string)
    ensures Dispatched(s, r, target).0.store.recover == s.store.recover
  {
    if r.id in s.store.infos && target in s.processes {
      RedeployMeaning(s, r, target);
    }
  }

  /**
   Progress over any run, with failed dispatches in between: the stranded records only get fewer,
   and every successful event lowers their number by at least one.
   */
  lemma {:induction false} SuccessesLowerStranded(self: NodeInfo, hash: string -> nat, a: string, sites: seq<Site>,
                                                  inputs: seq<Input>, wins: seq<bool>, n: nat)
    requires IsRecovering(self, hash, a, sites, inputs, wins) && n <= |inputs|
    requires forall r :: r in StrandedSet(sites[0], a) ==> ':' in r.id
    ensures StrandedSet(sites[n], a) <= StrandedSet(sites[0], a)
    ensures |StrandedSet(sites[n], a)| + RoundRobin.Count(wins[..n], true) <= |StrandedSet(sites[0], a)|
  {
    if n > 0 {
      SuccessesLowerStranded(self, hash, a, sites, inputs, wins, n - 1);
      assert wins[..n][..n - 1] == wins[..n - 1];
      RoundCounts(self, hash, sites[n - 1], sites[n], a, inputs[n - 1], wins[n - 1], StrandedSet(sites[0], a));
    }
  }

  lemma RoundCounts(self: NodeInfo, hash: string -> nat, s: Site, s': Site, a: string, inp: Input, won: bool,
                    all: set<ProtocolInfo>)
    requires Follows(self, hash, s, s', a, inp, won) && StrandedSet(s, a) <= all
    requires forall r :: r in all ==> ':' in r.id
    ensures StrandedSet(s', a) <= all
    ensures |StrandedSet(s', a)| + (if won then 1 else 0) <= |StrandedSet(s, a)|
  {
    AnyRound(self, hash, s, a, inp);
    var after := StrandedSet(Round(self, hash, s, a, inp).0, a);
    SubsetCount(StrandedSet(s', a), after);
    SubsetCount(after, StrandedSet(s, a));
  }

  // Whatever the event finds, it is moved: the dispatch returns true, and it has picked a container
  // whose address does not extend the dead one.
  ghost predicate Frees(self: NodeInfo, hash: string -> nat, s: Site, a: string, inp: Input) {
    StrandedSet(s, a) != {} ==> Round(self, hash, s, a, inp).1 && !(a <= inp.target)
  }

  lemma FreeingEventCounts(self: NodeInfo, hash: string -> nat, s: Site, s': Site, a: string, inp: Input,
                           won: bool, all: set<ProtocolInfo>)
    requires Follows(self, hash, s, s', a, inp, won) && Frees(self, hash, s, a, inp)
    requires StrandedSet(s, a) <= all && forall r :: r in all ==> ':' in r.id
    ensures StrandedSet(s', a) <= all
    ensures if StrandedSet(s, a) == {} then StrandedSet(s', a) == {}
            else |StrandedSet(s', a)| + 1 <= |StrandedSet(s, a)|
  {
    RoundCounts(self, hash, s, s', a, inp, won, all);
    if StrandedSet(s, a) != {} {
      TrueIsSuccess(self, hash, s, a, inp);
    }
  }

  /** So if every event moves what it finds, each of them leaves at least one stranded record fewer. */
  lemma {:induction false} EveryEventCounts(self: NodeInfo, hash: string -> nat, a: string, sites: seq<Site>,
                                            inputs: seq<Input>, wins: seq<bool>, n: nat)
    requires IsRecovering(self, hash, a, sites, inputs, wins) && n <= |inputs|
    requires forall r :: r in StrandedSet(sites[0], a) ==> ':' in r.id
    requires forall i {:trigger inputs[i]} :: 0 <= i < n ==> Frees(self, hash, sites[i], a, inputs[i])
    ensures StrandedSet(sites[n], a) <= StrandedSet(sites[0], a)
    ensures StrandedSet(sites[n], a) == {} || |StrandedSet(sites[n], a)| + n <= |StrandedSet(sites[0], a)|
  {
    if n > 0 {
      EveryEventCounts(self, hash, a, sites, inputs, wins, n - 1);
      FreeingEventCounts(self, hash, sites[n - 1], sites[n], a, inputs[n - 1], wins[n - 1], StrandedSet(sites[0], a));
    }
  }

  lemma TrueIsSuccess(self: NodeInfo, hash: string -> nat, s: Site, a: string, inp: Input)
    requires IsScan(inp.kvs, s.store, a) && StrandedSet(s, a) != {}
    requires Round(self, hash, s, a, inp).1 && !(a <= inp.target)
    ensures Succeeds(self, hash, s, a, inp)
  {
    AloneTakesTheFirst(self, hash, inp.kvs, s.store);
    ScanFindsStranded(inp.kvs, s, a);
    assert Stranded(inp.kvs, s.store)[0] in StrandedSet(s, a);
  }

  /**
   The recover key goes with an event exactly if the event finds nothing stranded. So once as many
   events have succeeded as there were stranded records, the next one deletes the key, and when it
   is gone no record is stranded.
   */
  lemma KeyGoesWhenDone(self: NodeInfo, hash: string -> nat, a: string, sites: seq<Site>, inputs: seq<Input>,
                        wins: seq<bool>, n: nat)
    requires IsRecovering(self, hash, a, sites, inputs, wins) && n < |inputs|
    requires forall r :: r in StrandedSet(sites[0], a) ==> ':' in r.id
    requires a in sites[n].store.recover
    ensures a !in sites[n + 1].store.recover <==> StrandedSet(sites[n], a) == {}
    ensures a !in sites[n + 1].store.recover ==> StrandedSet(sites[n + 1], a) == {}
    ensures RoundRobin.Count(wins[..n], true) >= |StrandedSet(sites[0], a)| ==>
              a !in sites[n + 1].store.recover
  {
    SuccessesLowerStranded(self, hash, a, sites, inputs, wins, n);
    AnyRound(self, hash, sites[n], a, inputs[n]);
  }

  /** A container's death, seen with a scan of its records, leaves no stranded record without a key. */
  lemma DeathStartsRecovery(s: Site, a: string, kvs: seq<ProtocolInfo>)
    requires IsScan(kvs, s.store, a)
    ensures var s' := s.(store := NodeGone(s.store, a, kvs));
            && StrandedSet(s', a) == StrandedSet(s, a) && (StrandedSet(s', a) != {} ==> a in s'.store.recover)
            && (a in s'.store.recover <==>
                a in s.store.recover || exists r :: r in s.store.records && a <= r.addr)
  {
    if kvs != [] {
      assert kvs[0] in kvs;
    } else {
      assert forall r :: r in s.store.records && a <= r.addr ==> r in kvs;
    }
    if r :| r in StrandedSet(s, a) {
      assert r in kvs;
    }
  }

  // ---------------------------------------------------------------- healthy clusters

  // Every node in the alive list is up to serve what is stranded: it is subscribed, its lease
  // holds, it knows the types, and whatever its manager has is live.
  ghost predicate Serves(s: Site, a: string, t: string) {
    && t in s.processes && s.processes[t].phase.Ready? && s.processes[t].lease in s.store.leases
    && forall r :: r in StrandedSet(s, a) ==>
         r.ptype in s.processes[t].types && (r.id in s.processes[t].manager ==> LeasedAt(s, r, t))
  }

  // The dead node and whatever its key prefix matches is not alive, and its records can be moved.
  ghost predicate Healthy(s: Site, a: string) {
    && (forall t :: t in s.store.up ==> Serves(s, a, t))
    && (forall r :: r in StrandedSet(s, a) ==> ':' in r.id && r.addr !in s.store.up && r.id in s.store.infos)
    && (forall q, r :: q in StrandedSet(s, a) && r in StrandedSet(s, a) && q.id == r.id ==> q.ptype == r.ptype)
  }

  lemma HealthyDispatchSucceeds(s: Site, a: string, r: ProtocolInfo, target: string)
    requires Healthy(s, a) && r in StrandedSet(s, a) && target in s.store.up
    ensures Dispatched(s, r, target).1
    ensures AlreadyAlive(Dispatched(s, r, target).0, r)
  {
    assert Serves(s, a, target);
    if AlreadyAlive(s, r) {
      var w :| w in s.store.up && LeasedAt(s, r, w);
      assert LeasedAt(Dispatched(s, r, target).0, r, w);
    } else {
      RedeployMeaning(s, r, target);
      assert r.id in s.processes[target].manager ==> LeasedAt(s, r, target);
      assert LeasedAt(Dispatched(s, r, target).0, r, target);
    }
  }

  // The nodes named by stranded records are not alive, so a dispatch undeploys nothing.
  lemma HealthyDispatchGrows(s: Site, a: string, r: ProtocolInfo, target: string)
    requires Healthy(s, a) && r in StrandedSet(s, a) && target in s.store.up
    ensures var s' := Dispatched(s, r, target).0;
            && s'.store.up == s.store.up && s'.store.leases == s.store.leases && s'.store.recover == s.store.recover
            && s.store.infos.Keys <= s'.store.infos.Keys
            && (forall q :: q in s.store.leased ==> q in s'.store.leased)
            && s'.processes.Keys == s.processes.Keys
            && (forall t :: t in s.processes ==>
                  && s'.processes[t].phase == s.processes[t].phase && s'.processes[t].lease == s.processes[t].lease
                  && s'.processes[t].types == s.processes[t].types
                  && (forall i :: i in s'.processes[t].manager ==>
                        i in s.processes[t].manager || (i == r.id && t == target && LeasedAt(s', r, target))))
  {
    assert Serves(s, a, target);
    if !AlreadyAlive(s, r) {
      RedeployMeaning(s, r, target);
    }
  }

  lemma RoundKeepsHealthy(s: Site, a: string, r: ProtocolInfo, target: string)
    requires Healthy(s, a) && r in StrandedSet(s, a) && target in s.store.up
    ensures Healthy(Dispatched(s, r, target).0, a)
    ensures StrandedSet(Dispatched(s, r, target).0, a) < StrandedSet(s, a)
  {
    var s' := Dispatched(s, r, target).0;
    HealthyDispatchSucceeds(s, a, r, target);
    HealthyDispatchGrows(s, a, r, target);
    SuccessLowersStrandedIff(s, r, target, a);
    forall t | t in s'.store.up
      ensures Serves(s', a, t)
    {
      assert Serves(s, a, t);
      forall q | q in StrandedSet(s', a)
        ensures q.ptype in s'.processes[t].types && (q.id in s'.processes[t].manager ==> LeasedAt(s', q, t))
      {
        assert q in StrandedSet(s, a);
        if q.id in s.processes[t].manager {
          assert LeasedAt(s, q, t);
        }
      }
    }
  }

  // ---------------------------------------------------------------- runs of recover events

  // A run of recover events for `a`, each while its key exists, with some container alive.
  ghost predicate IsRecovery(self: NodeInfo, hash: string -> nat, a: string, sites: seq<Site>, inputs: seq<Input>) {
    && |sites| == |inputs| + 1
    && forall i {:trigger inputs[i]} :: 0 <= i < |inputs| ==>
         && a in sites[i].store.recover
         && IsScan(inputs[i].kvs, sites[i].store, a) && inputs[i].target in sites[i].store.up
         && sites[i + 1] == Round(self, hash, sites[i], a, inputs[i]).0
  }

  lemma OneRound(self: NodeInfo, hash: string -> nat, s: Site, a: string, inp: Input)
    requires Healthy(s, a) && IsScan(inp.kvs, s.store, a) && inp.target in s.store.up && a in s.store.recover
    ensures var s' := Round(self, hash, s, a, inp).0;
            && Healthy(s', a) && s'.store.up == s.store.up
            && (forall q :: q in s.store.leased ==> q in s'.store.leased)
            && (if StrandedSet(s, a) == {} then a !in s'.store.recover && StrandedSet(s', a) == {}
                else a in s'.store.recover && StrandedSet(s', a) < StrandedSet(s, a)
                     && forall r :: r in StrandedSet(s, a) && r !in StrandedSet(s', a) ==> AlreadyAlive(s', r))
  {
    AloneTakesTheFirst(self, hash, inp.kvs, s.store);
    ScanFindsStranded(inp.kvs, s, a);
    var s' := Round(self, hash, s, a, inp).0;
    if StrandedSet(s, a) == {} {
      assert StrandedSet(s', a) == {};
      forall t | t in s'.store.up
        ensures Serves(s', a, t)
      {
        assert Serves(s, a, t);
      }
    } else {
      var r := Stranded(inp.kvs, s.store)[0];
      RoundKeepsHealthy(s, a, r, inp.target);
      HealthyDispatchGrows(s, a, r, inp.target);
      HealthyDispatchSucceeds(s, a, r, inp.target);
      forall q | q in StrandedSet(s, a) && q !in StrandedSet(s', a)
        ensures AlreadyAlive(s', q)
      {
        LeavesStranded(s, a, r, inp.target, q);
      }
    }
  }

  // A record that is no longer stranded was the one dispatched, or became live.
  lemma LeavesStranded(s: Site, a: string, r: ProtocolInfo, target: string, q: ProtocolInfo)
    requires Healthy(s, a) && r in StrandedSet(s, a) && target in s.store.up
    requires q in StrandedSet(s, a) && q !in StrandedSet(Dispatched(s, r, target).0, a)
    ensures q == r && AlreadyAlive(Dispatched(s, r, target).0, q)
  {
    HealthyDispatchSucceeds(s, a, r, target);
    assert Serves(s, a, target);
    if !AlreadyAlive(s, r) {
      RedeployMeaning(s, r, target);
    }
  }

  lemma {:induction false} RecoveryProgress(self: NodeInfo, hash: string -> nat, a: string, sites: seq<Site>,
                                            inputs: seq<Input>, n: nat)
    requires IsRecovery(self, hash, a, sites, inputs) && Healthy(sites[0], a) && n <= |inputs|
    ensures Healthy(sites[n], a) && sites[n].store.up == sites[0].store.up
    ensures |StrandedSet(sites[n], a)| + n <= |StrandedSet(sites[0], a)|
            || (StrandedSet(sites[n], a) == {} && (n > 0 ==> a !in sites[n].store.recover))
    ensures a !in sites[n].store.recover && n > 0 ==> StrandedSet(sites[n], a) == {}
    ensures forall r :: r in StrandedSet(sites[0], a) ==> r in StrandedSet(sites[n], a) || AlreadyAlive(sites[n], r)
  {
    if n > 0 {
      RecoveryProgress(self, hash, a, sites, inputs, n - 1);
      var s, s' := sites[n - 1], sites[n];
      assert inputs[n - 1].target in s.store.up;
      OneRound(self, hash, s, a, inputs[n - 1]);
      if StrandedSet(s, a) != {} {
        SubsetCount(StrandedSet(s', a), StrandedSet(s, a));
      }
      forall r | r in StrandedSet(sites[0], a) && r !in StrandedSet(s', a)
        ensures AlreadyAlive(s', r)
      {
        if AlreadyAlive(s, r) {
          var w :| w in s.store.up && LeasedAt(s, r, w);
          assert LeasedAt(s', r, w);
        }
      }
    }
  }

  /**
   Recovery of a healthy cluster ends after as many events as there are stranded records, plus one
   for the key: the key goes only when nothing is stranded, no more events than that can find it,
   and every record that was stranded then has its protocol live at a node of the alive list.
   */
  lemma RecoveryFinishes(self: NodeInfo, hash: string -> nat, a: string, sites: seq<Site>, inputs: seq<Input>)
    requires IsRecovery(self, hash, a, sites, inputs) && Healthy(sites[0], a)
    ensures |inputs| <= |StrandedSet(sites[0], a)| + 1
    ensures |inputs| == |StrandedSet(sites[0], a)| + 1 ==> a !in sites[|inputs|].store.recover
    ensures inputs != [] && a !in sites[|inputs|].store.recover ==>
              && StrandedSet(sites[|inputs|], a) == {}
              && forall r :: r in StrandedSet(sites[0], a) ==> AlreadyAlive(sites[|inputs|], r)
  {
    var n := |inputs|;
    RecoveryProgress(self, hash, a, sites, inputs, n);
    if n > 0 {
      RecoveryProgress(self, hash, a, sites, inputs, n - 1);
      assert inputs[n - 1].target in sites[n - 1].store.up;
      assert a in sites[n - 1].store.recover;
    }
  }
}
