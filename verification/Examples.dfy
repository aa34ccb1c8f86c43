/**
 Runs from the initial state in which the hypotheses of `Events` and `Migration` hold, and one that
 upsets a stored detail in the way `Migration.StoredDetailStaysIff` describes.
 */
module Examples {
  import opened Store
  import opened View
  import opened Cluster
  import opened Paths
  import opened Simulation
  import opened Migration
  import opened Events
  import opened Losses

  lemma AnyPath(hash: string -> nat, ok: Condition, s: State, t: State)
    requires Reaches(hash, ok, s, t)
    ensures Reaches(hash, Any(), s, t)
  {
    var states, steps :| IsPath(hash, ok, states, steps) && states[0] == s && states[|steps|] == t;
    assert IsPath(hash, Any(), states, steps);
  }

  // A run that ends in the given step.
  lemma RunThenStep(hash: string -> nat, s0: State, s: State, st: Step) returns (states: seq<State>, steps: seq<Step>)
    requires Init(s0) && Reaches(hash, Any(), s0, s) && Enabled(hash, s, st)
    ensures IsRun(hash, states, steps) && |steps| > 0
    ensures states[0] == s0 && states[|steps| - 1] == s && steps[|steps| - 1] == st
  {
    var before, done := ARun(hash, Any(), s0, s);
    states, steps := before + [Apply(hash, s, st)], done + [st];
    forall i {:trigger steps[i]} | 0 <= i < |steps|
      ensures Enabled(hash, states[i], steps[i]) && states[i + 1] == Apply(hash, states[i], steps[i])
    {
      if i < |done| {
        assert steps[i] == done[i];
      }
    }
  }

  // The stop has begun, and its first delete is next.
  ghost function Stopping(c: NodeInfo, d: NodeInfo, v: seq<NodeInfo>, x: string, t: string, id: string,
                          det: Detail): State
  {
    var s := Deployed(BootedFirst(c, d, v, x, t), x, t, id, det);
    s.(world := StartUndeploy(s.world, x, id))
  }

  lemma Stops(hash: string -> nat, c: NodeInfo, d: NodeInfo, v: seq<NodeInfo>, x: string, t: string, id: string,
              det: Detail)
    ensures Init(Start(c, d, v)) && Reaches(hash, Any(), Start(c, d, v), Stopping(c, d, v, x, t, id, det))
  {
    var s0, s := Start(c, d, v), Deployed(BootedFirst(c, d, v, x, t), x, t, id, det);
    Deploys(hash, c, d, v, x, t, id, det);
    AnyPath(hash, CarefulFor(id), s0, s);
    Then(hash, Any(), s0, s, Container(Stop(x, id)));
  }

  /**
   Stops happen: a run whose last step is the first delete of an undeploy of a live, recorded
   protocol. Its record's DELETE event is out, so `Events.StopIsSilent` says something about it.
   */
  lemma StopHappens(hash: string -> nat, c: NodeInfo, d: NodeInfo, v: seq<NodeInfo>, x: string, t: string,
                    id: string, det: Detail)
    returns (states: seq<State>, steps: seq<Step>, i: nat)
    requires c.Id() != d.Id()
    ensures IsRun(hash, states, steps) && |steps| == i + 1 && steps[i] == Container(UndeployStep(1))
    ensures 1 in states[i].world.undeploys && states[i].world.undeploys[1].pc.DroppingRecord?
    ensures var r := states[i].world.undeploys[1].Info();
            && r == ProtocolInfo(x, t, id) && r in states[i].world.store.records && r in states[i].world.store.leased
            && r in states[i + 1].world.deleted
    ensures c.Id() in states[i + 1].views && states[i + 1].views[c.Id()] == [c] && states[i + 1].dispatches == map[]
  {
    var s0, s := Start(c, d, v), Stopping(c, d, v, x, t, id, det);
    Stops(hash, c, d, v, x, t, id, det);
    states, steps := RunThenStep(hash, s0, s, Container(UndeployStep(1)));
    i := |steps| - 1;
    assert s.world.undeploys[1] == UndeployTask(x, 0, t, id, DroppingRecord);
    assert s.world.store.records == {ProtocolInfo(x, t, id)};
  }

  /** Crashes happen: a run that ends with the expiry of the lease of a live, recorded protocol. */
  lemma CrashHappens(hash: string -> nat, c: NodeInfo, d: NodeInfo, v: seq<NodeInfo>, x: string, t: string,
                     id: string, det: Detail)
    returns (states: seq<State>, steps: seq<Step>, n: nat)
    ensures IsRun(hash, states, steps) && |steps| == n + 1 && steps[n] == Container(ExpireLease(0))
    ensures ProtocolInfo(x, t, id) in states[n].world.store.leased
    ensures states[n].world.store.leased[ProtocolInfo(x, t, id)] == 0 && states[n].world.removed == {}
  {
    var s0, s := Start(c, d, v), Deployed(BootedFirst(c, d, v, x, t), x, t, id, det);
    Deploys(hash, c, d, v, x, t, id, det);
    AnyPath(hash, CarefulFor(id), s0, s);
    states, steps := RunThenStep(hash, s0, s, Container(ExpireLease(0)));
    n := |steps| - 1;
  }

  // ---------------------------------------------------------------- redeploying with other devices

  // The id has been deployed at x with the first detail, and then at y with the second.
  lemma LastDeployMeans(hash: string -> nat, c: NodeInfo, d: NodeInfo, v: seq<NodeInfo>, x: string, y: string,
                        t: string, id: string, first: Detail, second: Detail)
    returns (s: State)
    requires x != y
    ensures Init(Start(c, d, v)) && Reaches(hash, Any(), Start(c, d, v), s)
    ensures Settled(s.world, id, second) && TypesWithin(s, id, {t})
    ensures x in s.world.processes && id in s.world.processes[x].manager
    ensures s.world.processes[x].manager[id].detail == first
  {
    var s0, b, ok := Start(c, d, v), Booted(c, d, v, x, y, t, Ready), CarefulFor(id);
    var half := HalfDeployed(b, x, t, id, first);
    Boots(hash, c, d, v, x, y, t, Ready, id);
    DeploysHalf(hash, b, x, t, id, first);
    Reached(hash, ok, s0, b, half);
    Completes(hash, id, s0, half, 0);
    var s1 := half.(world := Completed(half.world, 0));
    Acts(hash, id, s0, s1, UserDeploy(y, t, id, second));
    var s2 := s1.(world := StartDeploy(s1.world, y, t, id, second));
    s := s2.(world := Answered(s2.world, 1));
    DeployRuns(hash, ok, s2, 1);
    Reached(hash, ok, s0, s2, s);
    AnyPath(hash, ok, s0, s);
    LastDeployIsStored(s2.world, x, y, t, id, first, second);
  }

  lemma LastDeployIsStored(w: World, x: string, y: string, t: string, id: string, first: Detail, second: Detail)
    requires x != y && y in w.processes && w.processes[y] == Process(1, Ready, {t}, map[])
    requires w.deploys == map[0 := DeployTask(x, 0, t, id, first, Replied(true)),
                              1 := DeployTask(y, 1, t, id, second, LookingUp)]
    requires w.store.records == {ProtocolInfo(x, t, id)}
    ensures Settled(Answered(w, 1), id, second)
    ensures forall r :: r in Answered(w, 1).store.records ==> r.ptype == t
    ensures forall k :: k in Answered(w, 1).deploys ==> Answered(w, 1).deploys[k].ptype == t
    ensures x in w.processes ==> Answered(w, 1).processes[x] == w.processes[x]
  {}

  // Task 1, a dispatch's request with the first detail, is about to put the record at y.
  ghost function Stale(c: NodeInfo, d: NodeInfo, v: seq<NodeInfo>, x: string, y: string, t: string, id: string,
                       first: Detail): State
    requires x != y
  {
    var s := Asked(Prepared(c, d, v, x, y, t, Ready, id, first), c.Id());
    s.(world := s.world.(deploys := s.world.deploys[1 := DeployTask(y, 1, t, id, first, PuttingRecord)]))
  }

  lemma BecomesStale(hash: string -> nat, c: NodeInfo, d: NodeInfo, v: seq<NodeInfo>, x: string, y: string,
                     t: string, id: string, first: Detail)
    requires x != y && c.Id() != d.Id()
    ensures Init(Start(c, d, v))
    ensures Reaches(hash, CarefulFor(id), Start(c, d, v), Stale(c, d, v, x, y, t, id, first))
  {
    var s0, p := Start(c, d, v), Prepared(c, d, v, x, y, t, Ready, id, first);
    Prepares(hash, c, d, v, x, y, t, Ready, id, first);
    Asks(hash, id, s0, p, c.Id());
    var s := Asked(p, c.Id());
    assert s.world.deploys[1] == DeployTask(y, 1, t, id, first, LookingUp);
    Serves(hash, id, s0, s, 1);
    assert NextDeploy(s.world, 1).deploys == Stale(c, d, v, x, y, t, id, first).world.deploys;
    assert NextDeploy(s.world, 1) == Stale(c, d, v, x, y, t, id, first).world;
  }

  /**
   A request under way can undo a newer deploy: a dispatch has read the first detail and its request
   is being served at y; a user deploys the id with the second detail, which is served completely;
   then the older request puts its info record. The stored detail is the first again, although the
   user's last deploy had succeeded with the second.
   */
  lemma StaleRequestWins(hash: string -> nat, c: NodeInfo, d: NodeInfo, v: seq<NodeInfo>, x: string, y: string,
                         t: string, id: string, first: Detail, second: Detail)
    returns (mid: State, end: State)
    requires x != y && c.Id() != d.Id()
    ensures Init(Start(c, d, v)) && Reaches(hash, Any(), Start(c, d, v), mid) && Reaches(hash, Any(), mid, end)
    ensures 2 in mid.world.deploys && mid.world.deploys[2] == DeployTask(y, 1, t, id, second, Replied(true))
    ensures mid.world.store.infos == map[id := second] && end.world.store.infos == map[id := first]
    ensures end.world.processes == mid.world.processes && y in end.world.processes
    ensures id in end.world.processes[y].manager && end.world.processes[y].manager[id].detail == second
  {
    var s0, s, ok := Start(c, d, v), Stale(c, d, v, x, y, t, id, first), CarefulFor(id);
    BecomesStale(hash, c, d, v, x, y, t, id, first);
    Acts(hash, id, s0, s, UserDeploy(y, t, id, second));
    var s1 := s.(world := StartDeploy(s.world, y, t, id, second));
    mid := s1.(world := Answered(s1.world, 2));
    DeployRuns(hash, ok, s1, 2);
    Reached(hash, ok, s0, s1, mid);
    AnyPath(hash, ok, s0, mid);
    assert mid.world.store.infos == map[id := second];
    end := PutsStale(hash, id, mid, y, t, first);
    AnyPath(hash, ok, mid, end);
  }

  lemma PutsStale(hash: string -> nat, id: string, s: State, y: string, t: string, first: Detail) returns (end: State)
    requires 1 in s.world.deploys && s.world.deploys[1] == DeployTask(y, 1, t, id, first, PuttingRecord)
    requires y in s.world.processes && s.world.store.infos.Keys == {id}
    ensures Reaches(hash, CarefulFor(id), s, end)
    ensures end.world.store.infos == map[id := first] && end.world.processes == s.world.processes
  {
    Stay(hash, CarefulFor(id), s);
    Serves(hash, id, s, s, 1);
    var s1 := s.(world := NextDeploy(s.world, 1));
    Serves(hash, id, s, s1, 1);
    end := s1.(world := NextDeploy(s1.world, 1));
  }
}
