/**
 Why conservation needs its conditions: for each condition of `Conservation.Careful` a run from the
 initial state in which a deployed id loses its last record, and in which every step but one is
 careful. The one step breaks that condition and no other.
 */
module Losses {
  import opened Store
  import opened View
  import opened Cluster
  import opened Durability
  import opened Conservation
  import opened Paths
  import opened Simulation

  ghost function CarefulFor(id: string): Condition {
    (s: State, st: Step) => Careful(s, st, id)
  }

  // A careful run, one careless step, careful steps again, and the last record is gone.
  ghost predicate LosesBy(hash: string -> nat, id: string, start: State, slip: State, st: Step, after: State) {
    && Init(start) && Reaches(hash, CarefulFor(id), start, slip) && HasRecord(slip.world, id)
    && Enabled(hash, slip, st) && !Careful(slip, st, id)
    && Reaches(hash, CarefulFor(id), Apply(hash, slip, st), after) && !HasRecord(after.world, id)
  }

  // Containers' steps other than a stop are careful, and so are most moves of a dispatch.
  lemma Acts(hash: string -> nat, id: string, s0: State, s: State, act: Act)
    requires Reaches(hash, CarefulFor(id), s0, s) && CanAct(s.world, act) && !act.Stop?
    ensures Reaches(hash, CarefulFor(id), s0, s.(world := Perform(s.world, act)))
  {
    Then(hash, CarefulFor(id), s0, s, Container(act));
  }

  lemma Serves(hash: string -> nat, id: string, s0: State, s: State, k: nat)
    requires Reaches(hash, CarefulFor(id), s0, s) && CanAct(s.world, DeployStep(k))
    ensures Reaches(hash, CarefulFor(id), s0, s.(world := NextDeploy(s.world, k)))
  {
    Acts(hash, id, s0, s, DeployStep(k));
  }

  lemma Advances(hash: string -> nat, id: string, s0: State, s: State, k: NodeId, move: Move, w: World, e: Dispatch)
    requires Reaches(hash, CarefulFor(id), s0, s) && k in s.dispatches && CanMove(s.world, s.dispatches[k], move)
    requires CarefulMove(s.world, s.dispatches[k], move)
    requires Effect(s.world, s.dispatches[k], move) == w && Next(s.world, s.dispatches[k], move) == Continue(e)
    ensures Reaches(hash, CarefulFor(id), s0, State(w, s.dispatches[k := e], s.views))
  {
    Then(hash, CarefulFor(id), s0, s, Advance(k, move));
  }

  // ---------------------------------------------------------------- two containers

  // Coordinator c sees only itself; d has the view v.
  function Start(c: NodeInfo, d: NodeInfo, v: seq<NodeInfo>): State {
    State(World(Store({}, map[], map[], map[], {}, {}), map[], map[], map[], 0, 0, {}, {}, {}, {}),
          map[], map[c.Id() := [c], d.Id() := v])
  }

  function BootedFirst(c: NodeInfo, d: NodeInfo, v: seq<NodeInfo>, x: string, t: string): State {
    State(World(Store({}, map[], map[], map[x := 0], {0}, {}), map[x := Process(0, Ready, {t}, map[])],
                map[], map[], 1, 0, {}, {}, {}, {}),
          map[], map[c.Id() := [c], d.Id() := v])
  }

  function BootedStore(x: string, y: string): Store {
    Store({}, map[], map[], map[x := 0, y := 1], {0, 1}, {})
  }

  // Container x is ready; y has announced itself, and is ready too if its phase says so.
  function Booted(c: NodeInfo, d: NodeInfo, v: seq<NodeInfo>, x: string, y: string, t: string, phase: Phase): State {
    State(World(BootedStore(x, y),
                map[x := Process(0, Ready, {t}, map[]), y := Process(1, phase, {t}, map[])],
                map[], map[], 2, 0, {}, {}, {}, {}),
          map[], map[c.Id() := [c], d.Id() := v])
  }

  lemma BootsFirst(hash: string -> nat, c: NodeInfo, d: NodeInfo, v: seq<NodeInfo>, x: string, t: string, id: string)
    ensures Init(Start(c, d, v)) && Reaches(hash, CarefulFor(id), Start(c, d, v), BootedFirst(c, d, v, x, t))
  {
    var s, ok := Start(c, d, v), CarefulFor(id);
    Stay(hash, ok, s);
    var s1 := Apply(hash, s, Container(Boot(x, {t})));
    Then(hash, ok, s, s, Container(Boot(x, {t})));
    var s2 := Apply(hash, s1, Container(Announce(x)));
    Then(hash, ok, s, s1, Container(Announce(x)));
    var s3 := Apply(hash, s2, Container(Subscribe(x)));
    Then(hash, ok, s, s2, Container(Subscribe(x)));
    assert s3.world.store.leases == {0};
    assert s3 == BootedFirst(c, d, v, x, t);
  }

  lemma Boots(hash: string -> nat, c: NodeInfo, d: NodeInfo, v: seq<NodeInfo>, x: string, y: string, t: string,
              phase: Phase, id: string)
    requires x != y && !phase.Granted?
    ensures Init(Start(c, d, v))
    ensures Reaches(hash, CarefulFor(id), Start(c, d, v), Booted(c, d, v, x, y, t, phase))
  {
    BootsFirst(hash, c, d, v, x, t, id);
    var s, s3, ok := Start(c, d, v), BootedFirst(c, d, v, x, t), CarefulFor(id);
    var s4 := Apply(hash, s3, Container(Boot(y, {t})));
    Then(hash, ok, s, s3, Container(Boot(y, {t})));
    var s5 := Apply(hash, s4, Container(Announce(y)));
    Then(hash, ok, s, s4, Container(Announce(y)));
    assert s5.world.store.leases == {0, 1};
    assert s5 == Booted(c, d, v, x, y, t, Announced);
    if phase.Ready? {
      Then(hash, ok, s, s5, Container(Subscribe(y)));
      assert Apply(hash, s5, Container(Subscribe(y))) == Booted(c, d, v, x, y, t, Ready);
    }
  }

  // ---------------------------------------------------------------- a deploy and a dispatch

  // A user's deploy of the id at x has written the record and the info, but not yet the lease.
  function HalfDeployed(s: State, x: string, t: string, id: string, det: Detail): State {
    s.(world := s.world.(
       store := s.world.store.(records := {ProtocolInfo(x, t, id)}, infos := map[id := det]),
       deploys := map[0 := DeployTask(x, 0, t, id, det, PuttingLeased)], nextTask := 1))
  }

  lemma DeploysHalf(hash: string -> nat, s: State, x: string, t: string, id: string, det: Detail)
    requires s.world.nextTask == 0 && s.world.deploys == map[] && s.world.store.records == {}
    requires s.world.store.infos == map[] && s.world.removed == {}
    requires x in s.world.processes && s.world.processes[x] == Process(0, Ready, {t}, map[])
    ensures Reaches(hash, CarefulFor(id), s, HalfDeployed(s, x, t, id, det))
  {
    var s1 := s.(world := StartDeploy(s.world, x, t, id, det));
    var s2 := s1.(world := s1.world.(deploys := map[0 := DeployTask(x, 0, t, id, det, PuttingRecord)]));
    Stay(hash, CarefulFor(id), s);
    Acts(hash, id, s, s, UserDeploy(x, t, id, det));
    Serves(hash, id, s, s1, 0);
    assert NextDeploy(s1.world, 0) == s2.world;
    Serves(hash, id, s, s2, 0);
    var s3 := s2.(world := NextDeploy(s2.world, 0));
    Serves(hash, id, s, s3, 0);
    assert NextDeploy(s3.world, 0).deploys == map[0 := DeployTask(x, 0, t, id, det, PuttingLeased)];
    assert s3.(world := NextDeploy(s3.world, 0)) == HalfDeployed(s, x, t, id, det);
  }

  // A recover event finds a record without a liveness key, and y is picked as the target.
  function Picked(s: State, k: NodeId, r: ProtocolInfo, y: string): State {
    s.(dispatches := s.dispatches[k := Dispatch(r, y, 0, Listing)])
  }

  // From the start of a dispatch of r to the choice of y.
  lemma Chooses(hash: string -> nat, s: State, k: NodeId, r: ProtocolInfo, y: string, recovering: bool)
    requires CanBegin(hash, s, k, r, recovering) && (recovering ==> r !in s.world.store.leased)
    requires y in s.world.store.up
    ensures Reaches(hash, CarefulFor(r.id), Apply(hash, s, Begin(k, r, recovering)), Picked(s, k, r, y))
  {
    var ok := CarefulFor(r.id);
    var s1 := Apply(hash, s, Begin(k, r, recovering));
    Stay(hash, ok, s1);
    var s2 := s1;
    if recovering {
      Then(hash, ok, s1, s1, Advance(k, Confirm));
      s2 := Apply(hash, s1, Advance(k, Confirm));
    }
    Then(hash, ok, s1, s2, Advance(k, Choose(y)));
    assert Apply(hash, s2, Advance(k, Choose(y))) == Picked(s, k, r, y);
  }

  // A coordinator that sees only itself owns everything, and may begin if nobody else dispatches.
  lemma AloneOwns(c: NodeInfo, h: nat)
    ensures Owns([c], c.Id(), h) && InView([c], c.Id())
  {}

  lemma Picks(hash: string -> nat, s0: State, s: State, c: NodeInfo, r: ProtocolInfo, y: string, recovering: bool)
    requires Reaches(hash, CarefulFor(r.id), s0, s)
    requires c.Id() in s.views && s.views[c.Id()] == [c] && s.dispatches == map[]
    requires r in s.world.store.records && y in s.world.store.up
    requires if recovering then r !in s.world.store.leased else r in s.world.deleted
    ensures Reaches(hash, CarefulFor(r.id), s0, Picked(s, c.Id(), r, y))
  {
    AloneOwns(c, hash(r.id));
    var ok, st := CarefulFor(r.id), Begin(c.Id(), r, recovering);
    Then(hash, ok, s0, s, st);
    Chooses(hash, s, c.Id(), r, y, recovering);
    Reached(hash, ok, s0, Apply(hash, s, st), Picked(s, c.Id(), r, y));
  }

  // The common start of the runs: a half-finished deploy at x, and a dispatch of its record to y.
  ghost function Prepared(c: NodeInfo, d: NodeInfo, v: seq<NodeInfo>, x: string, y: string, t: string, phase: Phase,
                          id: string, det: Detail): State {
    Picked(HalfDeployed(Booted(c, d, v, x, y, t, phase), x, t, id, det), c.Id(), ProtocolInfo(x, t, id), y)
  }

  lemma Prepares(hash: string -> nat, c: NodeInfo, d: NodeInfo, v: seq<NodeInfo>, x: string, y: string, t: string,
                 phase: Phase, id: string, det: Detail)
    requires x != y && c.Id() != d.Id() && !phase.Granted?
    ensures Init(Start(c, d, v))
    ensures Reaches(hash, CarefulFor(id), Start(c, d, v), Prepared(c, d, v, x, y, t, phase, id, det))
  {
    var ok, s := CarefulFor(id), Booted(c, d, v, x, y, t, phase);
    var half := HalfDeployed(s, x, t, id, det);
    Boots(hash, c, d, v, x, y, t, phase, id);
    DeploysHalf(hash, s, x, t, id, det);
    Reached(hash, ok, Start(c, d, v), s, half);
    Picks(hash, Start(c, d, v), half, c, ProtocolInfo(x, t, id), y, true);
  }

  // The end of the runs: the dispatch deletes its record, the only one.
  lemma RemovesLast(hash: string -> nat, s: State, k: NodeId) returns (after: State)
    requires k in s.dispatches && s.dispatches[k].pc.Removing?
    requires s.dispatches[k].target != s.dispatches[k].rec.addr && s.world.store.records == {s.dispatches[k].rec}
    ensures Reaches(hash, CarefulFor(s.dispatches[k].rec.id), s, after) && after.world.store.records == {}
  {
    var ok := CarefulFor(s.dispatches[k].rec.id);
    Stay(hash, ok, s);
    after := Apply(hash, s, Advance(k, Remove));
    Then(hash, ok, s, s, Advance(k, Remove));
  }

  // ---------------------------------------------------------------- the witness

  /**
   The witness is the record itself: the deploy at x completes while the dispatch is under way, the
   dispatch finds the id alive at x, and deletes the only record because it had picked y.
   */
  lemma OwnWitnessLoses(hash: string -> nat, c: NodeInfo, d: NodeInfo, v: seq<NodeInfo>, x: string, y: string,
                        t: string, id: string, det: Detail)
    returns (slip: State, after: State)
    requires x != y && c.Id() != d.Id()
    ensures LosesBy(hash, id, Start(c, d, v), slip, Advance(c.Id(), Probe(x)), after)
    ensures slip.dispatches[c.Id()].rec.addr == x && slip.world.removed == {}
  {
    var r, k, ok, s0 := ProtocolInfo(x, t, id), c.Id(), CarefulFor(id), Start(c, d, v);
    var s1 := Prepared(c, d, v, x, y, t, Ready, id, det);
    Prepares(hash, c, d, v, x, y, t, Ready, id, det);
    var s2 := Apply(hash, s1, Container(DeployStep(0)));
    Then(hash, ok, s0, s1, Container(DeployStep(0)));
    assert s2.world.store.leased == map[r := 0] && s2.world.store.records == {r};
    slip := Apply(hash, s2, Advance(k, ListAlive));
    Then(hash, ok, s0, s2, Advance(k, ListAlive));
    assert x in slip.dispatches[k].pc.todo;
    after := RemovesLast(hash, Apply(hash, slip, Advance(k, Probe(x))), k);
    assert r in slip.world.store.records;
  }

  // ---------------------------------------------------------------- the target's answer

  // A dispatch that has found nothing alive asks its target to deploy.
  ghost function Asked(s: State, k: NodeId): State
    requires k in s.dispatches && s.dispatches[k].rec.id in s.world.store.infos
    requires s.dispatches[k].target in s.world.processes
  {
    var e := s.dispatches[k];
    State(StartDeploy(s.world, e.target, e.rec.ptype, e.rec.id, s.world.store.infos[e.rec.id]),
          s.dispatches[k := e.(pc := Waiting(s.world.nextTask))], s.views)
  }

  lemma Asks(hash: string -> nat, id: string, s0: State, s: State, k: NodeId)
    requires Reaches(hash, CarefulFor(id), s0, s)
    requires k in s.dispatches && s.dispatches[k].pc.Listing? && s.dispatches[k].rec.id in s.world.store.infos
    requires s.dispatches[k].target in s.world.processes
    ensures Reaches(hash, CarefulFor(id), s0, Asked(s, k))
  {
    var ok := CarefulFor(id);
    Then(hash, ok, s0, s, Advance(k, ListAlive));
    var s1 := Apply(hash, s, Advance(k, ListAlive));
    Then(hash, ok, s0, s1, Advance(k, EndProbes));
    var s2 := Apply(hash, s1, Advance(k, EndProbes));
    Then(hash, ok, s0, s2, Advance(k, Redeploy));
    assert Apply(hash, s2, Advance(k, Redeploy)) == Asked(s, k);
  }

  // Collecting the answer of a doubtful process loses the last record.
  lemma CollectLoses(hash: string -> nat, id: string, start: State, slip: State, k: NodeId) returns (after: State)
    requires Init(start) && Reaches(hash, CarefulFor(id), start, slip)
    requires k in slip.dispatches && slip.dispatches[k].pc.Waiting? && slip.dispatches[k].count == 0
    requires var e := slip.dispatches[k];
             && e.rec.id == id && e.target != e.rec.addr && slip.world.store.records == {e.rec}
             && HasReplied(slip.world, e.pc.task) && Doubtful(slip.world, slip.world.deploys[e.pc.task].lease, id)
    ensures LosesBy(hash, id, start, slip, Advance(k, Collect), after)
  {
    assert slip.dispatches[k].rec in slip.world.store.records;
    after := RemovesLast(hash, Apply(hash, slip, Advance(k, Collect)), k);
  }

  /**
   The target answers without writing: y has put its node key but has not subscribed yet, so it
   registers the id and publishes to nobody, and the old record is deleted on its answer.
   */
  lemma EarlyTargetLoses(hash: string -> nat, c: NodeInfo, d: NodeInfo, v: seq<NodeInfo>, x: string, y: string,
                         t: string, id: string, det: Detail)
    returns (slip: State, after: State)
    requires x != y && c.Id() != d.Id()
    ensures LosesBy(hash, id, Start(c, d, v), slip, Advance(c.Id(), Collect), after)
    ensures y in slip.world.processes && slip.world.processes[y].phase.Announced? && slip.world.removed == {}
  {
    var k, s0, s1 := c.Id(), Start(c, d, v), Prepared(c, d, v, x, y, t, Announced, id, det);
    Prepares(hash, c, d, v, x, y, t, Announced, id, det);
    Asks(hash, id, s0, s1, k);
    var s2 := Asked(s1, k);
    assert s2.world.deploys[1] == DeployTask(y, 1, t, id, det, LookingUp);
    slip := s2.(world := Answered(s2.world, 1));
    DeployRuns(hash, CarefulFor(id), s2, 1);
    Reached(hash, CarefulFor(id), s0, s2, slip);
    assert (1, id) in slip.world.unwritten;
    after := CollectLoses(hash, id, s0, slip, k);
  }

  /** The target has subscribed, but its put of the record fails; it registers the id all the same. */
  lemma FailedPutLoses(hash: string -> nat, c: NodeInfo, d: NodeInfo, v: seq<NodeInfo>, x: string, y: string,
                       t: string, id: string, det: Detail)
    returns (slip: State, after: State)
    requires x != y && c.Id() != d.Id()
    ensures LosesBy(hash, id, Start(c, d, v), slip, Advance(c.Id(), Collect), after)
    ensures y in slip.world.processes && slip.world.processes[y].phase.Ready? && slip.world.removed == {}
  {
    var k, s0, s1, ok := c.Id(), Start(c, d, v), Prepared(c, d, v, x, y, t, Ready, id, det), CarefulFor(id);
    Prepares(hash, c, d, v, x, y, t, Ready, id, det);
    Asks(hash, id, s0, s1, k);
    var s2 := Asked(s1, k);
    assert s2.world.deploys[1] == DeployTask(y, 1, t, id, det, LookingUp);
    var s3 := Apply(hash, s2, Container(DeployStep(1)));
    Then(hash, ok, s0, s2, Container(DeployStep(1)));
    assert s3.world.deploys[1].pc.PuttingRecord?;
    var s4 := Apply(hash, s3, Container(DeployFails(1)));
    Then(hash, ok, s0, s3, Container(DeployFails(1)));
    slip := Apply(hash, s4, Container(DeployStep(1)));
    Then(hash, ok, s0, s4, Container(DeployStep(1)));
    assert (1, id) in slip.world.unwritten;
    after := CollectLoses(hash, id, s0, slip, k);
  }

  // ---------------------------------------------------------------- after an earlier dispatch

  // Both deploys are complete: the user's at x and the dispatch's at y.
  function BothUp(s: State, c: NodeInfo, x: string, y: string, t: string, id: string, det: Detail): State {
    var rx, ry, w := ProtocolInfo(x, t, id), ProtocolInfo(y, t, id), Wrapper(t, det);
    State(s.world.(
            store := s.world.store.(records := {rx, ry}, infos := map[id := det], leased := map[rx := 0, ry := 1]),
            processes := map[x := Process(0, Ready, {t}, map[id := w]), y := Process(1, Ready, {t}, map[id := w])],
            deploys := map[0 := DeployTask(x, 0, t, id, det, Replied(true)),
                           1 := DeployTask(y, 1, t, id, det, Replied(true))],
            nextTask := 2),
          map[c.Id() := Dispatch(rx, y, 0, Waiting(1))], s.views)
  }

  // The dispatch has deleted the record at x. What x holds counts as removed.
  function Moved(s: State, c: NodeInfo, x: string, y: string, t: string, id: string, det: Detail): State {
    var rx, ry, b := ProtocolInfo(x, t, id), ProtocolInfo(y, t, id), BothUp(s, c, x, y, t, id, det);
    b.(world := b.world.(store := b.world.store.(records := {ry}), deleted := {rx}, removed := {(0, id)}),
       dispatches := map[c.Id() := Dispatch(rx, y, 0, Checking(y, true))])
  }

  // The user's deploy is complete, and the dispatch has asked y.
  function FirstUp(s: State, c: NodeInfo, x: string, y: string, t: string, id: string, det: Detail): State {
    var rx := ProtocolInfo(x, t, id);
    State(s.world.(
            store := s.world.store.(records := {rx}, infos := map[id := det], leased := map[rx := 0]),
            processes := map[x := Process(0, Ready, {t}, map[id := Wrapper(t, det)]),
                             y := Process(1, Ready, {t}, map[])],
            deploys := map[0 := DeployTask(x, 0, t, id, det, Replied(true)),
                           1 := DeployTask(y, 1, t, id, det, LookingUp)],
            nextTask := 2),
          map[c.Id() := Dispatch(rx, y, 0, Waiting(1))], s.views)
  }

  // The last put of deploy k and its registration.
  function Completed(w: World, k: nat): World
    requires k in w.deploys && w.deploys[k].addr in w.processes
  {
    var t := w.deploys[k];
    var p := w.processes[t.addr];
    w.(store := w.store.PutLeased(t.Info(), t.lease), deploys := w.deploys[k := t.(pc := Replied(true))],
    processes := w.processes[t.addr := p.(manager := p.manager[t.id := Wrapper(t.ptype, t.detail)])])
  }

  lemma Completes(hash: string -> nat, id: string, s0: State, s: State, k: nat)
    requires Reaches(hash, CarefulFor(id), s0, s) && CanAct(s.world, DeployStep(k))
    requires var t := s.world.deploys[k]; t.pc.PuttingLeased? && t.id !in s.world.processes[t.addr].manager
    ensures Reaches(hash, CarefulFor(id), s0, s.(world := Completed(s.world, k)))
  {
    var s1 := s.(world := NextDeploy(s.world, k));
    Serves(hash, id, s0, s, k);
    Serves(hash, id, s0, s1, k);
    assert NextDeploy(s1.world, k).deploys == Completed(s.world, k).deploys;
  }

  lemma CompletesFirst(hash: string -> nat, c: NodeInfo, d: NodeInfo, v: seq<NodeInfo>, x: string, y: string,
                       t: string, id: string, det: Detail)
    requires x != y && c.Id() != d.Id()
    ensures var b := Booted(c, d, v, x, y, t, Ready);
            Init(Start(c, d, v)) && Reaches(hash, CarefulFor(id), Start(c, d, v), FirstUp(b, c, x, y, t, id, det))
  {
    var s0, p := Start(c, d, v), Prepared(c, d, v, x, y, t, Ready, id, det);
    Prepares(hash, c, d, v, x, y, t, Ready, id, det);
    Asks(hash, id, s0, p, c.Id());
    Completes(hash, id, s0, Asked(p, c.Id()), 0);
    FirstIsUp(c, d, v, x, y, t, id, det);
  }

  lemma FirstIsUp(c: NodeInfo, d: NodeInfo, v: seq<NodeInfo>, x: string, y: string, t: string, id: string, det: Detail)
    requires x != y
    ensures var s := Asked(Prepared(c, d, v, x, y, t, Ready, id, det), c.Id());
            s.(world := Completed(s.world, 0)) == FirstUp(Booted(c, d, v, x, y, t, Ready), c, x, y, t, id, det)
  {}

  lemma CompletesSecond(s: State, c: NodeInfo, x: string, y: string, t: string, id: string, det: Detail)
    requires x != y && s.world.store.leases == {0, 1}
    ensures var f := FirstUp(s, c, x, y, t, id, det);
            f.(world := Answered(f.world, 1)) == BothUp(s, c, x, y, t, id, det)
  {}

  lemma CompletesBoth(hash: string -> nat, c: NodeInfo, d: NodeInfo, v: seq<NodeInfo>, x: string, y: string,
                      t: string, id: string, det: Detail)
    requires x != y && c.Id() != d.Id()
    ensures var b := Booted(c, d, v, x, y, t, Ready);
            Init(Start(c, d, v)) && Reaches(hash, CarefulFor(id), Start(c, d, v), BothUp(b, c, x, y, t, id, det))
  {
    var b := Booted(c, d, v, x, y, t, Ready);
    var f := FirstUp(b, c, x, y, t, id, det);
    CompletesFirst(hash, c, d, v, x, y, t, id, det);
    DeployRuns(hash, CarefulFor(id), f, 1);
    Reached(hash, CarefulFor(id), Start(c, d, v), f, f.(world := Answered(f.world, 1)));
    CompletesSecond(b, c, x, y, t, id, det);
  }

  lemma GarbageOfFirst(s: State, c: NodeInfo, x: string, y: string, t: string, id: string, det: Detail)
    requires x != y && s.world.removed == {} && s.world.deleted == {}
    ensures DeleteGarbage(BothUp(s, c, x, y, t, id, det).world, ProtocolInfo(x, t, id)) ==
            Moved(s, c, x, y, t, id, det).world
  {}

  lemma Moves(hash: string -> nat, c: NodeInfo, d: NodeInfo, v: seq<NodeInfo>, x: string, y: string, t: string,
              id: string, det: Detail)
    requires x != y && c.Id() != d.Id()
    ensures var b := Booted(c, d, v, x, y, t, Ready);
            Init(Start(c, d, v)) && Reaches(hash, CarefulFor(id), Start(c, d, v), Moved(b, c, x, y, t, id, det))
  {
    var k, s0, b, rx := c.Id(), Start(c, d, v), Booted(c, d, v, x, y, t, Ready), ProtocolInfo(x, t, id);
    var s := BothUp(b, c, x, y, t, id, det);
    CompletesBoth(hash, c, d, v, x, y, t, id, det);
    var e := Dispatch(rx, y, 0, Removing(y, true));
    Advances(hash, id, s0, s, k, Collect, s.world, e);
    GarbageOfFirst(b, c, x, y, t, id, det);
    var s1 := State(s.world, s.dispatches[k := e], s.views);
    var m := Moved(b, c, x, y, t, id, det);
    Advances(hash, id, s0, s1, k, Remove, m.world, Dispatch(rx, y, 0, Checking(y, true)));
    assert s1.dispatches[k := Dispatch(rx, y, 0, Checking(y, true))] == m.dispatches;
  }

  // ---------------------------------------------------------------- a witness that is being removed

  // The first dispatch has ended, and the lease of y has expired.
  function SecondGone(s: State, x: string, y: string, t: string, id: string): State {
    State(s.world.(store := s.world.store.(leases := {0}, leased := s.world.store.leased - {ProtocolInfo(y, t, id)},
                                           up := map[x := 0]),
                   deleted := {ProtocolInfo(x, t, id), ProtocolInfo(y, t, id)}, gone := {y}),
          map[], s.views)
  }

  lemma LeasedAfterExpiry(store: Store, x: string, y: string, t: string, id: string)
    requires x != y
    requires var rx, ry := ProtocolInfo(x, t, id), ProtocolInfo(y, t, id);
             store.leased == map[rx := 0, ry := 1] || store.leased == map[ry := 1]
    ensures store.Expire(1).leased == store.leased - {ProtocolInfo(y, t, id)}
    ensures (set r | r in store.leased && store.leased[r] == 1) == {ProtocolInfo(y, t, id)}
  {
    assert ProtocolInfo(y, t, id) in store.leased && store.leased[ProtocolInfo(y, t, id)] == 1;
  }

  lemma UpAfterExpiry(store: Store, x: string, y: string)
    requires x != y && store.up == map[x := 0, y := 1]
    ensures store.Expire(1).up == map[x := 0]
    ensures (set a | a in store.up && store.up[a] == 1) == {y}
  {
    assert y in store.up && store.up[y] == 1;
  }

  lemma ExpiresSecond(s: State, x: string, y: string, t: string, id: string)
    requires x != y && s.dispatches == map[] && s.world.store.up == map[x := 0, y := 1]
    requires s.world.store.leases == {0, 1} && s.world.gone == {} && s.world.deleted == {ProtocolInfo(x, t, id)}
    requires var rx, ry := ProtocolInfo(x, t, id), ProtocolInfo(y, t, id);
             s.world.store.leased == map[rx := 0, ry := 1] || s.world.store.leased == map[ry := 1]
    ensures CanAct(s.world, ExpireLease(1))
    ensures s.(world := Perform(s.world, ExpireLease(1))) == SecondGone(s, x, y, t, id)
  {
    LeasedAfterExpiry(s.world.store, x, y, t, id);
    UpAfterExpiry(s.world.store, x, y);
    assert s.world.store.leases - {1} == {0};
  }

  lemma BreaksOff(hash: string -> nat, id: string, s0: State, s: State, k: NodeId, d: Dispatch)
    requires Reaches(hash, CarefulFor(id), s0, s) && s.dispatches == map[k := d]
    ensures Reaches(hash, CarefulFor(id), s0, s.(dispatches := map[]))
  {
    Then(hash, CarefulFor(id), s0, s, Advance(k, Abort));
    assert s.dispatches - {k} == map[];
  }

  /**
   The witness is going to be undeployed: a dispatch has moved the id from x to y and deleted the
   record at x, but broken off before its undeploy request. When y dies, the next dispatch finds
   the id alive at x, where it has no record any more, and deletes the only one.
   */
  lemma RemovedWitnessLoses(hash: string -> nat, c: NodeInfo, d: NodeInfo, v: seq<NodeInfo>, x: string, y: string,
                            t: string, id: string, det: Detail)
    returns (slip: State, after: State)
    requires x != y && c.Id() != d.Id()
    ensures LosesBy(hash, id, Start(c, d, v), slip, Advance(c.Id(), Probe(x)), after)
    ensures slip.dispatches[c.Id()].rec.addr == y && slip.world.unwritten == {}
  {
    var k, s0, ok, ry := c.Id(), Start(c, d, v), CarefulFor(id), ProtocolInfo(y, t, id);
    var m := Moved(Booted(c, d, v, x, y, t, Ready), c, x, y, t, id, det);
    Moves(hash, c, d, v, x, y, t, id, det);
    BreaksOff(hash, id, s0, m, k, m.dispatches[k]);
    var s1 := m.(dispatches := map[]);
    ExpiresSecond(s1, x, y, t, id);
    Acts(hash, id, s0, s1, ExpireLease(1));
    var s2 := SecondGone(s1, x, y, t, id);
    Picks(hash, s0, s2, c, ry, x, false);
    var s3, e := Picked(s2, k, ry, x), Dispatch(ry, x, 0, Probing({x}));
    assert s2.world.store.up.Keys == {x};
    Advances(hash, id, s0, s3, k, ListAlive, s3.world, e);
    slip := State(s3.world, s3.dispatches[k := e], s3.views);
    assert ProtocolInfo(x, t, id) in slip.world.store.leased;
    assert ry in slip.world.store.records;
    after := RemovesLast(hash, Apply(hash, slip, Advance(k, Probe(x))), k);
  }

  // ---------------------------------------------------------------- a target that had the id before

  // After the record at x, the dispatch has had x undeploy the id, and found y running.
  function Undeployed(s: State, x: string, y: string, t: string, id: string): State {
    State(s.world.(store := s.world.store.(leased := map[ProtocolInfo(y, t, id) := 1]),
                   undeploys := map[2 := UndeployTask(x, 0, t, id, Stopped)], nextTask := 3),
          map[], s.views)
  }

  lemma AsksUndeploy(hash: string -> nat, c: NodeInfo, d: NodeInfo, v: seq<NodeInfo>, x: string, y: string,
                     t: string, id: string, det: Detail)
    returns (s: State)
    requires x != y && c.Id() != d.Id()
    ensures Reaches(hash, CarefulFor(id), Start(c, d, v), s)
    ensures var m := Moved(Booted(c, d, v, x, y, t, Ready), c, x, y, t, id, det);
            s == State(m.world.(undeploys := map[2 := UndeployTask(x, 0, t, id, DroppingRecord)], nextTask := 3),
                       map[c.Id() := Dispatch(ProtocolInfo(x, t, id), y, 0, Polling)], m.views)
  {
    var k, s0, rx := c.Id(), Start(c, d, v), ProtocolInfo(x, t, id);
    var m := Moved(Booted(c, d, v, x, y, t, Ready), c, x, y, t, id, det);
    Moves(hash, c, d, v, x, y, t, id, det);
    var e1, e2 := Dispatch(rx, y, 0, Undeploying(y, true)), Dispatch(rx, y, 0, Polling);
    Advances(hash, id, s0, m, k, CheckUp, m.world, e1);
    var s1 := State(m.world, m.dispatches[k := e1], m.views);
    var w := m.world.(undeploys := map[2 := UndeployTask(x, 0, t, id, DroppingRecord)], nextTask := 3);
    assert LeasesOf(m.world, x, id) <= {(0, id)};
    assert m.world.removed + LeasesOf(m.world, x, id) == m.world.removed;
    Advances(hash, id, s0, s1, k, SendUndeploy, w, e2);
    s := State(w, s1.dispatches[k := e2], s1.views);
    assert s.dispatches == map[k := e2];
  }

  // The two deletes of undeploy task 2, of which the first finds the record gone already.
  lemma UndeployWorlds(w: World, x: string, y: string, t: string, id: string)
    requires x != y && w.undeploys == map[2 := UndeployTask(x, 0, t, id, DroppingRecord)]
    requires var rx, ry := ProtocolInfo(x, t, id), ProtocolInfo(y, t, id);
             && w.store.records == {ry} && w.store.leased == map[rx := 0, ry := 1] && w.deleted == {rx}
    ensures var w1 := w.(undeploys := map[2 := UndeployTask(x, 0, t, id, DroppingLeased)]);
            && NextUndeploy(w, 2) == w1
            && NextUndeploy(w1, 2) ==
               w.(store := w.store.(leased := map[ProtocolInfo(y, t, id) := 1]),
                  undeploys := map[2 := UndeployTask(x, 0, t, id, Stopped)])
  {}

  lemma UndeploysFirst(hash: string -> nat, c: NodeInfo, d: NodeInfo, v: seq<NodeInfo>, x: string, y: string,
                       t: string, id: string, det: Detail)
    requires x != y && c.Id() != d.Id()
    ensures var m := Moved(Booted(c, d, v, x, y, t, Ready), c, x, y, t, id, det);
            Reaches(hash, CarefulFor(id), Start(c, d, v), Undeployed(m, x, y, t, id))
  {
    var k, s0 := c.Id(), Start(c, d, v);
    var m := Moved(Booted(c, d, v, x, y, t, Ready), c, x, y, t, id, det);
    var s := AsksUndeploy(hash, c, d, v, x, y, t, id, det);
    UndeployWorlds(s.world, x, y, t, id);
    Acts(hash, id, s0, s, UndeployStep(2));
    var s1 := s.(world := NextUndeploy(s.world, 2));
    Acts(hash, id, s0, s1, UndeployStep(2));
    var s2 := s1.(world := NextUndeploy(s1.world, 2));
    Polled(hash, id, s0, s2, k);
  }

  // The poll of a target that runs the id ends the dispatch, the only one.
  lemma Polled(hash: string -> nat, id: string, s0: State, s: State, k: NodeId)
    requires Reaches(hash, CarefulFor(id), s0, s) && k in s.dispatches && s.dispatches.Keys == {k}
    requires s.dispatches[k].pc.Polling?
    requires Running(s.world, s.dispatches[k].target, s.dispatches[k].rec.ptype, s.dispatches[k].rec.id)
    ensures Reaches(hash, CarefulFor(id), s0, s.(dispatches := map[]))
  {
    Then(hash, CarefulFor(id), s0, s, Advance(k, Poll));
    assert s.dispatches - {k} == map[];
  }

  /**
   The target had the id before: a dispatch moved it from x to y and had x undeploy it, which keeps
   the manager's entry. When y dies and x is picked, x answers with success and writes nothing.
   */
  lemma UsedTargetLoses(hash: string -> nat, c: NodeInfo, d: NodeInfo, v: seq<NodeInfo>, x: string, y: string,
                        t: string, id: string, det: Detail)
    returns (slip: State, after: State)
    requires x != y && c.Id() != d.Id()
    ensures LosesBy(hash, id, Start(c, d, v), slip, Advance(c.Id(), Collect), after)
    ensures slip.world.unwritten == {}
  {
    var k, s0, ry := c.Id(), Start(c, d, v), ProtocolInfo(y, t, id);
    var m := Moved(Booted(c, d, v, x, y, t, Ready), c, x, y, t, id, det);
    var s1 := Undeployed(m, x, y, t, id);
    Boots(hash, c, d, v, x, y, t, Ready, id);
    UndeploysFirst(hash, c, d, v, x, y, t, id, det);
    ExpiresSecond(s1, x, y, t, id);
    Acts(hash, id, s0, s1, ExpireLease(1));
    var s2 := SecondGone(s1, x, y, t, id);
    Picks(hash, s0, s2, c, ry, x, false);
    var s3 := Picked(s2, k, ry, x);
    Asks(hash, id, s0, s3, k);
    var s4 := Asked(s3, k);
    slip := s4.(world := Answered(s4.world, 3));
    DeployRuns(hash, CarefulFor(id), s4, 3);
    Reached(hash, CarefulFor(id), s0, s4, slip);
    assert (0, id) in slip.world.removed;
    after := CollectLoses(hash, id, s0, slip, k);
  }

  // ---------------------------------------------------------------- a stop

  // The user's deploy at x is complete and nothing else has happened.
  function Deployed(s: State, x: string, t: string, id: string, det: Detail): State {
    s.(world := s.world.(
       store := s.world.store.(records := {ProtocolInfo(x, t, id)}, infos := map[id := det],
                               leased := map[ProtocolInfo(x, t, id) := 0]),
       processes := map[x := Process(0, Ready, {t}, map[id := Wrapper(t, det)])],
       deploys := map[0 := DeployTask(x, 0, t, id, det, Replied(true))], nextTask := 1))
  }

  lemma Deploys(hash: string -> nat, c: NodeInfo, d: NodeInfo, v: seq<NodeInfo>, x: string, t: string, id: string,
                det: Detail)
    ensures Init(Start(c, d, v))
    ensures Reaches(hash, CarefulFor(id), Start(c, d, v), Deployed(BootedFirst(c, d, v, x, t), x, t, id, det))
  {
    var s0, b := Start(c, d, v), BootedFirst(c, d, v, x, t);
    var half, up := HalfDeployed(b, x, t, id, det), Deployed(b, x, t, id, det);
    BootsFirst(hash, c, d, v, x, t, id);
    DeploysHalf(hash, b, x, t, id, det);
    Reached(hash, CarefulFor(id), s0, b, half);
    Completes(hash, id, s0, half, 0);
    var w := Completed(half.world, 0);
    assert w.deploys == up.world.deploys && w.processes == up.world.processes;
    assert w.store.leased == up.world.store.leased;
    assert half.(world := w) == up;
  }

  /** A stop, be it a user's undeploy or the shutdown of the container, deletes the record. */
  lemma StopLoses(hash: string -> nat, c: NodeInfo, d: NodeInfo, v: seq<NodeInfo>, x: string, t: string, id: string,
                  det: Detail)
    returns (slip: State, after: State)
    ensures LosesBy(hash, id, Start(c, d, v), slip, Container(Stop(x, id)), after)
  {
    slip := Deployed(BootedFirst(c, d, v, x, t), x, t, id, det);
    Deploys(hash, c, d, v, x, t, id, det);
    assert ProtocolInfo(x, t, id) in slip.world.store.records;
    var s1 := Apply(hash, slip, Container(Stop(x, id)));
    Stay(hash, CarefulFor(id), s1);
    Acts(hash, id, s1, s1, UndeployStep(1));
    after := s1.(world := NextUndeploy(s1.world, 1));
    assert after.world.store.records == {};
  }

  // ---------------------------------------------------------------- two dispatchers

  // A second, also half-finished deploy of the id, at y.
  function SecondHalf(s: State, x: string, y: string, t: string, id: string, det: Detail): State {
    s.(world := s.world.(
       store := s.world.store.(records := {ProtocolInfo(x, t, id), ProtocolInfo(y, t, id)}),
       deploys := s.world.deploys[1 := DeployTask(y, 1, t, id, det, PuttingInfo)], nextTask := 2))
  }

  lemma SecondWorlds(w: World, x: string, y: string, t: string, id: string, det: Detail)
    requires x != y && 0 in w.deploys && w.nextTask == 1 && w.store.records == {ProtocolInfo(x, t, id)}
    requires y in w.processes && w.processes[y] == Process(1, Ready, {t}, map[])
    ensures var w1 := StartDeploy(w, y, t, id, det);
            var w2 := w1.(deploys := w.deploys[1 := DeployTask(y, 1, t, id, det, PuttingRecord)]);
            && NextDeploy(w1, 1) == w2
            && NextDeploy(w2, 1) ==
               w.(store := w.store.(records := {ProtocolInfo(x, t, id), ProtocolInfo(y, t, id)}),
                  deploys := w.deploys[1 := DeployTask(y, 1, t, id, det, PuttingInfo)], nextTask := 2)
  {}

  lemma DeploysSecond(hash: string -> nat, c: NodeInfo, d: NodeInfo, v: seq<NodeInfo>, x: string, y: string,
                      t: string, id: string, det: Detail)
    requires x != y && c.Id() != d.Id()
    ensures var s := Prepared(c, d, v, x, y, t, Ready, id, det);
            Init(Start(c, d, v)) && Reaches(hash, CarefulFor(id), Start(c, d, v), SecondHalf(s, x, y, t, id, det))
  {
    var s0, s := Start(c, d, v), Prepared(c, d, v, x, y, t, Ready, id, det);
    Prepares(hash, c, d, v, x, y, t, Ready, id, det);
    SecondWorlds(s.world, x, y, t, id, det);
    Acts(hash, id, s0, s, UserDeploy(y, t, id, det));
    var s1 := s.(world := StartDeploy(s.world, y, t, id, det));
    Serves(hash, id, s0, s1, 1);
    var s2 := s1.(world := NextDeploy(s1.world, 1));
    Serves(hash, id, s0, s2, 1);
  }

  // Both coordinators wait for an answer: c for y about the record at x, d for x about that at y.
  ghost predicate BothWait(s: State, c: NodeId, d: NodeId, x: string, y: string, t: string, id: string, det: Detail) {
    && x != y && c != d
    && s.dispatches == map[c := Dispatch(ProtocolInfo(x, t, id), y, 0, Waiting(2)),
                           d := Dispatch(ProtocolInfo(y, t, id), x, 0, Waiting(3))]
    && 2 in s.world.deploys && s.world.deploys[2] == DeployTask(y, 1, t, id, det, LookingUp)
    && 3 in s.world.deploys && s.world.deploys[3] == DeployTask(x, 0, t, id, det, LookingUp)
    && s.world.processes == map[x := Process(0, Ready, {t}, map[]), y := Process(1, Ready, {t}, map[])]
    && s.world.store.records == {ProtocolInfo(x, t, id), ProtocolInfo(y, t, id)}
    && s.world.removed == {} && s.world.unwritten == {}
  }

  lemma BothReply(hash: string -> nat, s: State, c: NodeId, d: NodeId, x: string, y: string, t: string,
                  id: string, det: Detail)
    returns (s2: State)
    requires BothWait(s, c, d, x, y, t, id, det)
    ensures Reaches(hash, CarefulFor(id), s, s2) && s2.dispatches == s.dispatches
    ensures HasReplied(s2.world, 2) && HasReplied(s2.world, 3)
    ensures s2.world.store.records == {ProtocolInfo(x, t, id), ProtocolInfo(y, t, id)}
    ensures s2.world.removed == {} && s2.world.unwritten == {}
  {
    var ok := CarefulFor(id);
    var s1 := s.(world := Answered(s.world, 2));
    DeployRuns(hash, ok, s, 2);
    assert s1.world.store.records == {ProtocolInfo(x, t, id), ProtocolInfo(y, t, id)};
    s2 := s1.(world := Answered(s1.world, 3));
    DeployRuns(hash, ok, s1, 3);
    Reached(hash, ok, s, s1, s2);
  }

  lemma BothDelete(hash: string -> nat, s0: State, s: State, c: NodeId, d: NodeId, x: string, y: string, t: string,
                   id: string, det: Detail)
    returns (after: State)
    requires Reaches(hash, CarefulFor(id), s0, s) && BothWait(s, c, d, x, y, t, id, det)
    ensures Reaches(hash, CarefulFor(id), s0, after) && after.world.store.records == {}
  {
    var ok, rx, ry := CarefulFor(id), ProtocolInfo(x, t, id), ProtocolInfo(y, t, id);
    var s2 := BothReply(hash, s, c, d, x, y, t, id, det);
    Reached(hash, ok, s0, s, s2);
    var e, f := Dispatch(rx, y, 0, Removing(y, true)), Dispatch(ry, x, 0, Removing(x, true));
    Advances(hash, id, s0, s2, c, Collect, s2.world, e);
    var s3 := State(s2.world, s2.dispatches[c := e], s2.views);
    Advances(hash, id, s0, s3, d, Collect, s3.world, f);
    var s4 := State(s3.world, s3.dispatches[d := f], s3.views);
    Advances(hash, id, s0, s4, c, Remove, DeleteGarbage(s4.world, rx), Dispatch(rx, y, 0, Checking(y, true)));
    var s5 := State(DeleteGarbage(s4.world, rx), s4.dispatches[c := Dispatch(rx, y, 0, Checking(y, true))], s4.views);
    assert s5.world.store.records == {ry};
    after := RemovesLast(hash, s5, d);
    Reached(hash, ok, s0, s5, after);
  }

  lemma SecondWaits(hash: string -> nat, c: NodeInfo, d: NodeInfo, v: seq<NodeInfo>, x: string, y: string,
                    t: string, id: string, det: Detail)
    returns (s: State)
    requires x != y && c.Id() != d.Id() && Owns(v, d.Id(), hash(id))
    ensures var slip := SecondHalf(Prepared(c, d, v, x, y, t, Ready, id, det), x, y, t, id, det);
            && CanBegin(hash, slip, d.Id(), ProtocolInfo(y, t, id), true)
            && Reaches(hash, CarefulFor(id), Apply(hash, slip, Begin(d.Id(), ProtocolInfo(y, t, id), true)), s)
    ensures BothWait(s, c.Id(), d.Id(), x, y, t, id, det)
  {
    var rx, ry, k, l := ProtocolInfo(x, t, id), ProtocolInfo(y, t, id), c.Id(), d.Id();
    var slip := SecondHalf(Prepared(c, d, v, x, y, t, Ready, id, det), x, y, t, id, det);
    assert ry in slip.world.store.records && CanBegin(hash, slip, l, ry, true);
    Chooses(hash, slip, l, ry, x, true);
    var s0, s1 := Apply(hash, slip, Begin(l, ry, true)), Picked(slip, l, ry, x);
    Asks(hash, id, s0, s1, k);
    var s2 := Asked(s1, k);
    Asks(hash, id, s0, s2, l);
    s := Asked(s2, l);
    assert s.dispatches == map[k := Dispatch(rx, y, 0, Waiting(2)), l := Dispatch(ry, x, 0, Waiting(3))];
  }

  /**
   Two dispatchers: whatever the view of d, once d owns the id as well as c, one of them moves it
   from x to y, the other from y to x, and each deletes the record that the other relies on. The
   view may differ from that of c, or be the same without d in it.
   */
  lemma TwoDispatchersLose(hash: string -> nat, c: NodeInfo, d: NodeInfo, v: seq<NodeInfo>, x: string, y: string,
                           t: string, id: string, det: Detail)
    returns (slip: State, after: State)
    requires x != y && c.Id() != d.Id() && Owns(v, d.Id(), hash(id))
    ensures LosesBy(hash, id, Start(c, d, v), slip, Begin(d.Id(), ProtocolInfo(y, t, id), true), after)
    ensures slip.world.removed == {} && slip.world.unwritten == {}
  {
    var ry, l := ProtocolInfo(y, t, id), d.Id();
    slip := SecondHalf(Prepared(c, d, v, x, y, t, Ready, id, det), x, y, t, id, det);
    DeploysSecond(hash, c, d, v, x, y, t, id, det);
    var s := SecondWaits(hash, c, d, v, x, y, t, id, det);
    after := BothDelete(hash, Apply(hash, slip, Begin(l, ry, true)), s, c.Id(), l, x, y, t, id, det);
    assert ry in slip.world.store.records;
    assert slip.views[c.Id()] == [c] && slip.dispatches[c.Id()].rec.id == id;
    assert !InView([c], l);
  }
}
