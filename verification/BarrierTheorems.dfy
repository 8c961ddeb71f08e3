/** What every run of the startup barrier keeps. */
module BarrierTheorems {
  import opened Common
  import opened PendingNodes
  import opened StartupBarrier

  /** The daemon's pending and early-exited nodes are its own. */
  ghost predicate Own(nodeOf: map<NodeId, DaemonId>, d: DaemonId, p: Pending) {
    && (forall n :: n in p.localNodes ==> n in nodeOf && nodeOf[n] == d)
    && (forall n :: n in p.exited ==> n in nodeOf && nodeOf[n] == d)
  }

  /** Node `n` exited before it subscribed, as its daemon recorded. */
  ghost predicate EarlyExit(s: System, n: NodeId) {
    n in s.nodeOf && s.nodeOf[n] in s.daemons && n in s.daemons[s.nodeOf[n]].p.exited
  }

  ghost predicate DaemonInv(s: System, d: DaemonId)
    requires d in s.daemons
  {
    && DaemonOk(s.board, d, s.daemons[d])
    && s.daemons[d].p.external == Distributed(s.nodeOf)
    && Own(s.nodeOf, d, s.daemons[d].p)
  }

  ghost predicate Inv(s: System) {
    && s.daemons.Keys == s.nodeOf.Values
    && BoardOk(s.board, Distributed(s.nodeOf))
    && (forall d :: d in s.daemons ==> DaemonInv(s, d))
    && (forall n :: n in s.board.exited ==> EarlyExit(s, n))
  }

  lemma {:induction false} SingleOrNot(all: set<DaemonId>, d: DaemonId)
    requires d in all
    ensures |all| > 1 <==> exists e :: e in all && e != d
  {
    if |all| > 1 {
      assert |all - {d}| == |all| - 1;
      var e :| e in all - {d};
    }
    if e :| e in all && e != d {
      assert {d, e} <= all && |{d, e}| == 2;
      assert |all - {d}| == |all| - 1 && e in all - {d};
    }
  }

  lemma StartInv(nodeOf: map<NodeId, DaemonId>, dynamicNodes: set<NodeId>)
    ensures Inv(Start(nodeOf, dynamicNodes))
  {
    var s := Start(nodeOf, dynamicNodes);
    forall d | d in s.daemons ensures DaemonInv(s, d) {
      SingleOrNot(nodeOf.Values, d);
      if e :| e in nodeOf.Values && e != d {
        var n :| n in nodeOf && nodeOf[n] == e;
        assert s.daemons[d].p.external;
      }
      if n :| n in nodeOf && nodeOf[n] != d { assert nodeOf[n] in nodeOf.Values; }
    }
  }

  /** A step inside one daemon, which forgets no early exit. */
  lemma OneDaemonChanged(s: System, t: System, d: DaemonId)
    requires Inv(s) && d in s.daemons && d in t.daemons && t == s.(daemons := s.daemons[d := t.daemons[d]])
    requires DaemonInv(t, d) && Covers(t.daemons[d].p.exited, s.daemons[d].p.exited)
    ensures Inv(t)
  {
    hide DaemonOk, BoardOk, Own;
    forall e | e in t.daemons ensures DaemonInv(t, e) {
      assert DaemonInv(s, e);
    }
    forall n | n in t.board.exited ensures EarlyExit(t, n) {
      assert EarlyExit(s, n);
    }
  }

  lemma LocalEventKeepsOwn(s: System, step: Step)
    requires Enabled(s, step) && (step.Subscribe? || step.NodeStop? || step.StopDataflow?)
    requires Own(s.nodeOf, step.d, s.daemons[step.d].p)
    ensures var p, q := s.daemons[step.d].p, Do(s, step).daemons[step.d].p;
      Own(s.nodeOf, step.d, q) && Covers(q.exited, p.exited) && q.external == p.external
  {
  }

  lemma LocalEventKeeps(s: System, step: Step)
    requires Inv(s) && Enabled(s, step) && (step.Subscribe? || step.NodeStop? || step.StopDataflow?)
    ensures Inv(Do(s, step))
  {
    hide DaemonOk, BoardOk, Own, WithEffect;
    assert DaemonInv(s, step.d);
    AfterLocalEvent(s, step);
    LocalEventKeepsOwn(s, step);
    OneDaemonChanged(s, Do(s, step), step.d);
  }

  lemma ChannelStepKeeps(s: System, step: Step)
    requires Inv(s) && Enabled(s, step)
    requires step.Finish? || step.DaemonReceives? || step.LoseUp? || step.LoseDown?
    ensures Inv(Do(s, step))
  {
    hide BoardOk, Own, DaemonOk;
    assert DaemonInv(s, step.d);
    match step {
      case Finish(d) => AfterFinish(s.board, d, s.daemons[d]);
      case DaemonReceives(d) => AfterRelease(s.board, d, s.daemons[d]);
      case LoseUp(d, i) => AfterLoss(s.board, d, s.daemons[d], i);
      case LoseDown(d, i) => AfterLoss(s.board, d, s.daemons[d], i);
    }
    OwnDependsOn(s.nodeOf, step.d, s.daemons[step.d].p, Do(s, step).daemons[step.d].p);
    OneDaemonChanged(s, Do(s, step), step.d);
  }

  lemma OwnDependsOn(nodeOf: map<NodeId, DaemonId>, d: DaemonId, p: Pending, q: Pending)
    requires Own(nodeOf, d, p) && q.localNodes == p.localNodes && q.exited == p.exited
    ensures Own(nodeOf, d, q)
  {
  }

  lemma AfterFinish(b: Board, d: DaemonId, dm: Daemon)
    requires DaemonOk(b, d, dm) && dm.p.localNodes == {}
    ensures DaemonOk(b, d, dm.(done := true, up := dm.up + [Finished]))
  {
  }

  lemma AfterPop(b: Board, d: DaemonId, dm: Daemon)
    requires DaemonOk(b, d, dm) && dm.up != []
    ensures DaemonOk(b, d, dm.(up := dm.up[1..]))
    ensures dm.up[0].Report? ==> dm.p.localNodes == {} && dm.p.external && dm.up[0].exited == dm.p.exited
  {
  }

  lemma PopKeeps(s: System, d: DaemonId)
    requires Inv(s) && d in s.daemons && s.daemons[d].up != []
    ensures Inv(s.(daemons := s.daemons[d := s.daemons[d].(up := s.daemons[d].up[1..])]))
  {
    hide DaemonOk, BoardOk, Own;
    assert DaemonInv(s, d);
    AfterPop(s.board, d, s.daemons[d]);
    OneDaemonChanged(s, s.(daemons := s.daemons[d := s.daemons[d].(up := s.daemons[d].up[1..])]), d);
  }

  /** Daemons leave the dataflow. */
  lemma MembersShrinkKeeps(s: System, c: Board)
    requires Inv(s)
    requires c.members <= s.board.members && c.exited == s.board.exited && c.releases == s.board.releases
    requires c.pending <= s.board.pending && forall d :: d in c.members && d in s.board.pending ==> d in c.pending
    ensures Inv(s.(board := c))
  {
    var t := s.(board := c);
    assert BoardOk(c, Distributed(s.nodeOf));
    hide DaemonOk, BoardOk, Own;
    forall d | d in t.daemons ensures DaemonInv(t, d) {
      assert DaemonInv(s, d);
      AfterMembersShrink(s.board, c, d, s.daemons[d]);
    }
    forall n | n in t.board.exited ensures EarlyExit(t, n) {
      assert EarlyExit(s, n);
    }
  }

  /** Daemon `e` when the report of `d`, already taken off its queue, counts. */
  lemma ReportedDaemon(s: System, d: DaemonId, exited: seq<NodeId>, connected: set<DaemonId>, e: DaemonId)
    requires Inv(s) && d in s.daemons && e in s.daemons && Distributed(s.nodeOf)
    requires s.daemons[d].p.localNodes == {} && s.daemons[d].p.exited == exited
    ensures BoardOk(ReportCounted(s.board, d, exited), true)
    ensures DaemonInv(Counted(s, d, exited, connected), e)
    ensures Counted(s, d, exited, connected).daemons[e].p == s.daemons[e].p
  {
    hide DaemonOk, BoardOk, Own;
    assert DaemonInv(s, e);
    AfterReportCounted(s.board, d, exited, e, s.daemons[e]);
  }

  function Counted(s: System, d: DaemonId, exited: seq<NodeId>, connected: set<DaemonId>): System {
    var c := ReportCounted(s.board, d, exited);
    s.(board := c, daemons := if |c.releases| > |s.board.releases| then Broadcast(s.daemons, c, connected) else s.daemons)
  }

  lemma CountedExits(s: System, t: System, d: DaemonId, exited: seq<NodeId>)
    requires d in s.daemons && Own(s.nodeOf, d, s.daemons[d].p) && s.daemons[d].p.exited == exited
    requires forall n :: n in s.board.exited ==> EarlyExit(s, n)
    requires t.nodeOf == s.nodeOf && t.daemons.Keys == s.daemons.Keys && t.board.exited == s.board.exited + exited
    requires forall e :: e in s.daemons ==> t.daemons[e].p == s.daemons[e].p
    ensures forall n :: n in t.board.exited ==> EarlyExit(t, n)
  {
  }

  lemma CountedKeeps(s: System, d: DaemonId, exited: seq<NodeId>, connected: set<DaemonId>)
    requires Inv(s) && d in s.daemons && Distributed(s.nodeOf)
    requires s.daemons[d].p.localNodes == {} && s.daemons[d].p.exited == exited
    ensures Inv(Counted(s, d, exited, connected))
  {
    hide DaemonOk, BoardOk, Own, EarlyExit;
    var t := Counted(s, d, exited, connected);
    assert DaemonInv(s, d);
    forall e | e in s.daemons ensures DaemonInv(t, e) && t.daemons[e].p == s.daemons[e].p {
      ReportedDaemon(s, d, exited, connected, e);
    }
    ReportedDaemon(s, d, exited, connected, d);
    CountedExits(s, t, d, exited);
  }

  lemma CoordinatorStepKeeps(s: System, d: DaemonId, connected: set<DaemonId>)
    requires Inv(s) && Enabled(s, CoordinatorReceives(d, connected))
    ensures Inv(AtCoordinator(s, d, connected))
  {
    hide DaemonOk, BoardOk, Own, Broadcast;
    var dm := s.daemons[d];
    var rest := s.(daemons := s.daemons[d := dm.(up := dm.up[1..])]);
    assert DaemonInv(s, d);
    AfterPop(s.board, d, dm);
    PopKeeps(s, d);
    if s.board.running {
      if dm.up[0].Report? {
        CountedKeeps(rest, d, dm.up[0].exited, connected);
      } else {
        MembersShrinkKeeps(rest, FinishCounted(s.board, d));
      }
    }
  }

  lemma StepKeeps(s: System, step: Step)
    requires Inv(s) && Enabled(s, step)
    ensures Inv(Do(s, step))
  {
    match step
    case CoordinatorReceives(d, connected) => CoordinatorStepKeeps(s, d, connected);
    case Watchdog(gone) => MembersShrinkKeeps(s, Do(s, step).board);
    case Subscribe(_, _, _, _) => LocalEventKeeps(s, step);
    case NodeStop(_, _, _) => LocalEventKeeps(s, step);
    case StopDataflow(_, _) => LocalEventKeeps(s, step);
    case _ => ChannelStepKeeps(s, step);
  }

  lemma {:induction false} RunKeeps(s: System, steps: seq<Step>)
    requires Inv(s) && Runs(s, steps)
    ensures Inv(Exec(s, steps))
    decreases |steps|
  {
    if steps != [] {
      StepKeeps(s, steps[0]);
      RunKeeps(Do(s, steps[0]), steps[1..]);
    }
  }

  // ---- Results ----

  lemma AnsweredMeansReady(s: System, d: DaemonId, e: DaemonId)
    requires Inv(s) && d in s.daemons && s.daemons[d].given != {} && e in s.board.members && e in s.daemons
    ensures s.daemons[d].p.localNodes == {} && s.daemons[e].p.localNodes == {}
  {
    assert DaemonInv(s, d) && DaemonInv(s, e);
    if !Distributed(s.nodeOf) {
      SingleOrNot(s.nodeOf.Values, d);
    } else {
      var g :| g in s.daemons[d].given;
      assert GivenOk(s.board, s.daemons[d].p, g);
    }
  }

  /** No subscriber on any daemon is answered before every local node of every
      daemon still in the dataflow has subscribed, exited or been withdrawn. */
  lemma BarrierSafety(nodeOf: map<NodeId, DaemonId>, dynamicNodes: set<NodeId>, steps: seq<Step>, d: DaemonId, e: DaemonId)
    requires Runs(Start(nodeOf, dynamicNodes), steps)
    requires d in Exec(Start(nodeOf, dynamicNodes), steps).daemons
    requires Exec(Start(nodeOf, dynamicNodes), steps).daemons[d].given != {}
    requires e in Exec(Start(nodeOf, dynamicNodes), steps).daemons && e in Exec(Start(nodeOf, dynamicNodes), steps).board.members
    ensures var s := Exec(Start(nodeOf, dynamicNodes), steps);
      && s.daemons[d].p.localNodes == {}
      && s.daemons[e].p.localNodes == {}
  {
    StartInv(nodeOf, dynamicNodes);
    RunKeeps(Start(nodeOf, dynamicNodes), steps);
    AnsweredMeansReady(Exec(Start(nodeOf, dynamicNodes), steps), d, e);
  }

  /** A release never finds local nodes pending: the warning branch for a
      coordinator ahead of its daemon is not reached. */
  lemma ReleaseFindsNodesReady(nodeOf: map<NodeId, DaemonId>, dynamicNodes: set<NodeId>, steps: seq<Step>, d: DaemonId)
    requires Runs(Start(nodeOf, dynamicNodes), steps)
    requires Enabled(Exec(Start(nodeOf, dynamicNodes), steps), DaemonReceives(d))
    ensures Exec(Start(nodeOf, dynamicNodes), steps).daemons[d].p.localNodes == {}
  {
    StartInv(nodeOf, dynamicNodes);
    RunKeeps(Start(nodeOf, dynamicNodes), steps);
    assert DaemonInv(Exec(Start(nodeOf, dynamicNodes), steps), d);
  }

  /** What the replies of one release and its list have to do with the lists of
      the daemons. */
  lemma ReleaseBooks(nodeOf: map<NodeId, DaemonId>, dynamicNodes: set<NodeId>, steps: seq<Step>)
    requires Runs(Start(nodeOf, dynamicNodes), steps)
    ensures var s := Exec(Start(nodeOf, dynamicNodes), steps);
      && (forall d, g :: d in s.daemons && g in s.daemons[d].given ==> GivenOk(s.board, s.daemons[d].p, g))
      && (forall r, n :: 0 <= r < |s.board.releases| && n in s.board.releases[r] ==> EarlyExit(s, n))
      && (forall r, d :: 0 <= r < |s.board.releases| && d in s.board.members && d in s.daemons ==>
            Covers(s.board.releases[r], s.daemons[d].p.exited))
  {
    StartInv(nodeOf, dynamicNodes);
    RunKeeps(Start(nodeOf, dynamicNodes), steps);
    var s := Exec(Start(nodeOf, dynamicNodes), steps);
    hide GivenOk, EarlyExit;
    forall d, g | d in s.daemons && g in s.daemons[d].given ensures GivenOk(s.board, s.daemons[d].p, g) {
      assert DaemonInv(s, d);
    }
    forall r, d | 0 <= r < |s.board.releases| && d in s.board.members && d in s.daemons
      ensures Covers(s.board.releases[r], s.daemons[d].p.exited)
    {
      assert DaemonInv(s, d);
    }
    assert forall r :: 0 <= r < |s.board.releases| ==> Covers(s.board.exited, s.board.releases[r]);
  }

  // ---- Putting runs together ----

  lemma {:induction false} RunsOneMore(s: System, steps: seq<Step>, step: Step)
    requires Runs(s, steps) && Enabled(Exec(s, steps), step)
    ensures Runs(s, steps + [step]) && Exec(s, steps + [step]) == Do(Exec(s, steps), step)
    decreases |steps|
  {
    if steps == [] {
      assert [step][1..] == [];
    } else {
      assert (steps + [step])[1..] == steps[1..] + [step];
      RunsOneMore(Do(s, steps[0]), steps[1..], step);
    }
  }

  lemma {:induction false} RunsLast(s: System, steps: seq<Step>)
    requires Runs(s, steps) && steps != []
    ensures var n := |steps| - 1;
      Runs(s, steps[..n]) && Enabled(Exec(s, steps[..n]), steps[n]) && Exec(s, steps) == Do(Exec(s, steps[..n]), steps[n])
    decreases |steps|
  {
    hide Enabled, Do;
    var n := |steps| - 1;
    if n > 0 {
      RunsLast(Do(s, steps[0]), steps[1..]);
      assert steps[1..][..n - 1] == steps[..n][1..];
    } else {
      assert steps[1..] == [];
    }
  }
}
