/** What the startup barrier has recorded and answered, told from the steps of
    the run alone. */
module BarrierTrace {
  import opened Common
  import opened PendingNodes
  import opened StartupBarrier
  import opened BarrierTheorems
  import opened BarrierAnswer

  /** A dataflow: where its nodes run, and which are started by hand. */
  datatype Plan = Plan(nodeOf: map<NodeId, DaemonId>, dynamicNodes: set<NodeId>)

  predicate Static(plan: Plan, d: DaemonId, n: NodeId) {
    n in plan.nodeOf && plan.nodeOf[n] == d && n !in plan.dynamicNodes
  }

  ghost predicate RunOf(plan: Plan, steps: seq<Step>) {
    Runs(Start(plan.nodeOf, plan.dynamicNodes), steps)
  }

  ghost function After(plan: Plan, steps: seq<Step>): System
    requires RunOf(plan, steps)
  {
    Exec(Start(plan.nodeOf, plan.dynamicNodes), steps)
  }

  // ---- Subscriptions and exits in the steps ----

  predicate IsAbout(step: Step, d: DaemonId, n: NodeId) {
    (step.Subscribe? || step.NodeStop?) && step.d == d && step.node == n
  }

  /** The node has subscribed or stopped. */
  ghost predicate Seen(steps: seq<Step>, d: DaemonId, n: NodeId) {
    exists i :: 0 <= i < |steps| && IsAbout(steps[i], d, n)
  }

  /** The first the daemon hears of the node, in step `i`, is that it stopped. */
  ghost predicate ExitsAt(steps: seq<Step>, d: DaemonId, n: NodeId, i: nat)
    requires i < |steps|
  {
    steps[i].NodeStop? && IsAbout(steps[i], d, n) && !Seen(steps[..i], d, n)
  }

  ghost predicate ExitedEarly(plan: Plan, steps: seq<Step>, d: DaemonId, n: NodeId) {
    Static(plan, d, n) && exists i :: 0 <= i < |steps| && ExitsAt(steps, d, n, i)
  }

  /** The static nodes of `d` that exited early, in the order they did. */
  ghost function EarlyExits(plan: Plan, steps: seq<Step>, d: DaemonId): seq<NodeId> {
    if steps == [] then []
    else
      var n := |steps| - 1;
      var before := EarlyExits(plan, steps[..n], d);
      if steps[n].NodeStop? && ExitsAt(steps, d, steps[n].node, n) && Static(plan, d, steps[n].node)
      then before + [steps[n].node] else before
  }

  ghost function Unseen(plan: Plan, steps: seq<Step>, d: DaemonId): set<NodeId> {
    set n | n in plan.nodeOf && Static(plan, d, n) && !Seen(steps, d, n)
  }

  lemma SeenLast(steps: seq<Step>, d: DaemonId, n: NodeId)
    requires steps != []
    ensures Seen(steps, d, n) <==> Seen(steps[..|steps| - 1], d, n) || IsAbout(steps[|steps| - 1], d, n)
  {
    var before := steps[..|steps| - 1];
    assert forall i :: 0 <= i < |before| ==> before[i] == steps[i];
  }

  lemma {:induction false} EarlyExitsMeans(plan: Plan, steps: seq<Step>, d: DaemonId, n: NodeId)
    ensures n in EarlyExits(plan, steps, d) <==> ExitedEarly(plan, steps, d, n)
  {
    if steps != [] {
      var last := |steps| - 1;
      var before := steps[..last];
      EarlyExitsMeans(plan, before, d, n);
      forall i | 0 <= i < last ensures ExitsAt(before, d, n, i) <==> ExitsAt(steps, d, n, i) {
        assert before[..i] == steps[..i];
      }
    }
  }

  // ---- The daemon's lists ----

  /** What a step does to the lists of daemon `d`. */
  lemma ListsAfter(s: System, step: Step, d: DaemonId)
    requires Enabled(s, step) && d in s.daemons
    ensures d in Do(s, step).daemons && Do(s, step).nodeOf == s.nodeOf && Do(s, step).dynamicNodes == s.dynamicNodes
    ensures var p, q := s.daemons[d].p, Do(s, step).daemons[d].p;
      && q.external == p.external
      && q.localNodes == p.localNodes -
           (if (step.Subscribe? || step.NodeStop?) && step.d == d then {step.node}
            else if step.StopDataflow? && step.d == d then s.dynamicNodes else {})
      && q.exited == if step.NodeStop? && step.d == d && step.node in p.localNodes then p.exited + [step.node] else p.exited
  {
  }

  /** In every run a daemon's pending nodes are its static nodes that have
      neither subscribed nor stopped, and its list of early exits holds exactly
      those that stopped without having subscribed, in that order. */
  lemma {:induction false} ListsFromSteps(plan: Plan, steps: seq<Step>, d: DaemonId)
    requires RunOf(plan, steps) && d in plan.nodeOf.Values
    ensures var s := After(plan, steps);
      && d in s.daemons && s.nodeOf == plan.nodeOf && s.dynamicNodes == plan.dynamicNodes
      && s.daemons[d].p.localNodes == Unseen(plan, steps, d)
      && s.daemons[d].p.exited == EarlyExits(plan, steps, d)
  {
    if steps != [] {
      var n := |steps| - 1;
      RunsLast(Start(plan.nodeOf, plan.dynamicNodes), steps);
      ListsFromSteps(plan, steps[..n], d);
      var s := After(plan, steps[..n]);
      ListsAfter(s, steps[n], d);
      hide Do, Enabled, Runs, Exec, Start;
      forall m ensures Seen(steps, d, m) <==> Seen(steps[..n], d, m) || IsAbout(steps[n], d, m) {
        SeenLast(steps, d, m);
      }
      hide Seen;
      assert After(plan, steps).daemons[d].p.localNodes == Unseen(plan, steps, d);
    }
  }

  /** In every run a node is on its daemon's list of early exits if and only if
      it is a static node of the daemon that stopped before it subscribed. */
  lemma EarlyExitExact(plan: Plan, steps: seq<Step>, d: DaemonId, n: NodeId)
    requires RunOf(plan, steps) && d in plan.nodeOf.Values
    ensures d in After(plan, steps).daemons
    ensures n in After(plan, steps).daemons[d].p.exited <==> ExitedEarly(plan, steps, d, n)
  {
    ListsFromSteps(plan, steps, d);
    EarlyExitsMeans(plan, steps, d, n);
  }

  // ---- Verdicts ----

  /** Node `n` exited before it subscribed, on whatever daemon it runs. */
  ghost predicate ExitedSomewhere(plan: Plan, steps: seq<Step>, n: NodeId) {
    n in plan.nodeOf && ExitedEarly(plan, steps, plan.nodeOf[n], n)
  }

  /** In every run, a reply that came with release `r` starts the node if and
      only if the list of the release is empty; otherwise it blames the first
      early exit on the node's own daemon or, if there is none, the first node on
      the list. The list holds only nodes that exited early, and every early exit
      on a daemon still in the dataflow. */
  lemma VerdictAgreement(plan: Plan, steps: seq<Step>, r: nat)
    requires RunOf(plan, steps) && r < |After(plan, steps).board.releases|
    ensures var s := After(plan, steps);
      var list := s.board.releases[r];
      && (forall d, g :: d in s.daemons && g in s.daemons[d].given && g.release == Some(r) ==>
            g.answer.verdict == Blame(EarlyExits(plan, steps, d), list))
      && (forall n :: n in list ==> ExitedSomewhere(plan, steps, n))
      && (forall d, n :: d in s.board.members && d in s.daemons && ExitedEarly(plan, steps, d, n) ==> n in list)
  {
    var s := After(plan, steps);
    ReleaseBooks(plan.nodeOf, plan.dynamicNodes, steps);
    KnownDaemons(plan, steps);
    hide RunOf, After, EarlyExits, ExitedEarly, Blame;
    forall d | d in s.daemons ensures s.daemons[d].p.exited == EarlyExits(plan, steps, d) {
      ListsFromSteps(plan, steps, d);
    }
    forall d, g | d in s.daemons && g in s.daemons[d].given && g.release == Some(r)
      ensures g.answer.verdict == Blame(EarlyExits(plan, steps, d), s.board.releases[r])
    {
      assert GivenOk(s.board, s.daemons[d].p, g);
    }
    forall n | n in s.board.releases[r] ensures ExitedSomewhere(plan, steps, n) {
      assert EarlyExit(s, n);
      EarlyExitsMeans(plan, steps, plan.nodeOf[n], n);
    }
    forall d, n | d in s.board.members && d in s.daemons && ExitedEarly(plan, steps, d, n) ensures n in s.board.releases[r] {
      EarlyExitsMeans(plan, steps, d, n);
    }
  }

  lemma KnownDaemons(plan: Plan, steps: seq<Step>)
    requires RunOf(plan, steps)
    ensures After(plan, steps).daemons.Keys == plan.nodeOf.Values && After(plan, steps).nodeOf == plan.nodeOf
    ensures Inv(After(plan, steps))
  {
    StartInv(plan.nodeOf, plan.dynamicNodes);
    RunKeeps(Start(plan.nodeOf, plan.dynamicNodes), steps);
    NodesStay(Start(plan.nodeOf, plan.dynamicNodes), steps);
  }

  lemma {:induction false} NodesStay(s: System, steps: seq<Step>)
    requires Runs(s, steps)
    ensures Exec(s, steps).nodeOf == s.nodeOf
    decreases |steps|
  {
    if steps != [] {
      NodesFixed(s, steps[0]);
      hide Do, Enabled;
      NodesStay(Do(s, steps[0]), steps[1..]);
    }
  }

  /** A reply that came without a release belongs to a dataflow on one daemon. It
      starts the node if and only if no static node exited early, and otherwise
      blames the first that did. */
  lemma LocalVerdict(plan: Plan, steps: seq<Step>, d: DaemonId, g: Given)
    requires RunOf(plan, steps) && d in After(plan, steps).daemons
    requires g in After(plan, steps).daemons[d].given && g.release == None
    ensures !Distributed(plan.nodeOf)
    ensures g.answer.verdict == Blame(EarlyExits(plan, steps, d), EarlyExits(plan, steps, d))
    ensures g.answer.verdict.Started? <==> forall n :: !ExitedEarly(plan, steps, d, n)
  {
    var s := After(plan, steps);
    ReleaseBooks(plan.nodeOf, plan.dynamicNodes, steps);
    KnownDaemons(plan, steps);
    assert DaemonInv(s, d) && GivenOk(s.board, s.daemons[d].p, g);
    ListsFromSteps(plan, steps, d);
    hide RunOf, After, Inv, EarlyExits, ExitedEarly;
    var list := EarlyExits(plan, steps, d);
    forall n ensures n in list <==> ExitedEarly(plan, steps, d, n) {
      EarlyExitsMeans(plan, steps, d, n);
    }
    assert list != [] ==> list[0] in list;
  }

  // ---- Answers on a single daemon ----

  /** Nobody waits on a daemon that needs no coordinator and has no pending
      node. */
  lemma {:induction false} NobodyWaitsWhenReady(plan: Plan, steps: seq<Step>, d: DaemonId)
    requires RunOf(plan, steps) && !Distributed(plan.nodeOf) && d in plan.nodeOf.Values
    ensures d in After(plan, steps).daemons
    ensures var p := After(plan, steps).daemons[d].p; p.localNodes == {} ==> p.waiting == map[]
  {
    KnownDaemons(plan, steps);
    if steps != [] {
      var n := |steps| - 1;
      RunsLast(Start(plan.nodeOf, plan.dynamicNodes), steps);
      NobodyWaitsWhenReady(plan, steps[..n], d);
      KnownDaemons(plan, steps[..n]);
      var s := After(plan, steps[..n]);
      assert DaemonInv(s, d);
      ReadyStep(s, steps[n], d);
    }
  }

  lemma ReadyStep(s: System, step: Step, d: DaemonId)
    requires Enabled(s, step) && d in s.daemons && !s.daemons[d].p.external
    requires s.daemons[d].p.localNodes == {} ==> s.daemons[d].p.waiting == map[]
    ensures d in Do(s, step).daemons
    ensures var p := Do(s, step).daemons[d].p; p.localNodes == {} ==> p.waiting == map[]
  {
  }

  /** The request waits while nodes are pending, and is answered once none is. */
  ghost predicate Served(dm: Daemon, node: NodeId, sender: Sender) {
    if dm.p.localNodes != {} then Requested(dm, node, sender) else AnsweredIn(dm, node, sender)
  }

  lemma RequestServed(s: System, d: DaemonId, node: NodeId, sender: Sender, canReport: bool)
    requires Enabled(s, Subscribe(d, node, sender, canReport)) && !s.daemons[d].p.external
    ensures Served(Do(s, Subscribe(d, node, sender, canReport)).daemons[d], node, sender)
  {
    var p := s.daemons[d].p;
    var q := p.(waiting := p.waiting[node := sender], localNodes := p.localNodes - {node});
    AnswerReaches(s.daemons[d], q, canReport, node);
  }

  lemma AnswerReaches(dm: Daemon, q: Pending, canReport: bool, node: NodeId)
    requires !q.external && node in q.waiting
    ensures q.localNodes == {} ==> AnsweredIn(WithEffect(dm, Update(q, canReport)), node, q.waiting[node])
  {
    if q.localNodes == {} {
      var verdict := VerdictFor(q.exited, []);
      assert Answer(node, q.waiting[node], verdict) in Answers(q.waiting, verdict);
      assert Given(Answer(node, q.waiting[node], verdict), None) in WithEffect(dm, Update(q, canReport)).given;
    }
  }

  lemma StillServed(s: System, step: Step, d: DaemonId, node: NodeId, sender: Sender)
    requires Enabled(s, step) && d in s.daemons && !s.daemons[d].p.external && s.daemons[d].down == []
    requires Served(s.daemons[d], node, sender) && !(step.Subscribe? && step.d == d && step.node == node)
    ensures d in Do(s, step).daemons && Served(Do(s, step).daemons[d], node, sender)
  {
    var dm, t := s.daemons[d], Do(s, step);
    if dm.p.localNodes == {} {
      GivenStands(s, step, d);
    } else if (step.Subscribe? || step.NodeStop? || step.StopDataflow?) && step.d == d {
      var p := dm.p;
      var q := match step
        case Subscribe(_, other, it, _) => p.(waiting := p.waiting[other := it], localNodes := p.localNodes - {other})
        case NodeStop(_, other, _) => p.(localNodes := p.localNodes - {other}, exited := p.exited + [other])
        case _ => p.(localNodes := p.localNodes - s.dynamicNodes);
      AnswerReaches(dm, q, step.canReport, node);
    }
  }

  lemma GivenStands(s: System, step: Step, d: DaemonId)
    requires Enabled(s, step) && d in s.daemons
    ensures d in Do(s, step).daemons && s.daemons[d].given <= Do(s, step).daemons[d].given
  {
  }

  lemma {:induction false} ServedFrom(plan: Plan, steps: seq<Step>, i: nat, d: DaemonId, node: NodeId, sender: Sender)
    requires RunOf(plan, steps) && !Distributed(plan.nodeOf) && i < |steps|
    requires steps[i].Subscribe? && steps[i].d == d && steps[i].node == node && steps[i].sender == sender
    requires forall j :: i < j < |steps| ==> !(steps[j].Subscribe? && steps[j].d == d && steps[j].node == node)
    ensures d in After(plan, steps).daemons && Served(After(plan, steps).daemons[d], node, sender)
  {
    var n := |steps| - 1;
    RunsLast(Start(plan.nodeOf, plan.dynamicNodes), steps);
    KnownDaemons(plan, steps[..n]);
    var s := After(plan, steps[..n]);
    OneDaemonAlone(s, if i == n then steps[n].d else d);
    hide Served, Do, Inv;
    if i == n {
      RequestServed(s, d, node, sender, steps[n].canReport);
    } else {
      ServedFrom(plan, steps[..n], i, d, node, sender);
      StillServed(s, steps[n], d, node, sender);
    }
  }

  lemma OneDaemonAlone(s: System, d: DaemonId)
    requires Inv(s) && !Distributed(s.nodeOf)
    ensures d in s.daemons ==> !s.daemons[d].p.external && s.daemons[d].down == []
  {
    if d in s.daemons {
      assert DaemonInv(s, d);
      assert s.daemons[d].down != [] ==> DownOk(s.board, s.daemons[d].p, s.daemons[d].down[0]);
    }
  }

  /** In every run of a dataflow on one daemon: the last request of a node is
      answered if and only if every static node has subscribed or stopped. */
  lemma SingleAnswerExact(plan: Plan, steps: seq<Step>, i: nat, d: DaemonId, node: NodeId, sender: Sender)
    requires RunOf(plan, steps) && !Distributed(plan.nodeOf) && i < |steps|
    requires steps[i].Subscribe? && steps[i].d == d && steps[i].node == node && steps[i].sender == sender
    requires forall j :: i < j < |steps| ==> !(steps[j].Subscribe? && steps[j].d == d && steps[j].node == node)
    ensures d in After(plan, steps).daemons
    ensures AnsweredIn(After(plan, steps).daemons[d], node, sender) <==>
      forall n :: Static(plan, d, n) ==> Seen(steps, d, n)
  {
    ServedFrom(plan, steps, i, d, node, sender);
    KnownDaemons(plan, steps);
    var s := After(plan, steps);
    ListsFromSteps(plan, steps, d);
    assert DaemonInv(s, d);
    hide RunOf, After, Inv, Seen, Static, EarlyExits;
    if Unseen(plan, steps, d) == {} {
      forall n | Static(plan, d, n) ensures Seen(steps, d, n) {
        StaticKnown(plan, d, n);
        assert n !in Unseen(plan, steps, d);
      }
    } else {
      var n :| n in Unseen(plan, steps, d);
      assert Static(plan, d, n) && !Seen(steps, d, n);
    }
  }

  lemma StaticKnown(plan: Plan, d: DaemonId, n: NodeId)
    requires Static(plan, d, n)
    ensures n in plan.nodeOf
  {
  }

  // ---- Reports of daemons among several ----

  /** Step `i` makes the daemon look whether it is ready, finds it so, and the
      message to the coordinator goes out. */
  ghost predicate ReportsAt(plan: Plan, steps: seq<Step>, d: DaemonId, i: nat)
    requires i < |steps|
  {
    && (|| (steps[i].Subscribe? && steps[i].d == d)
        || (steps[i].NodeStop? && ExitsAt(steps, d, steps[i].node, i) && Static(plan, d, steps[i].node)))
    && steps[i].canReport && Unseen(plan, steps[..i + 1], d) == {}
  }

  ghost predicate Reports(plan: Plan, steps: seq<Step>, d: DaemonId) {
    exists i :: 0 <= i < |steps| && ReportsAt(plan, steps, d, i)
  }

  /** The step makes the daemon look whether it is ready. */
  predicate Looks(p: Pending, step: Step, d: DaemonId) {
    (step.Subscribe? && step.d == d) || (step.NodeStop? && step.d == d && step.node in p.localNodes)
  }

  lemma ReportAfter(s: System, step: Step, d: DaemonId)
    requires Enabled(s, step) && d in s.daemons && s.daemons[d].p.external
    requires s.daemons[d].p.localNodes !! s.dynamicNodes
    ensures d in Do(s, step).daemons
    ensures var p, q := s.daemons[d].p, Do(s, step).daemons[d].p;
      q.reported <==> p.reported || (Looks(p, step, d) && step.canReport && q.localNodes == {})
  {
  }

  lemma LooksFromSteps(plan: Plan, steps: seq<Step>, d: DaemonId, p: Pending)
    requires steps != [] && p.localNodes == Unseen(plan, steps[..|steps| - 1], d)
    ensures var n := |steps| - 1;
      Looks(p, steps[n], d) <==>
        ((steps[n].Subscribe? && steps[n].d == d)
         || (steps[n].NodeStop? && ExitsAt(steps, d, steps[n].node, n) && Static(plan, d, steps[n].node)))
  {
    hide Seen;
  }

  lemma ReportsNow(plan: Plan, steps: seq<Step>, d: DaemonId)
    requires RunOf(plan, steps) && steps != [] && Distributed(plan.nodeOf) && d in plan.nodeOf.Values
    ensures var n := |steps| - 1;
      && RunOf(plan, steps[..n]) && d in After(plan, steps[..n]).daemons && d in After(plan, steps).daemons
      && (After(plan, steps).daemons[d].p.reported <==>
            After(plan, steps[..n]).daemons[d].p.reported || ReportsAt(plan, steps, d, n))
  {
    var n := |steps| - 1;
    RunsLast(Start(plan.nodeOf, plan.dynamicNodes), steps);
    ListsFromSteps(plan, steps[..n], d);
    ListsFromSteps(plan, steps, d);
    KnownDaemons(plan, steps[..n]);
    var s := After(plan, steps[..n]);
    assert DaemonInv(s, d);
    hide DaemonOk, BoardOk, Own, EarlyExits, Seen, Do, Enabled, Runs, Exec, Start;
    ReportAfter(s, steps[n], d);
    hide Inv;
    LooksFromSteps(plan, steps, d, s.daemons[d].p);
    assert steps[..n + 1] == steps;
    hide Looks, ExitsAt;
  }

  /** In every run on several daemons a daemon has reported if and only if some
      subscription or early exit found all its static nodes seen and the message
      went out. */
  lemma {:induction false} ReportedExact(plan: Plan, steps: seq<Step>, d: DaemonId)
    requires RunOf(plan, steps) && Distributed(plan.nodeOf) && d in plan.nodeOf.Values
    ensures d in After(plan, steps).daemons
    ensures After(plan, steps).daemons[d].p.reported <==> Reports(plan, steps, d)
  {
    if steps != [] {
      ReportsNow(plan, steps, d);
      hide After, RunOf, Reports, ReportsAt;
      ReportedExact(plan, steps[..|steps| - 1], d);
      ReportsLast(plan, steps, d);
    }
  }

  lemma ReportsLast(plan: Plan, steps: seq<Step>, d: DaemonId)
    requires steps != []
    ensures Reports(plan, steps, d) <==>
      Reports(plan, steps[..|steps| - 1], d) || ReportsAt(plan, steps, d, |steps| - 1)
  {
    hide Seen, Unseen;
    var before := steps[..|steps| - 1];
    forall i | 0 <= i < |before| ensures ReportsAt(plan, before, d, i) <==> ReportsAt(plan, steps, d, i) {
      assert before[..i] == steps[..i] && before[..i + 1] == steps[..i + 1] && before[i] == steps[i];
    }
  }

  // ---- The coordinator's books ----

  /** The coordinator takes message `m` of daemon `d` off its queue while it
      still knows the dataflow. */
  predicate Counts(s: System, step: Step, d: DaemonId, m: Up) {
    step.CoordinatorReceives? && step.d == d && d in s.daemons && s.daemons[d].up != [] && s.daemons[d].up[0] == m && s.board.running
  }

  predicate Drops(step: Step, d: DaemonId) {
    step.Watchdog? && d in step.gone
  }

  /** Of all steps, a daemon leaves the dataflow exactly by its finish or by the
      watchdog, and is no longer awaited exactly by its report or the watchdog;
      nobody joins. The dataflow is gone exactly when the last daemon finishes. */
  lemma MembershipExact(s: System, step: Step, d: DaemonId)
    requires Enabled(s, step)
    ensures var b, c := s.board, Do(s, step).board;
      && (d in c.members <==> d in b.members && !Counts(s, step, d, Finished) && !Drops(step, d))
      && (d in c.pending <==> d in b.pending && !(exists list :: Counts(s, step, d, Report(list))) && !Drops(step, d))
      && (c.running <==> b.running && !(exists e :: Counts(s, step, e, Finished) && b.members - {e} == {}))
  {
    if step.CoordinatorReceives? && s.daemons[step.d].up[0].Report? {
      assert Counts(s, step, step.d, Report(s.daemons[step.d].up[0].exited)) == s.board.running;
    }
  }

  /** A release is sent exactly when a report is counted and nobody else is
      awaited. It carries every list counted so far, and reaches exactly the
      connected members. */
  lemma ReleaseExact(s: System, step: Step, e: DaemonId, list: seq<NodeId>, d: DaemonId)
    requires Enabled(s, step) && Counts(s, step, e, Report(list)) && d in s.daemons && d in Do(s, step).daemons
    ensures var b, c := s.board, Do(s, step).board;
      && c.exited == b.exited + list
      && c.releases == (if b.pending <= {e} then b.releases + [c.exited] else b.releases)
      && Do(s, step).daemons[d].down ==
           (if b.pending <= {e} && d in b.members && d in step.connected
            then s.daemons[d].down + [AllReady(|b.releases|, c.exited)] else s.daemons[d].down)
  {
    assert s.board.pending - {e} == {} <==> s.board.pending <= {e};
  }

  // ---- The queues and the requests ----

  /** What a step does to the queue from daemon `d` to the coordinator: it sends
      its list of early exits with the one report, and its finish. */
  lemma UplinkExact(s: System, step: Step, d: DaemonId)
    requires Enabled(s, step) && d in s.daemons
    ensures d in Do(s, step).daemons
    ensures var dm, after := s.daemons[d], Do(s, step).daemons[d];
      after.up ==
        if step.CoordinatorReceives? && step.d == d then dm.up[1..]
        else if step.LoseUp? && step.d == d then Without(dm.up, step.i)
        else if step.Finish? && step.d == d then dm.up + [Finished]
        else if after.p.reported && !dm.p.reported then dm.up + [Report(after.p.exited)]
        else dm.up
    ensures Do(s, step).daemons[d].done <==> s.daemons[d].done || (step.Finish? && step.d == d)
  {
  }

  ghost predicate Asked(steps: seq<Step>, d: DaemonId, node: NodeId, sender: Sender) {
    exists i :: 0 <= i < |steps| && Asks(steps[i], d, node, sender)
  }

  predicate Asks(step: Step, d: DaemonId, node: NodeId, sender: Sender) {
    step.Subscribe? && step.d == d && step.node == node && step.sender == sender
  }

  lemma AskedBefore(s: System, step: Step, d: DaemonId, node: NodeId, sender: Sender)
    requires Enabled(s, step) && d in s.daemons
    ensures d in Do(s, step).daemons
    ensures Requested(Do(s, step).daemons[d], node, sender) ==>
      Requested(s.daemons[d], node, sender) || Asks(step, d, node, sender)
    ensures AnsweredIn(Do(s, step).daemons[d], node, sender) ==>
      AnsweredIn(s.daemons[d], node, sender) || Requested(s.daemons[d], node, sender) || Asks(step, d, node, sender)
  {
  }

  /** In every run whoever waits or was answered has asked. */
  lemma {:induction false} OnlyRequestsAreAnswered(plan: Plan, steps: seq<Step>, d: DaemonId, node: NodeId, sender: Sender)
    requires RunOf(plan, steps) && d in plan.nodeOf.Values
    ensures d in After(plan, steps).daemons
    ensures Requested(After(plan, steps).daemons[d], node, sender) || AnsweredIn(After(plan, steps).daemons[d], node, sender) ==>
      Asked(steps, d, node, sender)
  {
    if steps != [] {
      var n := |steps| - 1;
      RunsLast(Start(plan.nodeOf, plan.dynamicNodes), steps);
      OnlyRequestsAreAnswered(plan, steps[..n], d, node, sender);
      AskedBefore(After(plan, steps[..n]), steps[n], d, node, sender);
      assert forall i :: 0 <= i < n ==> steps[..n][i] == steps[i];
      hide Do, Enabled, Requested, AnsweredIn, Asks;
    }
  }

  /** A daemon of a dataflow on several is awaited until it has reported. */
  ghost predicate AwaitedUntilReported(s: System, d: DaemonId) {
    && d in s.daemons
    && (ReportQueued(s.daemons[d]) ==> s.daemons[d].p.reported)
    && (d in s.board.members && d !in s.board.pending ==> s.daemons[d].p.reported)
  }

  lemma AwaitedStep(s: System, step: Step, d: DaemonId)
    requires Enabled(s, step) && AwaitedUntilReported(s, d)
    ensures AwaitedUntilReported(Do(s, step), d)
  {
    MembershipExact(s, step, d);
    ReportedStays(s, step, d);
    QueuedMeansReported(s, step, d);
    hide Do;
  }

  lemma QueuedMeansReported(s: System, step: Step, d: DaemonId)
    requires Enabled(s, step) && d in s.daemons
    ensures d in Do(s, step).daemons
    ensures ReportQueued(Do(s, step).daemons[d]) ==> ReportQueued(s.daemons[d]) || Do(s, step).daemons[d].p.reported
  {
    UplinkExact(s, step, d);
    var dm, after := s.daemons[d], Do(s, step).daemons[d];
    hide Do, Enabled;
    if ReportQueued(after) && !after.p.reported {
      var i :| 0 <= i < |after.up| && after.up[i].Report?;
      assert after.up[i] in dm.up;
    }
  }

  lemma ReportedStays(s: System, step: Step, d: DaemonId)
    requires Enabled(s, step) && d in s.daemons
    ensures d in Do(s, step).daemons && (s.daemons[d].p.reported ==> Do(s, step).daemons[d].p.reported)
  {
  }

  lemma {:induction false} AwaitedRun(plan: Plan, steps: seq<Step>, d: DaemonId)
    requires RunOf(plan, steps) && Distributed(plan.nodeOf) && d in plan.nodeOf.Values
    ensures AwaitedUntilReported(After(plan, steps), d)
  {
    if steps != [] {
      RunsLast(Start(plan.nodeOf, plan.dynamicNodes), steps);
      AwaitedRun(plan, steps[..|steps| - 1], d);
      AwaitedStep(After(plan, steps[..|steps| - 1]), steps[|steps| - 1], d);
    }
  }

  /** In every run, once a release was sent every daemon still in the dataflow
      has reported, with or without static nodes. */
  lemma ReleaseNeedsAllReports(plan: Plan, steps: seq<Step>, d: DaemonId)
    requires RunOf(plan, steps) && After(plan, steps).board.releases != [] && d in After(plan, steps).board.members
    requires d in plan.nodeOf.Values
    ensures Reports(plan, steps, d)
  {
    KnownDaemons(plan, steps);
    AwaitedRun(plan, steps, d);
    ReportedExact(plan, steps, d);
  }
}
