/** Which subscribers of a dataflow on several daemons can still be answered. */
module BarrierAnswer {
  import opened Common
  import opened PendingNodes
  import opened StartupBarrier
  import opened BarrierTheorems

  /** The request `sender` of `node` waits for its reply. */
  predicate Requested(dm: Daemon, node: NodeId, sender: Sender) {
    node in dm.p.waiting && dm.p.waiting[node] == sender
  }

  ghost predicate AnsweredIn(dm: Daemon, node: NodeId, sender: Sender) {
    exists g :: g in dm.given && g.answer.node == node && g.answer.sender == sender
  }

  /** Every request has its own reply channel. */
  ghost predicate NoReuse(steps: seq<Step>, node: NodeId, sender: Sender) {
    forall i :: 0 <= i < |steps| ==> !Reuses(steps[i], node, sender)
  }

  predicate Reuses(step: Step, node: NodeId, sender: Sender) {
    step.Subscribe? && step.node == node && step.sender == sender
  }

  ghost predicate GetsAnswer(s: System, d: DaemonId, node: NodeId, sender: Sender) {
    exists steps :: Runs(s, steps) && NoReuse(steps, node, sender) && AnsweredAfter(s, steps, d, node, sender)
  }

  ghost predicate AnsweredAfter(s: System, steps: seq<Step>, d: DaemonId, node: NodeId, sender: Sender)
    requires Runs(s, steps)
  {
    d in Exec(s, steps).daemons && AnsweredIn(Exec(s, steps).daemons[d], node, sender)
  }

  ghost predicate ReportQueued(dm: Daemon) {
    exists i :: 0 <= i < |dm.up| && dm.up[i].Report?
  }

  /** A report of `e` is on its way, or `e` still owes one and something other
      than `node` can make it send it. */
  ghost predicate CanReport(s: System, e: DaemonId, node: NodeId) {
    && e in s.daemons
    && (|| ReportQueued(s.daemons[e])
        || (&& !s.daemons[e].done && !s.daemons[e].p.reported
            && (s.daemons[e].p.localNodes != {} || OtherNode(s, e, node))))
  }

  ghost predicate OtherNode(s: System, e: DaemonId, node: NodeId) {
    exists n :: n in s.nodeOf && s.nodeOf[n] == e && n != node
  }

  /** The daemon still runs the dataflow, and a release is on its way to it or
      can still be sent to it: the coordinator still counts it in, and awaits
      either nothing more of it or a report it can still give. */
  ghost predicate Answerable(s: System, d: DaemonId, node: NodeId)
    requires d in s.daemons
  {
    && !s.daemons[d].done
    && (s.daemons[d].down != [] || CanBeReleased(s, d, node))
  }

  ghost predicate CanBeReleased(s: System, d: DaemonId, node: NodeId) {
    && s.board.running && d in s.board.members
    && if d in s.board.pending then CanReport(s, d, node) else exists e :: CanReport(s, e, node)
  }

  // ---- Whoever is not answerable stays so ----

  lemma LocalReportBack(s: System, step: Step, node: NodeId)
    requires Enabled(s, step) && (step.Subscribe? || step.NodeStop? || step.StopDataflow?)
    requires !(step.Subscribe? && step.node == node)
    ensures CanReport(Do(s, step), step.d, node) ==> CanReport(s, step.d, node)
  {
    var t := Do(s, step);
    var dm, after := s.daemons[step.d], t.daemons[step.d];
    assert OtherNode(t, step.d, node) == OtherNode(s, step.d, node);
    if ReportQueued(after) && !ReportQueued(dm) {
      assert forall i :: 0 <= i < |dm.up| ==> after.up[i] == dm.up[i];
      assert !dm.p.reported;
    }
  }

  lemma ReportBack(s: System, step: Step, e: DaemonId, node: NodeId)
    requires Enabled(s, step) && !(step.Subscribe? && step.node == node)
    ensures CanReport(Do(s, step), e, node) ==> CanReport(s, e, node)
  {
    hide WithEffect, NodeSubscribed, NodeStopped, Withdrawn;
    var t := Do(s, step);
    if step.Subscribe? || step.NodeStop? || step.StopDataflow? {
      LocalReportBack(s, step, node);
      assert e != step.d ==> e !in t.daemons || t.daemons[e] == s.daemons[e];
      assert OtherNode(t, e, node) == OtherNode(s, e, node);
    } else {
      assert OtherNode(t, e, node) == OtherNode(s, e, node);
      if e in t.daemons && ReportQueued(t.daemons[e]) {
        var i :| 0 <= i < |t.daemons[e].up| && t.daemons[e].up[i].Report?;
        assert t.daemons[e].up[i] in s.daemons[e].up;
      }
    }
  }

  /** What a step can do for the release of `d`. */
  lemma ReleaseBack(s: System, step: Step, d: DaemonId, node: NodeId)
    requires Enabled(s, step) && !(step.Subscribe? && step.node == node) && d in s.daemons
    ensures d in Do(s, step).daemons
    ensures CanBeReleased(Do(s, step), d, node) ==> CanBeReleased(s, d, node)
  {
    var t := Do(s, step);
    if CanBeReleased(t, d, node) {
      var e :| CanReport(t, e, node) && (d in t.board.pending ==> e == d);
      ReportBack(s, step, e, node);
      hide CanReport, WithEffect, NodeSubscribed, NodeStopped, Withdrawn, TakeRelease, Broadcast;
      if d in s.board.pending && d !in t.board.pending {
        assert step.CoordinatorReceives? && step.d == d && s.daemons[d].up[0].Report?;
        ReportAtFront(s, d, node);
      }
    }
  }

  lemma ReportAtFront(s: System, e: DaemonId, node: NodeId)
    requires e in s.daemons && s.daemons[e].up != [] && s.daemons[e].up[0].Report?
    ensures CanReport(s, e, node)
  {
  }

  /** A release is queued for `d` only if one could be. */
  lemma QueuedBack(s: System, step: Step, d: DaemonId, node: NodeId)
    requires Enabled(s, step) && d in s.daemons && d in Do(s, step).daemons
    requires s.daemons[d].down == [] && Do(s, step).daemons[d].down != []
    ensures CanBeReleased(s, d, node)
  {
    hide CanReport, Update;
    assert step.CoordinatorReceives? && s.board.running && s.daemons[step.d].up[0].Report?;
    ReportAtFront(s, step.d, node);
    assert s.board.pending - {step.d} == {} && d in s.board.members;
    OnlyOneLeft(s.board.pending, step.d, d);
  }

  lemma OnlyOneLeft(pending: set<DaemonId>, e: DaemonId, d: DaemonId)
    requires pending - {e} == {}
    ensures d in pending ==> d == e
  {
    assert d in pending - {e} <==> d in pending && d != e;
  }

  /** The request is not answered, and no longer waits or cannot be answered. */
  ghost predicate Hopeless(s: System, d: DaemonId, node: NodeId, sender: Sender) {
    && d in s.daemons && !AnsweredIn(s.daemons[d], node, sender)
    && (Requested(s.daemons[d], node, sender) ==> !Answerable(s, d, node))
  }

  lemma UnansweredDaemon(s: System, step: Step, d: DaemonId, node: NodeId, sender: Sender)
    requires Enabled(s, step) && d in s.daemons && s.daemons[d].p.external && !Reuses(step, node, sender)
    requires node in s.nodeOf && s.nodeOf[node] == d
    requires !AnsweredIn(s.daemons[d], node, sender)
    requires Requested(s.daemons[d], node, sender) ==> s.daemons[d].done || s.daemons[d].down == []
    ensures d in Do(s, step).daemons && !AnsweredIn(Do(s, step).daemons[d], node, sender)
    ensures Requested(Do(s, step).daemons[d], node, sender) ==>
      Requested(s.daemons[d], node, sender) && !(step.Subscribe? && step.node == node)
    ensures s.daemons[d].done ==> Do(s, step).daemons[d].done
  {
    hide CanReport;
  }

  lemma NodesFixed(s: System, step: Step)
    requires Enabled(s, step)
    ensures Do(s, step).nodeOf == s.nodeOf
  {
  }

  lemma HopelessStep(s: System, step: Step, d: DaemonId, node: NodeId, sender: Sender)
    requires Inv(s) && Distributed(s.nodeOf) && Enabled(s, step) && !Reuses(step, node, sender)
    requires node in s.nodeOf && s.nodeOf[node] == d && Hopeless(s, d, node, sender)
    ensures Hopeless(Do(s, step), d, node, sender) && Do(s, step).nodeOf == s.nodeOf
  {
    hide DaemonOk, BoardOk, Own, EarlyExit, Do, Enabled, CanBeReleased, AnsweredIn;
    assert DaemonInv(s, d);
    UnansweredDaemon(s, step, d, node, sender);
    var t := Do(s, step);
    NodesFixed(s, step);
    hide Inv;
    if Requested(t.daemons[d], node, sender) && !t.daemons[d].done {
      ReleaseBack(s, step, d, node);
      if t.daemons[d].down != [] {
        QueuedBack(s, step, d, node);
      }
    }
  }

  lemma {:induction false} HopelessRun(s: System, steps: seq<Step>, d: DaemonId, node: NodeId, sender: Sender)
    requires Inv(s) && Distributed(s.nodeOf) && Runs(s, steps) && NoReuse(steps, node, sender)
    requires node in s.nodeOf && s.nodeOf[node] == d && Hopeless(s, d, node, sender)
    ensures Hopeless(Exec(s, steps), d, node, sender)
    decreases |steps|
  {
    hide Inv, Do, Enabled, Hopeless;
    if steps != [] {
      StepKeeps(s, steps[0]);
      HopelessStep(s, steps[0], d, node, sender);
      assert forall i :: 0 <= i < |steps[1..]| ==> steps[1..][i] == steps[i + 1];
      HopelessRun(Do(s, steps[0]), steps[1..], d, node, sender);
    }
  }

  // ---- Whoever is answerable can be answered ----

  ghost predicate Open(s: System, d: DaemonId, node: NodeId, sender: Sender) {
    && node in s.nodeOf && s.nodeOf[node] == d && d in s.daemons
    && !s.daemons[d].done && Requested(s.daemons[d], node, sender)
  }

  lemma AnswerVia(s: System, step: Step, d: DaemonId, node: NodeId, sender: Sender)
    requires Enabled(s, step) && !Reuses(step, node, sender) && GetsAnswer(Do(s, step), d, node, sender)
    ensures GetsAnswer(s, d, node, sender)
  {
    hide Do, Enabled, AnsweredIn;
    var t := Do(s, step);
    var rest :| Runs(t, rest) && NoReuse(rest, node, sender) && AnsweredAfter(t, rest, d, node, sender);
    var steps := [step] + rest;
    assert steps[1..] == rest;
    assert AnsweredAfter(s, steps, d, node, sender);
  }

  lemma ReleaseAnswers(s: System, d: DaemonId, node: NodeId, sender: Sender)
    requires Open(s, d, node, sender) && s.daemons[d].down != []
    ensures GetsAnswer(s, d, node, sender)
  {
    var step := DaemonReceives(d);
    var dm := s.daemons[d];
    var answer := Answer(node, sender, VerdictFor(dm.p.exited, dm.down[0].exited));
    assert answer in AnswerAll(dm.p, dm.down[0].exited).answers;
    assert Given(answer, Some(dm.down[0].release)) in Do(s, step).daemons[d].given;
    var none: seq<Step> := [];
    assert AnsweredAfter(Do(s, step), none, d, node, sender) && NoReuse(none, node, sender);
    AnswerVia(s, step, d, node, sender);
  }

  lemma LastReportReleases(s: System, d: DaemonId, node: NodeId, sender: Sender, e: DaemonId)
    requires Open(s, d, node, sender) && s.board.running && d in s.board.members && s.board.pending - {e} == {}
    requires e in s.daemons && s.daemons[e].up != [] && s.daemons[e].up[0].Report?
    ensures GetsAnswer(s, d, node, sender)
  {
    var step := CoordinatorReceives(e, {d});
    ReleaseAnswers(Do(s, step), d, node, sender);
    AnswerVia(s, step, d, node, sender);
  }

  /** The watchdog may drop every daemon the coordinator still waits for. */
  lemma ReportReleases(s: System, d: DaemonId, node: NodeId, sender: Sender, e: DaemonId)
    requires Open(s, d, node, sender) && s.board.running && d in s.board.members
    requires d in s.board.pending ==> e == d
    requires e in s.daemons && s.daemons[e].up != [] && s.daemons[e].up[0].Report?
    ensures GetsAnswer(s, d, node, sender)
  {
    var step := Watchdog(s.board.pending - {d});
    LastReportReleases(Do(s, step), d, node, sender, e);
    AnswerVia(s, step, d, node, sender);
  }

  lemma {:induction false} QueuedReportReleases(s: System, d: DaemonId, node: NodeId, sender: Sender, e: DaemonId, i: nat)
    requires Open(s, d, node, sender) && s.board.running && d in s.board.members
    requires d in s.board.pending ==> e == d
    requires e in s.daemons && i < |s.daemons[e].up| && s.daemons[e].up[i].Report?
    ensures GetsAnswer(s, d, node, sender)
    decreases i
  {
    if i == 0 {
      ReportReleases(s, d, node, sender, e);
    } else {
      var step := LoseUp(e, 0);
      var t := Do(s, step);
      assert t.daemons[e].up[i - 1] == s.daemons[e].up[i];
      QueuedReportReleases(t, d, node, sender, e, i - 1);
      AnswerVia(s, step, d, node, sender);
    }
  }

  lemma {:induction false} OwedReportReleases(s: System, d: DaemonId, node: NodeId, sender: Sender, e: DaemonId)
    requires Open(s, d, node, sender) && s.board.running && d in s.board.members
    requires d in s.board.pending ==> e == d
    requires e in s.daemons && CanReport(s, e, node) && s.daemons[e].p.external
    ensures GetsAnswer(s, d, node, sender)
    decreases if e in s.daemons then s.daemons[e].p.localNodes else {}
  {
    var dm := s.daemons[e];
    if ReportQueued(dm) {
      var i :| 0 <= i < |dm.up| && dm.up[i].Report?;
      QueuedReportReleases(s, d, node, sender, e, i);
    } else {
      var step := ProddingStep(s, e, node);
      var t := Do(s, step);
      if dm.p.localNodes != {} && t.daemons[e].p.localNodes != {} {
        OwedReportReleases(t, d, node, sender, e);
      } else {
        QueuedReportReleases(t, d, node, sender, e, |dm.up|);
      }
      hide GetsAnswer;
      AnswerVia(s, step, d, node, sender);
    }
  }

  /** A pending node exits, or another node subscribes. */
  ghost function ProddingStep(s: System, e: DaemonId, node: NodeId): (step: Step)
    requires CanReport(s, e, node) && !ReportQueued(s.daemons[e]) && s.daemons[e].p.external
    ensures Enabled(s, step) && (step.Subscribe? ==> step.node != node)
    ensures var t, dm := Do(s, step), s.daemons[e];
      && t.board == s.board && t.nodeOf == s.nodeOf && t.daemons.Keys == s.daemons.Keys
      && (forall d :: d in s.daemons && d != e ==> t.daemons[d] == s.daemons[d])
      && t.daemons[e].p.external && !t.daemons[e].done
      && (node in dm.p.waiting ==> node in t.daemons[e].p.waiting && t.daemons[e].p.waiting[node] == dm.p.waiting[node])
      && (if dm.p.localNodes == {} || t.daemons[e].p.localNodes == {}
          then t.daemons[e].up == dm.up + [Report(t.daemons[e].p.exited)]
          else t.daemons[e].p.localNodes < dm.p.localNodes && !t.daemons[e].p.reported)
  {
    var dm := s.daemons[e];
    if dm.p.localNodes != {} then
      var n :| n in dm.p.localNodes;
      NodeStop(e, n, true)
    else
      var n :| n in s.nodeOf && s.nodeOf[n] == e && n != node;
      Subscribe(e, n, 0, true)
  }

  // ---- Exactly who can be answered ----

  /** In every reachable state of a dataflow on several daemons: a waiting
      request that was not answered yet is answered in some continuation if and
      only if it is answerable. */
  lemma AnswerExact(s: System, d: DaemonId, node: NodeId, sender: Sender)
    requires Inv(s) && Distributed(s.nodeOf) && node in s.nodeOf && s.nodeOf[node] == d && d in s.daemons
    requires Requested(s.daemons[d], node, sender) && !AnsweredIn(s.daemons[d], node, sender)
    ensures GetsAnswer(s, d, node, sender) <==> Answerable(s, d, node)
  {
    hide GetsAnswer, CanReport, Runs, Exec, Do, Enabled, AnsweredIn;
    if Answerable(s, d, node) {
      if s.daemons[d].down != [] {
        ReleaseAnswers(s, d, node, sender);
      } else {
        var e :| CanReport(s, e, node) && (d in s.board.pending ==> e == d);
        ReporterKnown(s, e, node);
        assert DaemonInv(s, e);
        OwedReportReleases(s, d, node, sender, e);
      }
    } else {
      hide Inv, Answerable;
      NeverAnswered(s, d, node, sender);
    }
  }

  lemma ReporterKnown(s: System, e: DaemonId, node: NodeId)
    requires CanReport(s, e, node)
    ensures e in s.daemons
  {
  }

  lemma NeverAnswered(s: System, d: DaemonId, node: NodeId, sender: Sender)
    requires Inv(s) && Distributed(s.nodeOf) && node in s.nodeOf && s.nodeOf[node] == d && d in s.daemons
    requires Hopeless(s, d, node, sender)
    ensures !GetsAnswer(s, d, node, sender)
  {
    hide Inv, Runs, Exec, Hopeless, AnsweredIn;
    forall steps | Runs(s, steps) && NoReuse(steps, node, sender)
      ensures !AnsweredAfter(s, steps, d, node, sender)
    {
      HopelessRun(s, steps, d, node, sender);
      HopelessUnanswered(Exec(s, steps), d, node, sender);
    }
  }

  lemma HopelessUnanswered(s: System, d: DaemonId, node: NodeId, sender: Sender)
    requires Hopeless(s, d, node, sender)
    ensures d in s.daemons && !AnsweredIn(s.daemons[d], node, sender)
  {
  }

  /** In particular a node that subscribes (a dynamic node, or one that was
      restarted) once every report was sent and counted and its own daemon has
      no release queued: whatever happens next, it is never answered. */
  lemma LateSubscriberNeverAnswered(s: System, d: DaemonId, node: NodeId, sender: Sender)
    requires Inv(s) && Distributed(s.nodeOf) && node in s.nodeOf && s.nodeOf[node] == d && d in s.daemons
    requires !AnsweredIn(s.daemons[d], node, sender) && s.daemons[d].down == []
    requires forall e :: e in s.daemons ==> s.daemons[e].p.reported && !ReportQueued(s.daemons[e])
    ensures !GetsAnswer(s, d, node, sender)
  {
    NeverAnswered(s, d, node, sender);
  }
}
