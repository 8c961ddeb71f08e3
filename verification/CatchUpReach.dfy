/** How far catch-up alone gets a daemon, when the log also holds operations on
    other daemons' nodes. */
module CatchUpReach {
  import opened Common
  import opened ParamLog
  import opened StateLog
  import opened CatchUp
  import opened CatchUpRuns
  import opened CatchUpTheorems

  /** Operation number p+1 belongs to a node of another daemon. */
  ghost predicate ForeignAt(s: System, d: DaemonId, p: nat) {
    p < |s.history| && s.history[p].target.node !in Nodes(s, d)
  }

  ghost predicate Blocked(s: System, d: DaemonId) {
    && d in s.peers && d in s.df.acks
    && Bounded(s.peers[d], s.df.acks[d], |s.history|)
    && forall p: nat :: ForeignAt(s, d, p) ==> Bounded(s.peers[d], s.df.acks[d], p)
  }

  /** Consecutive entries for local nodes that begin no later than operation
      number p+1, a foreign one, all end before it. */
  lemma {:induction false} EntryStopsAt(history: seq<Op>, entries: seq<Entry>, nodes: set<NodeId>, p: nat, i: nat)
    requires i < |entries| && p <= |history| && entries[0].sequence <= p + 1
    requires forall j :: 0 <= j <= i ==> entries[j].op.target.node in nodes
    requires forall j :: 0 <= j <= i ==>
      entries[j].sequence == entries[0].sequence + j && 0 < entries[j].sequence <= |history| && entries[j].op == history[entries[j].sequence - 1]
    requires p < |history| ==> history[p].target.node !in nodes
    ensures entries[i].sequence <= p
  {
    if i > 0 {
      EntryStopsAt(history, entries, nodes, p, i - 1);
    }
  }

  lemma DeliveryStopsAt(s: System, d: DaemonId, count: nat, ackSent: bool, p: nat)
    requires Inv(s) && Enabled(s, DeliverCatchUp(d, count, ackSent)) && 0 < count
    requires s.peers[d].inbox[0].entries[0].sequence <= p + 1
    requires p == |s.history| || ForeignAt(s, d, p)
    ensures s.peers[d].inbox[0].entries[count - 1].sequence <= p
  {
    hide AgreesFrom, LogInv, Fold;
    assert DaemonInv(s, d) && MessageOk(s.history, s.peers[d].inbox[0], s.peers[d].level);
    EntryStopsAt(s.history, s.peers[d].inbox[0].entries, Nodes(s, d), p, count - 1);
  }

  lemma BoundKeptBefore(s: System, step: Step, d: DaemonId, p: nat)
    requires Inv(s) && Enabled(s, step) && d in s.peers && d in s.df.acks && !(step.Fallback? && step.d == d)
    requires Bounded(s.peers[d], s.df.acks[d], p) && (p == |s.history| || ForeignAt(s, d, p))
    ensures var t := Do(s, step); d in t.peers && d in t.df.acks && Bounded(t.peers[d], t.df.acks[d], p)
  {
    if step.DeliverCatchUp? && step.d == d && step.count > 0 {
      DeliveryStopsAt(s, d, step.count, step.ackSent, p);
    }
    BoundKept(s, step, d, p);
  }

  lemma BoundRaised(p: Peer, ack: nat, bound: nat, higher: nat)
    requires Bounded(p, ack, bound) && bound <= higher
    ensures Bounded(p, ack, higher)
  {
  }

  lemma BlockedStep(s: System, step: Step, d: DaemonId)
    requires Inv(s) && Blocked(s, d) && Enabled(s, step) && !(step.Fallback? && step.d == d)
    ensures Blocked(Do(s, step), d)
  {
    hide Inv, Bounded;
    var t := Do(s, step);
    BoundKeptBefore(s, step, d, |s.history|);
    forall p: nat | ForeignAt(t, d, p) ensures Bounded(t.peers[d], t.df.acks[d], p) {
      assert p < |s.history| ==> ForeignAt(s, d, p);
      BoundKeptBefore(s, step, d, p);
    }
    BoundRaised(t.peers[d], t.df.acks[d], |s.history|, |t.history|);
  }

  lemma {:induction false} BlockedRun(s: System, steps: seq<Step>, d: DaemonId)
    requires Inv(s) && Blocked(s, d) && Runs(s, steps)
    requires forall i :: 0 <= i < |steps| ==> !(steps[i].Fallback? && steps[i].d == d)
    ensures Blocked(Exec(s, steps), d)
    decreases |steps|
  {
    if steps != [] {
      StepKeeps(s, steps[0]);
      BlockedStep(s, steps[0], d);
      BlockedRun(Do(s, steps[0]), steps[1..], d);
    }
  }

  /** The delta is not filtered by daemon and a daemon stops at the first node
      it does not run, so catch-up alone never gets a daemon's acknowledgement
      past an operation on another daemon's node; only a full replay does. */
  lemma CatchUpStopsAtForeignOp(nodeOf: map<NodeId, DaemonId>, steps: seq<Step>, d: DaemonId, p: nat)
    requires Runs(Start(nodeOf), steps) && d in nodeOf.Values
    requires forall i :: 0 <= i < |steps| ==> !(steps[i].Fallback? && steps[i].d == d)
    requires ForeignAt(Exec(Start(nodeOf), steps), d, p)
    ensures var s := Exec(Start(nodeOf), steps); d in s.df.acks && s.df.acks[d] <= p
  {
    StartInv(nodeOf);
    BlockedRun(Start(nodeOf), steps, d);
  }

  // ---- The exact reach of catch-up ----

  /** Nothing is on its way to or from the daemon. */
  ghost predicate Quiet(s: System, d: DaemonId) {
    d in s.peers && d in s.df.acks && s.peers[d].inbox == [] && s.peers[d].acks == []
  }

  ghost predicate NoReplayTo(steps: seq<Step>, d: DaemonId) {
    forall i :: 0 <= i < |steps| ==> !(steps[i].Fallback? && steps[i].d == d)
  }

  /** Some continuation without a full replay brings the acknowledgement to `q`. */
  ghost predicate Reaches(s: System, d: DaemonId, q: nat) {
    exists steps :: Runs(s, steps) && NoReplayTo(steps, d) && Acknowledged(Exec(s, steps), d, q)
  }

  ghost predicate Acknowledged(s: System, d: DaemonId, q: nat) {
    d in s.df.acks && q <= s.df.acks[d]
  }

  /** What the daemon has left to be sent by catch-up: it still takes part, it
      is not too far behind, and only its own operations lie up to `q`. */
  ghost predicate InReach(s: System, d: DaemonId, q: nat)
    requires d in s.df.acks
  {
    && d in s.df.daemons && s.df.sequence - s.df.acks[d] <= MAX_STATE_LOG_ENTRIES
    && forall p: nat :: s.df.acks[d] <= p < q ==> !ForeignAt(s, d, p)
  }

  /** Why a daemon credited with `ack` gets no further than `bound`. */
  ghost predicate StuckAt(s: System, d: DaemonId, bound: nat) {
    && d in s.peers && d in s.df.acks && s.df.acks[d] <= bound
    && (|| d !in s.df.daemons
        || (ForeignAt(s, d, bound) && Bounded(s.peers[d], s.df.acks[d], bound))
        || Overrun(s, d))
  }

  /** Too far behind for a delta, with none on its way. */
  ghost predicate Overrun(s: System, d: DaemonId)
    requires d in s.peers && d in s.df.acks
  {
    && s.df.sequence - s.df.acks[d] > MAX_STATE_LOG_ENTRIES && s.peers[d].acks == []
    && forall m :: m in s.peers[d].inbox ==> !m.CatchUp?
  }

  lemma OverrunStep(s: System, step: Step, d: DaemonId)
    requires Inv(s) && Enabled(s, step) && d in s.peers && d in s.df.acks && Overrun(s, d)
    requires !(step.Fallback? && step.d == d)
    ensures var t := Do(s, step); d in t.peers && d in t.df.acks && t.df.acks[d] == s.df.acks[d] && Overrun(t, d)
  {
    hide DaemonInv, LogInv, Newer, MinAck, TakeCatchUp, ReplayView, Enumerates, Fold, Apply, LevelAfter;
    DeltaExact(s.df, s.history, d);
  }

  lemma OutsideStep(s: System, step: Step, d: DaemonId)
    requires Inv(s) && Enabled(s, step) && d in s.peers && d in s.df.acks && d !in s.df.daemons
    requires !(step.Fallback? && step.d == d)
    ensures var t := Do(s, step); d in t.peers && d in t.df.acks && t.df.acks[d] == s.df.acks[d] && d !in t.df.daemons
  {
    hide Inv, Newer, MinAck, TakeLive, TakeCatchUp, TakeReplay, Queued, Delta, Enumerates;
  }

  lemma StuckStep(s: System, step: Step, d: DaemonId, bound: nat)
    requires Inv(s) && Enabled(s, step) && StuckAt(s, d, bound) && !(step.Fallback? && step.d == d)
    ensures StuckAt(Do(s, step), d, bound)
  {
    if d !in s.df.daemons {
      OutsideStep(s, step, d);
    } else if Overrun(s, d) {
      OverrunStep(s, step, d);
    } else {
      BoundKeptBefore(s, step, d, bound);
      HistoryGrows(s, step);
      assert Nodes(Do(s, step), d) == Nodes(s, d);
    }
    hide Inv, Do, Enabled;
  }

  lemma {:induction false} StuckRun(s: System, steps: seq<Step>, d: DaemonId, bound: nat)
    requires Inv(s) && StuckAt(s, d, bound) && Runs(s, steps) && NoReplayTo(steps, d)
    ensures StuckAt(Exec(s, steps), d, bound)
    decreases |steps|
  {
    hide Inv, StuckAt, Do, Enabled;
    if steps != [] {
      StepKeeps(s, steps[0]);
      StuckStep(s, steps[0], d, bound);
      assert forall i :: 0 <= i < |steps[1..]| ==> steps[1..][i] == steps[i + 1];
      StuckRun(Do(s, steps[0]), steps[1..], d, bound);
    }
  }

  /** Report, deliver, acknowledge. */
  lemma ReportSent(s: System, d: DaemonId)
    requires Inv(s) && Quiet(s, d) && d in s.df.daemons
    requires s.df.acks[d] < s.df.sequence <= s.df.acks[d] + MAX_STATE_LOG_ENTRIES
    ensures Enabled(s, Report(d, true))
    ensures var t := Do(s, Report(d, true));
      && t.df == s.df && t.history == s.history && t.nodeOf == s.nodeOf && d in t.peers && t.peers[d].acks == []
      && t.peers[d].inbox == [CatchUp(Entries(s.history, s.df.acks[d], |s.history|))]
  {
    hide DaemonInv, Entries;
    DeltaExact(s.df, s.history, d);
  }

  lemma DeliveredUpTo(s: System, d: DaemonId, a: nat, q: nat)
    requires d in s.peers && a < q <= |s.history| && s.peers[d].acks == []
    requires s.peers[d].inbox == [CatchUp(Entries(s.history, a, |s.history|))]
    requires forall p: nat :: a <= p < q ==> !ForeignAt(s, d, p)
    ensures Enabled(s, DeliverCatchUp(d, q - a, true))
    ensures var t := Do(s, DeliverCatchUp(d, q - a, true)); t.df == s.df && d in t.peers && t.peers[d].acks == [q]
  {
    hide Fold, LevelAfter;
    var entries := s.peers[d].inbox[0].entries;
    forall i | 0 <= i < q - a ensures entries[i].op.target.node in Nodes(s, d) {
      assert !ForeignAt(s, d, a + i);
    }
  }

  lemma WithinReach(s: System, d: DaemonId, q: nat) returns (steps: seq<Step>)
    requires Inv(s) && Quiet(s, d) && s.df.acks[d] < q <= |s.history| && InReach(s, d, q)
    ensures Runs(s, steps) && NoReplayTo(steps, d)
    ensures d in Exec(s, steps).df.acks && Exec(s, steps).df.acks[d] == q
  {
    var t, two := HandedUpTo(s, d, q);
    hide Runs, Exec, Inv, Newer, MinAck;
    var u, three := Next(s, t, two, ReceiveAck(d));
    steps := three;
  }

  lemma HandedUpTo(s: System, d: DaemonId, q: nat) returns (t: System, steps: seq<Step>)
    requires Inv(s) && Quiet(s, d) && s.df.acks[d] < q <= |s.history| && InReach(s, d, q)
    ensures Runs(s, steps) && NoReplayTo(steps, d) && Exec(s, steps) == t
    ensures t.df == s.df && d in t.peers && t.peers[d].acks == [q] && s.df.sequence == |s.history|
  {
    var a := s.df.acks[d];
    assert s.df.sequence == |s.history|;
    hide Runs, Exec, Inv, Do, Enabled, Entries;
    NoSteps(s);
    ReportSent(s, d);
    t, steps := Next(s, s, [], Report(d, true));
    assert forall p: nat :: ForeignAt(t, d, p) ==> ForeignAt(s, d, p);
    DeliveredUpTo(t, d, a, q);
    t, steps := Next(s, t, steps, DeliverCatchUp(d, q - a, true));
  }

  /** A daemon that has left the dataflow is brought no further. */
  lemma LeaveStopsCatchUp(s: System, d: DaemonId, q: nat)
    requires Inv(s) && Quiet(s, d) && s.df.acks[d] < q <= |s.history|
    ensures !Reaches(Do(s, Leave(d)), d, q)
  {
    var t := Do(s, Leave(d));
    StepKeeps(s, Leave(d));
    hide Inv, Reaches;
    assert Quiet(t, d) && d !in t.df.daemons && t.df.acks == s.df.acks && t.history == s.history;
    CatchUpReachExact(t, d, q);
  }

  /** From a quiet state, catch-up alone can bring the acknowledgement to an
      operation `q` of the history not yet acknowledged if and only if the daemon
      still takes part, is at most 10 000 operations behind, and no operation on
      another daemon's node lies up to `q`. */
  lemma CatchUpReachExact(s: System, d: DaemonId, q: nat)
    requires Inv(s) && Quiet(s, d) && s.df.acks[d] < q <= |s.history|
    ensures Reaches(s, d, q) <==> InReach(s, d, q)
  {
    if InReach(s, d, q) {
      var steps := WithinReach(s, d, q);
      assert Acknowledged(Exec(s, steps), d, q);
    } else {
      var bound: nat := s.df.acks[d];
      if d in s.df.daemons && s.df.sequence - s.df.acks[d] <= MAX_STATE_LOG_ENTRIES {
        bound :| s.df.acks[d] <= bound < q && ForeignAt(s, d, bound);
      }
      assert StuckAt(s, d, bound);
      hide Inv, StuckAt, ForeignAt, Quiet, Runs, Exec;
      forall steps | Runs(s, steps) && NoReplayTo(steps, d) ensures !Acknowledged(Exec(s, steps), d, q) {
        StuckRun(s, steps, d, bound);
        assert StuckAt(Exec(s, steps), d, bound) ==> Exec(s, steps).df.acks[d] <= bound;
      }
    }
  }
}
