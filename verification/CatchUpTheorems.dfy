/** The results about every run of the catch-up protocol. */
module CatchUpTheorems {
  import opened Common
  import opened ParamLog
  import opened StateLog
  import opened CatchUp
  import opened CatchUpRuns

  /** In every run: the persisted parameters are the fold of the history;
      a daemon is refused a delta, and so sent a full replay, exactly when it
      is more than 10 000 operations behind; any delta is exactly what it has
      not acknowledged; and its view agrees from its level. */
  lemma EveryRun(nodeOf: map<NodeId, DaemonId>, steps: seq<Step>, d: DaemonId)
    requires Runs(Start(nodeOf), steps) && d in nodeOf.Values
    ensures var s := Exec(Start(nodeOf), steps);
      && d in s.df.acks && d in s.peers
      && s.store == Fold(map[], s.history) && s.df.sequence == |s.history|
      && s.df.acks[d] <= s.df.sequence && s.peers[d].level <= |s.history|
      && (Delta(s.df, s.df.acks[d]).None? <==> s.df.sequence - s.df.acks[d] > MAX_STATE_LOG_ENTRIES)
      && (Delta(s.df, s.df.acks[d]).Some? ==>
            Delta(s.df, s.df.acks[d]).value == Entries(s.history, s.df.acks[d], s.df.sequence))
      && AgreesFrom(s.peers[d].view, s.history, s.peers[d].level, Nodes(s, d))
  {
    StartInv(nodeOf);
    RunKeeps(Start(nodeOf), steps);
    PeersStay(Start(nodeOf), steps, d);
    var s := Exec(Start(nodeOf), steps);
    DeltaExact(s.df, s.history, d);
    assert DaemonInv(s, d);
  }

  lemma {:induction false} PeersStay(s: System, steps: seq<Step>, d: DaemonId)
    requires Inv(s) && Runs(s, steps) && d in s.peers
    ensures Inv(Exec(s, steps)) && d in Exec(s, steps).peers && Exec(s, steps).nodeOf == s.nodeOf
    decreases |steps|
  {
    if steps != [] {
      StepKeeps(s, steps[0]);
      PeersStay(Do(s, steps[0]), steps[1..], d);
    }
  }

  /** No step takes an acknowledgement back. */
  lemma AcksNeverDecrease(s: System, step: Step, d: DaemonId)
    requires Inv(s) && Enabled(s, step) && d in s.df.acks
    ensures d in Do(s, step).df.acks && s.df.acks[d] <= Do(s, step).df.acks[d] <= Do(s, step).df.sequence
  {
    AcksKept(s, step, d);
    StepKeeps(s, step);
    hide Do, Enabled, DaemonInv;
  }

  lemma AcksKept(s: System, step: Step, d: DaemonId)
    requires Inv(s) && Enabled(s, step) && d in s.df.acks
    ensures d in Do(s, step).df.acks && s.df.acks[d] <= Do(s, step).df.acks[d]
  {
    hide DaemonInv, Entries, MinAck, Newer, Delta, TakeLive, TakeCatchUp, TakeReplay, Queued, Enumerates;
    if step.ReceiveAck? {
      AcknowledgeKeeps(s.df, s.history, step.d, s.peers[step.d].acks[0]);
    }
  }

  /** In every run the acknowledgement with which every daemon ever tracked
      stands at the end leaves the log empty. */
  lemma LastAckEmptiesLog(nodeOf: map<NodeId, DaemonId>, steps: seq<Step>, d: DaemonId)
    requires Runs(Start(nodeOf), steps) && Enabled(Exec(Start(nodeOf), steps), ReceiveAck(d))
    requires d in Exec(Start(nodeOf), steps).df.daemons
    ensures var t := Do(Exec(Start(nodeOf), steps), ReceiveAck(d)).df;
      (forall e :: e in t.acks ==> t.acks[e] == t.sequence) ==> t.log == []
  {
    hide Inv, Start, Runs, Exec, Do, Enabled;
    StartInv(nodeOf);
    RunKeeps(Start(nodeOf), steps);
    AckEmptiesLog(Exec(Start(nodeOf), steps), d);
  }

  lemma AckEmptiesLog(s: System, d: DaemonId)
    requires Inv(s) && Enabled(s, ReceiveAck(d)) && d in s.df.daemons
    ensures var t := Do(s, ReceiveAck(d)).df;
      (forall e :: e in t.acks ==> t.acks[e] == t.sequence) ==> t.log == []
  {
    hide DaemonInv, LogInv, Newer, MinAck;
    var t := Do(s, ReceiveAck(d)).df;
    if forall e :: e in t.acks ==> t.acks[e] == t.sequence {
      CaughtUpEmptiesLog(s.df, s.history, d, s.peers[d].acks[0]);
    }
  }

  lemma {:induction false} AcksOverRun(s: System, steps: seq<Step>, d: DaemonId)
    requires Inv(s) && Runs(s, steps) && d in s.df.acks
    ensures var t := Exec(s, steps); d in t.df.acks && s.df.acks[d] <= t.df.acks[d] <= t.df.sequence
    decreases |steps|
  {
    hide Do, Enabled, DaemonInv;
    if steps != [] {
      StepKeeps(s, steps[0]);
      AcksNeverDecrease(s, steps[0], d);
      AcksOverRun(Do(s, steps[0]), steps[1..], d);
    }
  }

  // ---- Bounds on what a daemon is or will be credited with ----

  /** The acknowledgements on their way back are at most `bound`, and no
      catch-up on its way begins after operation number start + 1. */
  ghost predicate Within(p: Peer, start: nat, bound: nat) {
    && (forall a :: a in p.acks ==> a <= bound)
    && (forall m :: m in p.inbox && m.CatchUp? && m.entries != [] ==> m.entries[0].sequence <= start + 1)
  }

  /** The daemon is credited with at most `bound` operations, now and once
      the acknowledgements on their way arrive, and no catch-up under way
      starts beyond them. */
  ghost predicate Bounded(p: Peer, ack: nat, bound: nat) {
    ack <= bound && Within(p, bound, bound)
  }

  lemma CreditKept(s: System, step: Step, d: DaemonId, bound: nat)
    requires Inv(s) && Enabled(s, step) && d in s.peers && Bounded(s.peers[d], s.df.acks[d], bound)
    requires !(step.Fallback? && step.d == d)
    ensures d in Do(s, step).df.acks && Do(s, step).df.acks[d] <= bound
  {
    hide PeerOk, LogInv, Newer, MinAck, TakeLive, TakeCatchUp, TakeReplay, Queued, Delta, Enumerates;
    if step.ReceiveAck? && step.d == d {
      assert s.peers[d].acks[0] in s.peers[d].acks;
    }
  }

  lemma WithinKept(s: System, step: Step, d: DaemonId, start: nat, bound: nat)
    requires Inv(s) && Enabled(s, step) && d in s.peers && s.df.acks[d] <= start && Within(s.peers[d], start, bound)
    requires step.DeliverCatchUp? && step.d == d && step.count > 0 ==>
      s.peers[d].inbox[0].entries[step.count - 1].sequence <= bound
    ensures d in Do(s, step).peers && Within(Do(s, step).peers[d], start, bound)
  {
    hide DaemonInv, LogInv, Within, Append, Acknowledge, FullyReplayed, LevelAfter, Enumerates, ReplayView, Fold, Complete;
    var p := s.peers[d];
    match step {
      case Mutate(op, sent) => WithinQueued(p, sent, Live(Entry(s.df.sequence + 1, op)), start, bound);
      case Report(e, sent) =>
        if e == d {
          DeltaExact(s.df, s.history, d);
          var delta := Delta(s.df, s.df.acks[d]).value;
          WithinQueued(p, sent && delta != [], CatchUp(delta), start, bound);
        }
      case _ =>
        if step.d == d {
          WithinFewer(p, Do(s, step).peers[d], start, bound);
        }
    }
  }

  lemma WithinQueued(p: Peer, sent: bool, m: Message, start: nat, bound: nat)
    requires Within(p, start, bound)
    requires m.CatchUp? && m.entries != [] ==> m.entries[0].sequence <= start + 1
    ensures Within(Queued(p, sent, m), start, bound)
  {
  }

  lemma WithinFewer(p: Peer, q: Peer, start: nat, bound: nat)
    requires Within(p, start, bound)
    requires forall m :: m in q.inbox && m.CatchUp? ==> m in p.inbox
    requires forall a :: a in q.acks ==> a in p.acks || a <= bound
    ensures Within(q, start, bound)
  {
  }

  /** A bound holds until a delivery to this daemon goes past it or the daemon
      is sent a full replay. */
  lemma BoundKept(s: System, step: Step, d: DaemonId, bound: nat)
    requires Inv(s) && Enabled(s, step) && d in s.peers && Bounded(s.peers[d], s.df.acks[d], bound)
    requires !(step.Fallback? && step.d == d)
    requires step.DeliverCatchUp? && step.d == d && step.count > 0 ==>
      s.peers[d].inbox[0].entries[step.count - 1].sequence <= bound
    ensures d in Do(s, step).peers && d in Do(s, step).df.acks
    ensures Bounded(Do(s, step).peers[d], Do(s, step).df.acks[d], bound)
  {
    CreditKept(s, step, d, bound);
    WithinKept(s, step, d, bound, bound);
    hide Do, Enabled;
  }

  /** No acknowledgement on its way exceeds the history, and every catch-up on
      its way begins with an operation not acknowledged when it was sent. */
  ghost predicate Paced(s: System, d: DaemonId) {
    && d in s.peers && d in s.df.acks
    && s.df.acks[d] <= |s.history| && Within(s.peers[d], s.df.acks[d], |s.history|)
  }

  lemma PacedKept(s: System, step: Step, d: DaemonId)
    requires Inv(s) && Enabled(s, step) && Paced(s, d)
    ensures Paced(Do(s, step), d)
  {
    DeliveryWithinHistory(s, step);
    AcksNeverDecrease(s, step, d);
    WithinKept(s, step, d, s.df.acks[d], |s.history|);
    HistoryGrows(s, step);
    hide Do, Enabled, DaemonInv;
  }

  lemma DeliveryWithinHistory(s: System, step: Step)
    requires Inv(s) && Enabled(s, step)
    ensures step.DeliverCatchUp? && step.count > 0 ==>
      s.peers[step.d].inbox[0].entries[step.count - 1].sequence <= |s.history|
  {
    hide AgreesFrom, LogInv, Entries;
    if step.DeliverCatchUp? && step.count > 0 {
      var p := s.peers[step.d];
      assert DaemonInv(s, step.d) && MessageOk(s.history, p.inbox[0], p.level);
      HandedOver(s.history, p.inbox[0].entries, p.level, step.count);
    }
  }

  lemma HistoryGrows(s: System, step: Step)
    requires Inv(s) && Enabled(s, step)
    ensures var t := Do(s, step); s.history <= t.history && t.nodeOf == s.nodeOf && t.df.sequence == |t.history|
    ensures !step.Mutate? ==> Do(s, step).history == s.history && Do(s, step).store == s.store
  {
    StepKeeps(s, step);
  }

  // ---- The daemon's loop is the delivery step ----

  /** A change is forwarded to the daemon of its node and to no other, and
      reaches no view by itself. */
  lemma ForwardExact(s: System, op: Op, sent: bool, e: DaemonId)
    requires Inv(s) && Enabled(s, Mutate(op, sent)) && e in s.peers
    ensures var t := Do(s, Mutate(op, sent));
      && e in t.peers && t.peers[e].view == s.peers[e].view && t.peers[e].acks == s.peers[e].acks && t.df.acks == s.df.acks
      && t.peers[e].inbox == s.peers[e].inbox
           + (if sent && s.nodeOf[op.target.node] == e then [Live(Entry(|s.history| + 1, op))] else [])
  {
    assert s.df.sequence == |s.history|;
    hide Inv, Append, Apply;
    assert s.peers[e].inbox + [] == s.peers[e].inbox;
    assert Append(s.df, op).acks == s.df.acks by { AppendKeepsAcks(s.df, op); }
  }

  lemma AppendKeepsAcks(df: LogState, op: Op)
    ensures Append(df, op).acks == df.acks
  {
  }

  /** An acknowledgement is taken off the queue; if the daemon takes part its
      number counts, up to the log's own and never downwards, and for no other
      daemon. */
  lemma AckExact(s: System, d: DaemonId, e: DaemonId)
    requires Inv(s) && Enabled(s, ReceiveAck(d)) && e in s.df.acks
    ensures var t := Do(s, ReceiveAck(d));
      && t.peers == s.peers[d := s.peers[d].(acks := s.peers[d].acks[1..])]
      && t.df.sequence == s.df.sequence && t.df.daemons == s.df.daemons && e in t.df.acks
      && (e != d || d !in s.df.daemons ==> t.df.acks[e] == s.df.acks[e])
      && (e == d && d in s.df.daemons ==>
            && t.df.acks[e] in {s.df.acks[e], s.peers[d].acks[0], s.df.sequence}
            && s.df.acks[e] <= t.df.acks[e] <= s.df.sequence
            && (if s.peers[d].acks[0] <= s.df.sequence then s.peers[d].acks[0] <= t.df.acks[e] else t.df.acks[e] == s.df.sequence))
  {
    hide DaemonInv, Newer, MinAck, Entries;
  }

  /** A single change taken off the queue acts on the view as the daemon does,
      and on nothing else. */
  lemma ChangeIsAStep(s: System, d: DaemonId, accepted: bool, k: Key)
    requires Enabled(s, DeliverLive(d, accepted))
    ensures var p, q := s.peers[d], Do(s, DeliverLive(d, accepted)).peers[d];
      && q.inbox == p.inbox[1..] && q.acks == p.acks
      && (!accepted || k != Change(p.inbox[0]).target ==> Lookup(q.view, k) == Lookup(p.view, k))
      && (accepted && p.inbox[0].Live? && k == p.inbox[0].entry.op.target ==>
            Lookup(q.view, k) == if p.inbox[0].entry.op.SetParam? then Some(p.inbox[0].entry.op.value) else None)
      && (accepted && p.inbox[0].Restore? && k == p.inbox[0].item.0 ==> Lookup(q.view, k) == Some(p.inbox[0].item.1))
  {
  }

  /** Whatever channels are open and have room, the loop over the entries of
      the next message acts as one delivery step: the daemon's view becomes the
      loop's, and the number the loop returns is what it acknowledges, if any... */
  lemma LoopIsAStep(s: System, d: DaemonId, channels: set<NodeId>, room: seq<bool>, ackSent: bool)
    requires Inv(s) && d in s.peers && s.peers[d].inbox != [] && s.peers[d].inbox[0].CatchUp?
    requires |room| == |s.peers[d].inbox[0].entries| && channels <= Nodes(s, d)
    ensures var p := s.peers[d];
      var (through, view) := Applied(p.inbox[0].entries, channels, room, p.view);
      var step := DeliverCatchUp(d, Deliverable(p.inbox[0].entries, channels, room), ackSent);
      && Enabled(s, step)
      && Do(s, step).peers[d].view == view
      && Do(s, step).peers[d].acks == (if ackSent && through > 0 then p.acks + [through] else p.acks)
      && Do(s, step).peers[d].inbox == p.inbox[1..]
  {
    hide AgreesFrom, LogInv, LevelAfter, Entries;
    var p := s.peers[d];
    assert DaemonInv(s, d) && MessageOk(s.history, p.inbox[0], p.level);
    var n := Deliverable(p.inbox[0].entries, channels, room);
    if n == 0 {
      assert p.inbox[0].entries[..0] == [] && Ops([]) == [];
    } else {
      HandedOver(s.history, p.inbox[0].entries, p.level, n);
    }
  }

  /** ...and every delivery step is such a loop. */
  lemma {:induction false} StepIsALoop(entries: seq<Entry>, nodes: set<NodeId>, count: nat, room: seq<bool>)
    requires count <= |entries| == |room| && forall i :: 0 <= i < count ==> entries[i].op.target.node in nodes
    requires forall i :: 0 <= i < |room| ==> room[i] == (i < count)
    ensures Deliverable(entries, nodes, room) == count
  {
    if count > 0 {
      StepIsALoop(entries[1..], nodes, count - 1, room[1..]);
    }
  }
}
