/** What every run of the catch-up protocol keeps, when the coordinator's
    acknowledgements can be trusted, and where they cannot. */
module CatchUpRuns {
  import opened Common
  import opened ParamLog
  import opened StateLog
  import opened CatchUp

  // ---- Invariant of one daemon and its channel ----

  ghost predicate MessageOk(history: seq<Op>, m: Message, level: nat) {
    match m
    case Live(e) => level < e.sequence <= |history| && e.op == history[e.sequence - 1]
    case Restore(at, item) => level <= at <= |history| && Lookup(Fold(map[], history[..at]), item.0) == Some(item.1)
    case CatchUp(es) =>
      && es != [] && 0 < es[0].sequence && es[0].sequence - 1 + |es| <= |history|
      && es == Entries(history, es[0].sequence - 1, es[0].sequence - 1 + |es|)
  }

  /** A change queued behind a catch-up is newer than all it holds. */
  ghost predicate Ordered(earlier: Message, later: Message) {
    earlier.CatchUp? && earlier.entries != [] ==>
      var last := earlier.entries[|earlier.entries| - 1].sequence;
      && (later.Live? ==> last < later.entry.sequence)
      && (later.Restore? ==> last <= later.at)
  }

  ghost predicate InboxOk(history: seq<Op>, inbox: seq<Message>, level: nat) {
    && (forall i :: 0 <= i < |inbox| ==> MessageOk(history, inbox[i], level))
    && (forall i, j :: 0 <= i < j < |inbox| ==> Ordered(inbox[i], inbox[j]))
  }

  ghost predicate PeerOk(history: seq<Op>, nodes: set<NodeId>, p: Peer) {
    && p.level <= |history|
    && AgreesFrom(p.view, history, p.level, nodes)
    && InboxOk(history, p.inbox, p.level)
  }

  lemma EntriesOfLonger(history: seq<Op>, op: Op, a: nat, b: nat)
    requires a <= b <= |history|
    ensures Entries(history + [op], a, b) == Entries(history, a, b)
  {
  }

  lemma InboxAfterAppend(history: seq<Op>, op: Op, inbox: seq<Message>, level: nat)
    requires InboxOk(history, inbox, level) && level <= |history|
    ensures InboxOk(history + [op], inbox, level)
    ensures InboxOk(history + [op], inbox + [Live(Entry(|history| + 1, op))], level)
  {
    var longer := history + [op];
    forall i | 0 <= i < |inbox|
      ensures MessageOk(longer, inbox[i], level)
      ensures Ordered(inbox[i], Live(Entry(|history| + 1, op)))
    {
      if inbox[i].Restore? {
        assert longer[..inbox[i].at] == history[..inbox[i].at];
      }
      if inbox[i].CatchUp? {
        var first := inbox[i].entries[0].sequence - 1;
        EntriesOfLonger(history, op, first, first + |inbox[i].entries|);
      }
    }
  }

  lemma PeerAfterAppend(history: seq<Op>, op: Op, nodes: set<NodeId>, p: Peer, sent: bool)
    requires PeerOk(history, nodes, p)
    ensures PeerOk(history + [op], nodes, Queued(p, sent, Live(Entry(|history| + 1, op))))
  {
    AgreesAfterAppend(p.view, history, p.level, nodes, op);
    InboxAfterAppend(history, op, p.inbox, p.level);
  }

  lemma PeerAfterLive(history: seq<Op>, nodes: set<NodeId>, p: Peer, accepted: bool)
    requires PeerOk(history, nodes, p) && p.inbox != [] && !p.inbox[0].CatchUp?
    ensures PeerOk(history, nodes, TakeLive(p, accepted))
  {
    hide AgreesFrom, Apply;
    assert MessageOk(history, p.inbox[0], p.level);
    match p.inbox[0]
    case Live(e) => AgreesAfterLate(p.view, history, p.level, nodes, e.sequence - 1);
    case Restore(at, item) => AgreesAfterRestore(p.view, history, p.level, nodes, at, item.0, item.1);
  }

  lemma PeerAfterReport(history: seq<Op>, nodes: set<NodeId>, p: Peer, ack: nat, sent: bool)
    requires PeerOk(history, nodes, p) && ack < |history|
    ensures PeerOk(history, nodes, Queued(p, sent, CatchUp(Entries(history, ack, |history|))))
  {
  }

  lemma PeerAfterCatchUp(history: seq<Op>, nodes: set<NodeId>, p: Peer, count: nat, ackSent: bool)
    requires PeerOk(history, nodes, p)
    requires p.inbox != [] && p.inbox[0].CatchUp? && count <= |p.inbox[0].entries|
    ensures PeerOk(history, nodes, TakeCatchUp(p, count, ackSent, history, nodes))
  {
    hide AgreesFrom, Entries, LevelAfter;
    var es := p.inbox[0].entries;
    assert MessageOk(history, p.inbox[0], p.level);
    if count > 0 {
      HandedOver(history, es, p.level, count);
      AgreesAfterHandover(history, nodes, p.view, p.level, es[0].sequence - 1, es[count - 1].sequence);
    }
    InboxAfterFirst(history, p.inbox, p.level, TakeCatchUp(p, count, ackSent, history, nodes).level);
  }

  /** The first `count` entries of a catch-up message are consecutive
      operations of the history. */
  lemma HandedOver(history: seq<Op>, es: seq<Entry>, level: nat, count: nat)
    requires MessageOk(history, CatchUp(es), level) && 0 < count <= |es|
    ensures es[0].sequence - 1 < es[count - 1].sequence <= es[|es| - 1].sequence <= |history|
    ensures Ops(es[..count]) == history[es[0].sequence - 1..es[count - 1].sequence]
  {
  }

  /** What is queued behind a catch-up message stays in order when the level
      rises no further than the message reaches. */
  lemma InboxAfterFirst(history: seq<Op>, inbox: seq<Message>, level: nat, after: nat)
    requires InboxOk(history, inbox, level) && inbox != [] && inbox[0].CatchUp? && inbox[0].entries != []
    requires after <= level || after <= inbox[0].entries[|inbox[0].entries| - 1].sequence
    ensures InboxOk(history, inbox[1..], after)
  {
  }

  lemma AgreesAfterHandover(history: seq<Op>, nodes: set<NodeId>, view: Params, level: nat, a: nat, m: nat)
    requires a <= m <= |history| && level <= |history| && AgreesFrom(view, history, level, nodes)
    ensures LevelAfter(history, nodes, level, a, m) in {level, m}
    ensures AgreesFrom(Fold(view, history[a..m]), history, LevelAfter(history, nodes, level, a, m), nodes)
  {
    hide AgreesFrom, RewoundKey;
    if a > level {
      AgreesAfterGap(view, history, level, nodes, a, m);
    } else {
      AgreesAfterDelivery(view, history, level, nodes, a, m);
      if m < level {
        RedeliveryExact(view, history, level, nodes, a, m);
      }
    }
  }

  /** Handing operations a+1 .. m over leaves agreement from the higher of the
      old level and `m` exactly when it winds no key back. */
  lemma HandoverExact(history: seq<Op>, nodes: set<NodeId>, view: Params, level: nat, a: nat, m: nat)
    requires a <= m <= |history| && a <= level <= |history| && AgreesFrom(view, history, level, nodes)
    ensures !Rewinds(history, nodes, level, a, m)
       <==> AgreesFrom(Fold(view, history[a..m]), history, if m < level then level else m, nodes)
  {
    hide AgreesFrom, RewoundKey;
    AgreesAfterDelivery(view, history, level, nodes, a, m);
    if m < level {
      RedeliveryExact(view, history, level, nodes, a, m);
    }
  }

  lemma PeerAfterLoss(history: seq<Op>, nodes: set<NodeId>, p: Peer, i: nat)
    requires PeerOk(history, nodes, p) && i < |p.inbox|
    ensures PeerOk(history, nodes, p.(inbox := Without(p.inbox, i)))
  {
  }

  lemma PeerAfterReplay(history: seq<Op>, nodes: set<NodeId>, p: Peer, items: seq<Item>, replies: seq<Reply>)
    requires PeerOk(history, nodes, p)
    requires |replies| <= |items| && Enumerates(items, Fold(map[], history), nodes)
    ensures PeerOk(history, nodes, TakeReplay(p, items, replies, history, Fold(map[], history), nodes))
  {
    hide AgreesFrom, ReplayView;
    var handled := items[..|replies|];
    ReplayKeepsLevel(p.view, handled, replies, history, p.level, nodes);
    InboxWithRestores(history, p.inbox, p.level, items[|replies|..]);
    if Complete(items, replies) {
      assert handled == items;
      ReplayExact(p.view, items, replies, Fold(map[], history), nodes);
      AgreeingAtTheEnd(ReplayView(p.view, items, replies), history, nodes);
    }
  }

  lemma InboxWithRestores(history: seq<Op>, inbox: seq<Message>, level: nat, items: seq<Item>)
    requires InboxOk(history, inbox, level) && level <= |history|
    requires forall i :: 0 <= i < |items| ==> Lookup(Fold(map[], history), items[i].0) == Some(items[i].1)
    ensures InboxOk(history, inbox + Restores(items, |history|), level)
  {
    assert history[..|history|] == history;
    forall i | 0 <= i < |inbox| ensures forall item :: Ordered(inbox[i], Restore(|history|, item)) {
      assert MessageOk(history, inbox[i], level);
    }
  }

  // ---- Invariant of the whole system ----

  ghost predicate DaemonInv(s: System, d: DaemonId)
    requires d in s.peers
  {
    PeerOk(s.history, Nodes(s, d), s.peers[d])
  }

  ghost predicate Inv(s: System) {
    && LogInv(s.df, s.history)
    && s.store == Fold(map[], s.history)
    && s.nodeOf.Values <= s.df.acks.Keys == s.peers.Keys
    && (forall i :: 0 <= i < |s.history| ==> s.history[i].target.node in s.nodeOf)
    && (forall d :: d in s.peers ==> DaemonInv(s, d))
  }

  lemma StartInv(nodeOf: map<NodeId, DaemonId>)
    ensures Inv(Start(nodeOf))
  {
    StartKeeps(nodeOf.Values);
    hide LogInv;
  }

  lemma MutateKeeps(s: System, op: Op, sent: bool)
    requires Inv(s) && Enabled(s, Mutate(op, sent))
    ensures Inv(Do(s, Mutate(op, sent)))
  {
    hide PeerOk, LogInv;
    var t := Do(s, Mutate(op, sent));
    AppendKeeps(s.df, s.history, op);
    assert t.history[..|s.history|] == s.history;
    forall d | d in t.peers ensures DaemonInv(t, d) {
      assert DaemonInv(s, d) && Nodes(t, d) == Nodes(s, d);
      PeerAfterAppend(s.history, op, Nodes(s, d), s.peers[d], sent && d == s.nodeOf[op.target.node]);
    }
  }

  /** A step that touches one daemon's part only. */
  lemma OneDaemonChanged(s: System, t: System, d: DaemonId)
    requires Inv(s) && d in s.peers && d in t.peers && t.peers == s.peers[d := t.peers[d]]
    requires LogInv(t.df, t.history) && t.df.acks.Keys == s.df.acks.Keys
    requires t.history == s.history && t.nodeOf == s.nodeOf && t.store == s.store
    requires PeerOk(s.history, Nodes(s, d), t.peers[d])
    ensures Inv(t)
  {
    hide PeerOk, LogInv;
    forall e | e in t.peers ensures DaemonInv(t, e) {
      assert DaemonInv(s, e) && Nodes(t, e) == Nodes(s, e);
    }
  }

  lemma FallbackKeeps(s: System, d: DaemonId, items: seq<Item>, replies: seq<Reply>)
    requires Inv(s) && Enabled(s, Fallback(d, items, replies))
    ensures Inv(Do(s, Fallback(d, items, replies)))
  {
    hide PeerOk, TakeReplay;
    assert DaemonInv(s, d);
    FullyReplayedKeeps(s.df, s.history, d);
    PeerAfterReplay(s.history, Nodes(s, d), s.peers[d], items, replies);
    OneDaemonChanged(s, Do(s, Fallback(d, items, replies)), d);
  }

  lemma ReportKeeps(s: System, d: DaemonId, sent: bool)
    requires Inv(s) && Enabled(s, Report(d, sent))
    ensures Inv(Do(s, Report(d, sent)))
  {
    hide PeerOk, Queued;
    assert DaemonInv(s, d);
    DeltaExact(s.df, s.history, d);
    PeerAfterReport(s.history, Nodes(s, d), s.peers[d], s.df.acks[d], sent);
    OneDaemonChanged(s, Do(s, Report(d, sent)), d);
  }

  lemma ReceiveAckKeeps(s: System, d: DaemonId)
    requires Inv(s) && Enabled(s, ReceiveAck(d))
    ensures Inv(Do(s, ReceiveAck(d)))
  {
    assert DaemonInv(s, d);
    AcknowledgeKeeps(s.df, s.history, d, s.peers[d].acks[0]);
    OneDaemonChanged(s, Do(s, ReceiveAck(d)), d);
  }

  lemma ChannelStepKeeps(s: System, step: Step)
    requires Inv(s) && Enabled(s, step)
    requires step.DeliverLive? || step.DeliverCatchUp? || step.LoseMessage? || step.LoseAck?
    ensures Inv(Do(s, step))
  {
    var d := step.d;
    assert DaemonInv(s, d);
    match step {
      case DeliverLive(_, accepted) => PeerAfterLive(s.history, Nodes(s, d), s.peers[d], accepted);
      case DeliverCatchUp(_, count, ackSent) => PeerAfterCatchUp(s.history, Nodes(s, d), s.peers[d], count, ackSent);
      case LoseMessage(_, i) => PeerAfterLoss(s.history, Nodes(s, d), s.peers[d], i);
      case LoseAck(_, _) =>
    }
    hide PeerOk, TakeLive, TakeCatchUp;
    OneDaemonChanged(s, Do(s, step), d);
  }

  lemma StepKeeps(s: System, step: Step)
    requires Inv(s) && Enabled(s, step)
    ensures Inv(Do(s, step))
  {
    match step
    case Mutate(op, sent) => MutateKeeps(s, op, sent);
    case Fallback(d, items, replies) => FallbackKeeps(s, d, items, replies);
    case Report(d, sent) => ReportKeeps(s, d, sent);
    case ReceiveAck(d) => ReceiveAckKeeps(s, d);
    case Leave(d) =>
      LeaveKeeps(s.df, s.history, {d});
      assert forall e :: e in s.peers ==> DaemonInv(s, e);
    case _ => ChannelStepKeeps(s, step);
  }

  lemma {:induction false} RunKeeps(s: System, steps: seq<Step>)
    requires Inv(s) && Runs(s, steps)
    ensures Inv(Exec(s, steps))
    decreases |steps|
  {
    if steps != [] {
      StepKeeps(s, steps[0]);
      RunKeeps(Do(s, steps[0]), steps[1..]);
    }
  }

  // ---- Putting runs together ----

  lemma {:induction false} RunsConcat(s: System, first: seq<Step>, second: seq<Step>)
    requires Runs(s, first) && Runs(Exec(s, first), second)
    ensures Runs(s, first + second) && Exec(s, first + second) == Exec(Exec(s, first), second)
    decreases |first|
  {
    if first == [] {
      assert first + second == second;
    } else {
      assert (first + second)[1..] == first[1..] + second;
      RunsConcat(Do(s, first[0]), first[1..], second);
    }
  }

  lemma NoSteps(s: System)
    ensures Runs(s, []) && Exec(s, []) == s
  {
  }

  lemma RunsOneMore(s: System, steps: seq<Step>, step: Step)
    requires Runs(s, steps) && Enabled(Exec(s, steps), step)
    ensures Runs(s, steps + [step]) && Exec(s, steps + [step]) == Do(Exec(s, steps), step)
  {
    assert [step][1..] == [];
    RunsConcat(s, steps, [step]);
  }

  /** One step further along a run that started in `s0`. */
  lemma Next(s0: System, s: System, done: seq<Step>, step: Step) returns (t: System, steps: seq<Step>)
    requires Runs(s0, done) && Exec(s0, done) == s && Enabled(s, step)
    ensures t == Do(s, step) && steps == done + [step] && Runs(s0, steps) && Exec(s0, steps) == t
  {
    t, steps := Do(s, step), done + [step];
    RunsOneMore(s0, done, step);
  }
}
