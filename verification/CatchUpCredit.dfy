/** When the coordinator's credit of its daemons is true, and exactly which
    steps make it false. */
module CatchUpCredit {
  import opened Common
  import opened ParamLog
  import opened StateLog
  import opened CatchUp
  import opened CatchUpRuns
  import opened CatchUpTheorems

  /** The highest of `ack` and the acknowledgements in `acks`. */
  function Highest(acks: seq<nat>, ack: nat): (c: nat)
    ensures ack <= c && (c == ack || c in acks) && forall a :: a in acks ==> a <= c
  {
    if acks == [] then ack
    else
      assert acks == [acks[0]] + acks[1..];
      var rest := Highest(acks[1..], ack);
      if rest < acks[0] then acks[0] else rest
  }

  /** What the coordinator credits a daemon with once the acknowledgements on
      their way have arrived. */
  function Credit(s: System, d: DaemonId): nat
    requires d in s.peers && d in s.df.acks
  {
    Highest(s.peers[d].acks, s.df.acks[d])
  }

  /** The daemon's view agrees from the operation it is credited with. */
  ghost predicate TruthfulTo(s: System, d: DaemonId) {
    && d in s.peers && d in s.df.acks && Credit(s, d) <= |s.history|
    && AgreesFrom(s.peers[d].view, s.history, Credit(s, d), Nodes(s, d))
  }

  ghost predicate Truthful(s: System) {
    forall d :: d in s.peers ==> TruthfulTo(s, d)
  }

  /** The ways to lose the truth: a catch-up that stops short of the credit and
      winds a key back, a complete replay to a daemon that still holds a deleted
      key, and a change that arrives after the daemon was credited with
      something newer. */
  ghost predicate Orderly(s: System, step: Step)
    requires Enabled(s, step)
  {
    match step
    case DeliverCatchUp(d, count, ackSent) =>
      var entries := s.peers[d].inbox[0].entries;
      count == 0 || entries[0].sequence == 0 || d !in s.df.acks ||
      !Rewinds(s.history, Nodes(s, d), Credit(s, d), entries[0].sequence - 1, entries[count - 1].sequence)
    case DeliverLive(d, accepted) =>
      accepted && d in s.df.acks && Credit(s, d) <= |s.history| ==>
        !Spoils(s.history, Credit(s, d), Nodes(s, d), Change(s.peers[d].inbox[0]))
    case Fallback(d, items, replies) =>
      Complete(items, replies) ==> !HoldsStaleKey(s.peers[d].view, s.store, Nodes(s, d))
    case _ => true
  }

  // ---- One step, one daemon ----

  /** Steps that leave the view and do not raise the credit. */
  lemma QuietStep(s: System, t: System, d: DaemonId)
    requires TruthfulTo(s, d) && d in t.peers && d in t.df.acks && Credit(t, d) <= Credit(s, d)
    requires t.history == s.history && t.nodeOf == s.nodeOf && t.peers[d].view == s.peers[d].view
    ensures TruthfulTo(t, d)
  {
    assert Nodes(t, d) == Nodes(s, d);
    AgreesBelow(s.peers[d].view, s.history, Credit(t, d), Credit(s, d), Nodes(s, d));
  }

  lemma MutateTrue(s: System, op: Op, sent: bool, d: DaemonId)
    requires Inv(s) && TruthfulTo(s, d) && Enabled(s, Mutate(op, sent))
    ensures TruthfulTo(Do(s, Mutate(op, sent)), d)
  {
    hide AgreesFrom, LogInv, DaemonInv;
    var t := Do(s, Mutate(op, sent));
    assert Nodes(t, d) == Nodes(s, d) && Credit(t, d) == Credit(s, d);
    AgreesAfterAppend(s.peers[d].view, s.history, Credit(s, d), Nodes(s, d), op);
  }

  lemma ChangeStepExact(s: System, d: DaemonId, accepted: bool)
    requires TruthfulTo(s, d) && Enabled(s, DeliverLive(d, accepted))
    ensures TruthfulTo(Do(s, DeliverLive(d, accepted)), d) <==> Orderly(s, DeliverLive(d, accepted))
  {
    hide AgreesFrom, Spoils;
    var t := Do(s, DeliverLive(d, accepted));
    assert Nodes(t, d) == Nodes(s, d) && Credit(t, d) == Credit(s, d);
    ChangeExact(s.peers[d].view, s.history, Credit(s, d), Nodes(s, d), Change(s.peers[d].inbox[0]));
  }

  /** One daemon credited with `c` that is handed operations of a message: the
      view agrees from the credit it has then if and only if it agreed before
      and no key is wound back. */
  lemma DeliveredView(history: seq<Op>, nodes: set<NodeId>, p: Peer, ack: nat, count: nat, ackSent: bool)
    requires p.inbox != [] && p.inbox[0].CatchUp? && MessageOk(history, p.inbox[0], p.level)
    requires 0 < count <= |p.inbox[0].entries| && p.inbox[0].entries[0].sequence <= ack + 1
    requires Highest(p.acks, ack) <= |history| && AgreesFrom(p.view, history, Highest(p.acks, ack), nodes)
    ensures var es, c := p.inbox[0].entries, Highest(p.acks, ack);
      var q := TakeCatchUp(p, count, ackSent, history, nodes);
      && Highest(q.acks, ack) <= |history|
      && (AgreesFrom(q.view, history, Highest(q.acks, ack), nodes)
          <==> !Rewinds(history, nodes, c, es[0].sequence - 1, es[count - 1].sequence))
  {
    hide AgreesFrom, LevelAfter, Entries, RewoundKey;
    var es, c := p.inbox[0].entries, Highest(p.acks, ack);
    var a, m := es[0].sequence - 1, es[count - 1].sequence;
    var q := TakeCatchUp(p, count, ackSent, history, nodes);
    HandedOver(history, es, p.level, count);
    HandoverExact(history, nodes, p.view, c, a, m);
    if ackSent {
      HighestOneMore(p.acks, m, ack);
    } else if c <= m {
      AgreesBelow(q.view, history, c, m, nodes);
    }
  }

  lemma HighestOneMore(acks: seq<nat>, a: nat, ack: nat)
    ensures Highest(acks + [a], ack) == if Highest(acks, ack) < a then a else Highest(acks, ack)
  {
    assert a in acks + [a];
    assert forall x :: x in acks ==> x in acks + [a];
  }

  /** A delivery leaves a truthfully credited daemon truthfully credited if and
      only if it winds no key back from what the coordinator has heard or will
      hear. */
  lemma OrderlyDeliveryExact(s: System, d: DaemonId, count: nat, ackSent: bool)
    requires Inv(s) && Paced(s, d) && TruthfulTo(s, d) && Enabled(s, DeliverCatchUp(d, count, ackSent))
    ensures TruthfulTo(Do(s, DeliverCatchUp(d, count, ackSent)), d) <==> Orderly(s, DeliverCatchUp(d, count, ackSent))
  {
    hide AgreesFrom, Rewinds, LogInv, Entries, LevelAfter, Fold, Ops;
    var p, t := s.peers[d], Do(s, DeliverCatchUp(d, count, ackSent));
    assert Nodes(t, d) == Nodes(s, d);
    assert DaemonInv(s, d) && MessageOk(s.history, p.inbox[0], p.level) && p.inbox[0] in p.inbox;
    if count > 0 {
      hide TakeCatchUp, MessageOk;
      DeliveredView(s.history, Nodes(s, d), p, s.df.acks[d], count, ackSent);
    }
  }

  /** A complete replay credits the daemon with everything; the daemon then
      holds every persisted value, and holds nothing else if and only if it held
      no deleted key before. */
  lemma OrderlyReplayExact(s: System, d: DaemonId, items: seq<Item>, replies: seq<Reply>)
    requires Inv(s) && Enabled(s, Fallback(d, items, replies)) && Complete(items, replies)
    ensures var t := Do(s, Fallback(d, items, replies));
      && d in t.df.acks && t.df.acks[d] == t.df.sequence
      && (forall k :: k in t.store && k.node in Nodes(t, d) ==> Lookup(t.peers[d].view, k) == Some(t.store[k]))
      && (SameOn(Nodes(t, d), t.peers[d].view, t.store) <==> !HoldsStaleKey(s.peers[d].view, s.store, Nodes(s, d)))
  {
    hide PeerOk, LogInv;
    assert items[..|replies|] == items;
    ReplayExact(s.peers[d].view, items, replies, s.store, Nodes(s, d));
    assert Nodes(Do(s, Fallback(d, items, replies)), d) == Nodes(s, d);
  }

  /** A daemon credited with the whole history is credited truthfully if and
      only if it holds exactly the persisted parameters of its nodes. */
  lemma FullCreditExact(s: System, d: DaemonId)
    requires Inv(s) && Paced(s, d) && s.df.acks[d] == s.df.sequence
    ensures TruthfulTo(s, d) <==> SameOn(Nodes(s, d), s.peers[d].view, s.store)
  {
    hide AgreesFrom, SameOn;
    assert Credit(s, d) == |s.history|;
    AgreeingAtTheEnd(s.peers[d].view, s.history, Nodes(s, d));
  }

  lemma ReplayStepExact(s: System, d: DaemonId, items: seq<Item>, replies: seq<Reply>)
    requires Inv(s) && Paced(s, d) && TruthfulTo(s, d) && Enabled(s, Fallback(d, items, replies))
    ensures TruthfulTo(Do(s, Fallback(d, items, replies)), d) <==> Orderly(s, Fallback(d, items, replies))
  {
    var step := Fallback(d, items, replies);
    var t := Do(s, step);
    if Complete(items, replies) {
      OrderlyReplayExact(s, d, items, replies);
      StepKeeps(s, step);
      PacedKept(s, step, d);
      hide Do, Enabled, Inv;
      FullCreditExact(t, d);
    } else {
      PartialReplayTrue(s, d, items, replies);
    }
  }

  lemma PartialReplayTrue(s: System, d: DaemonId, items: seq<Item>, replies: seq<Reply>)
    requires Inv(s) && TruthfulTo(s, d) && Enabled(s, Fallback(d, items, replies)) && !Complete(items, replies)
    ensures TruthfulTo(Do(s, Fallback(d, items, replies)), d)
  {
    hide AgreesFrom, LogInv, DaemonInv, Delta, ReplayView, Complete;
    var t := Do(s, Fallback(d, items, replies));
    assert Nodes(t, d) == Nodes(s, d) && Credit(t, d) == Credit(s, d);
    ReplayKeepsLevel(s.peers[d].view, items[..|replies|], replies, s.history, Credit(s, d), Nodes(s, d));
  }

  /** A step about another daemon. */
  lemma ElsewhereTrue(s: System, step: Step, d: DaemonId)
    requires Inv(s) && TruthfulTo(s, d) && Enabled(s, step) && !step.Mutate? && step.d != d
    ensures TruthfulTo(Do(s, step), d)
  {
    hide AgreesFrom, Inv, Delta, Newer, MinAck, Clamped, TakeLive, TakeCatchUp, TakeReplay, Enumerates;
    var t := Do(s, step);
    assert t.peers[d] == s.peers[d] && t.df.acks[d] == s.df.acks[d];
    QuietStep(s, t, d);
  }

  lemma AckReceivedTrue(s: System, d: DaemonId)
    requires Inv(s) && TruthfulTo(s, d) && Enabled(s, ReceiveAck(d))
    ensures TruthfulTo(Do(s, ReceiveAck(d)), d)
  {
    hide AgreesFrom, Inv, Newer, MinAck;
    var t := Do(s, ReceiveAck(d));
    var acks := s.peers[d].acks;
    assert acks == [acks[0]] + acks[1..] && acks[0] in acks;
    HighestOfFewer(acks, s.df.acks[d], t.peers[d].acks, t.df.acks[d]);
    QuietStep(s, t, d);
  }

  /** Steps that neither touch the view nor raise the credit. */
  lemma QuietStepTrue(s: System, step: Step, d: DaemonId)
    requires Inv(s) && TruthfulTo(s, d) && Enabled(s, step)
    requires (step.Report? || step.LoseMessage? || step.LoseAck? || step.Leave?) && step.d == d
    ensures TruthfulTo(Do(s, step), d)
  {
    hide AgreesFrom, Inv, Delta;
    var t := Do(s, step);
    HighestOfFewer(s.peers[d].acks, s.df.acks[d], t.peers[d].acks, t.df.acks[d]);
    QuietStep(s, t, d);
  }

  lemma HighestOfFewer(acks: seq<nat>, ack: nat, fewer: seq<nat>, lower: nat)
    requires (forall a :: a in fewer ==> a in acks) && lower <= Highest(acks, ack)
    ensures Highest(fewer, lower) <= Highest(acks, ack)
  {
  }

  ghost predicate About(step: Step, d: DaemonId) {
    !step.Mutate? && step.d == d
  }

  lemma StepExact(s: System, step: Step, d: DaemonId)
    requires Inv(s) && Paced(s, d) && TruthfulTo(s, d) && Enabled(s, step)
    ensures TruthfulTo(Do(s, step), d) <==> (About(step, d) ==> Orderly(s, step))
  {
    hide Inv, Paced, TruthfulTo, Do, Enabled;
    if step.Mutate? {
      MutateTrue(s, step.op, step.sent, d);
    } else if step.d != d {
      ElsewhereTrue(s, step, d);
    } else {
      match step
      case DeliverLive(_, accepted) => ChangeStepExact(s, d, accepted);
      case DeliverCatchUp(_, count, ackSent) => OrderlyDeliveryExact(s, d, count, ackSent);
      case Fallback(_, items, replies) => ReplayStepExact(s, d, items, replies);
      case ReceiveAck(_) => AckReceivedTrue(s, d);
      case _ => QuietStepTrue(s, step, d);
    }
  }

  // ---- Whole systems and runs ----

  ghost predicate AllPaced(s: System) {
    forall d :: d in s.peers ==> Paced(s, d)
  }

  lemma PeersFixed(s: System, step: Step)
    requires Inv(s) && Enabled(s, step)
    ensures Do(s, step).peers.Keys == s.peers.Keys
    ensures !step.Mutate? && !step.Leave? ==> step.d in s.peers
  {
    hide Inv, Delta, TakeLive, TakeCatchUp, TakeReplay, Queued, Enumerates;
  }

  lemma StepKeepsPeers(s: System, step: Step)
    requires Inv(s) && AllPaced(s) && Enabled(s, step)
    ensures Inv(Do(s, step)) && Do(s, step).peers.Keys == s.peers.Keys && AllPaced(Do(s, step))
    ensures !step.Mutate? && !step.Leave? ==> step.d in s.peers
  {
    StepKeeps(s, step);
    PeersFixed(s, step);
    hide Inv, Do, Enabled, Paced;
    forall d | d in s.peers ensures Paced(Do(s, step), d) {
      PacedKept(s, step, d);
    }
  }

  /** Every step from a state in which all credit is true keeps it true if and
      only if it is orderly. */
  lemma OrderlyStepExact(s: System, step: Step)
    requires Inv(s) && AllPaced(s) && Truthful(s) && Enabled(s, step)
    ensures Truthful(Do(s, step)) <==> Orderly(s, step)
  {
    hide Inv, Paced, TruthfulTo, Do, Enabled, Credit, Orderly;
    StepKeepsPeers(s, step);
    AlwaysOrderly(s, step);
    forall d | d in s.peers
      ensures TruthfulTo(Do(s, step), d) <==> (About(step, d) ==> Orderly(s, step))
    {
      StepExact(s, step, d);
    }
    hide AllPaced;
    if !step.Mutate? && !step.Leave? {
      assert About(step, step.d);
    }
  }

  lemma AlwaysOrderly(s: System, step: Step)
    requires Enabled(s, step)
    ensures step.Mutate? || step.Leave? ==> Orderly(s, step)
  {
  }

  ghost predicate OrderlyRun(s: System, steps: seq<Step>)
    requires Runs(s, steps)
    decreases |steps|
  {
    steps == [] || (Orderly(s, steps[0]) && OrderlyRun(Do(s, steps[0]), steps[1..]))
  }

  /** All credit is true at every moment of the run. */
  ghost predicate AlwaysTruthful(s: System, steps: seq<Step>)
    requires Runs(s, steps)
    decreases |steps|
  {
    Truthful(s) && (steps == [] || AlwaysTruthful(Do(s, steps[0]), steps[1..]))
  }

  lemma {:induction false} OrderlyFrom(s: System, steps: seq<Step>)
    requires Inv(s) && AllPaced(s) && Truthful(s) && Runs(s, steps)
    ensures AlwaysTruthful(s, steps) <==> OrderlyRun(s, steps)
    ensures OrderlyRun(s, steps) ==> Truthful(Exec(s, steps))
    ensures Inv(Exec(s, steps)) && AllPaced(Exec(s, steps))
    decreases |steps|
  {
    hide Inv, AllPaced, Truthful, Orderly, Enabled, Do;
    if steps != [] {
      var t := Do(s, steps[0]);
      StepKeepsPeers(s, steps[0]);
      OrderlyStepExact(s, steps[0]);
      if Truthful(t) {
        OrderlyFrom(t, steps[1..]);
      } else {
        KeptFrom(t, steps[1..]);
        NotTruthful(t, steps[1..]);
      }
    }
  }

  lemma NotTruthful(s: System, steps: seq<Step>)
    requires Runs(s, steps) && !Truthful(s)
    ensures !AlwaysTruthful(s, steps)
  {
  }

  lemma {:induction false} KeptFrom(s: System, steps: seq<Step>)
    requires Inv(s) && AllPaced(s) && Runs(s, steps)
    ensures Inv(Exec(s, steps)) && AllPaced(Exec(s, steps))
    ensures Exec(s, steps).peers.Keys == s.peers.Keys && Exec(s, steps).nodeOf == s.nodeOf
    decreases |steps|
  {
    if steps != [] {
      StepKeepsPeers(s, steps[0]);
      HistoryGrows(s, steps[0]);
      hide Inv, AllPaced, Do, Enabled;
      KeptFrom(Do(s, steps[0]), steps[1..]);
    }
  }

  lemma StartTruthful(nodeOf: map<NodeId, DaemonId>)
    ensures Inv(Start(nodeOf)) && AllPaced(Start(nodeOf)) && Truthful(Start(nodeOf))
  {
    StartInv(nodeOf);
    var s := Start(nodeOf);
    forall d | d in s.peers ensures TruthfulTo(s, d) {
      AgreeingAtTheEnd(s.peers[d].view, s.history, Nodes(s, d));
    }
  }

  /** For every run: all credit is true at every moment if and only if every
      step is orderly. */
  lemma OrderlyRunExact(nodeOf: map<NodeId, DaemonId>, steps: seq<Step>)
    requires Runs(Start(nodeOf), steps)
    ensures AlwaysTruthful(Start(nodeOf), steps) <==> OrderlyRun(Start(nodeOf), steps)
  {
    hide Inv, AllPaced, Truthful, Runs, Start;
    StartTruthful(nodeOf);
    OrderlyFrom(Start(nodeOf), steps);
  }

  /** In an orderly run a daemon the coordinator takes to be up to date has
      exactly the persisted parameters of its nodes. In any run such a daemon
      has them if and only if its credit is true. */
  lemma OrderlyRunConverges(nodeOf: map<NodeId, DaemonId>, steps: seq<Step>, d: DaemonId)
    requires Runs(Start(nodeOf), steps) && d in nodeOf.Values
    ensures var s := Exec(Start(nodeOf), steps);
      && d in s.df.acks && d in s.peers
      && (s.df.acks[d] == s.df.sequence ==> (SameOn(Nodes(s, d), s.peers[d].view, s.store) <==> TruthfulTo(s, d)))
      && (OrderlyRun(Start(nodeOf), steps) ==> TruthfulTo(s, d))
  {
    StartTruthful(nodeOf);
    assert d in Start(nodeOf).peers;
    OrderlyFrom(Start(nodeOf), steps);
    KeptFrom(Start(nodeOf), steps);
    var s := Exec(Start(nodeOf), steps);
    hide Inv, Runs, Exec, Start, TruthfulTo, SameOn, OrderlyRun;
    if s.df.acks[d] == s.df.sequence {
      FullCreditExact(s, d);
    }
  }
}
