/** When a complete replay leaves the daemon right for good: not only at once,
    but also after whatever was still queued for it has arrived or been lost. */
module CatchUpReplay {
  import opened Common
  import opened ParamLog
  import opened StateLog
  import opened CatchUp
  import opened CatchUpRuns
  import opened CatchUpTheorems
  import opened CatchUpCredit

  /** The daemon takes, refuses or never gets a message queued for it. */
  ghost predicate Handling(step: Step, d: DaemonId) {
    (step.DeliverLive? || step.DeliverCatchUp? || step.LoseMessage?) && step.d == d
  }

  ghost predicate HandlingRun(s: System, steps: seq<Step>, d: DaemonId) {
    Runs(s, steps) && forall i :: 0 <= i < |steps| ==> Handling(steps[i], d)
  }

  /** The message can set a parameter of one of the nodes: for a catch-up, the
      entries up to that one are all for these nodes. */
  ghost predicate SetsOwn(m: Message, nodes: set<NodeId>) {
    match m
    case CatchUp(es) => exists i :: 0 <= i < |es| && es[i].op.SetParam? && OwnUpTo(es, nodes, i)
    case _ => Change(m).SetParam? && Change(m).target.node in nodes
  }

  ghost predicate OwnUpTo(es: seq<Entry>, nodes: set<NodeId>, i: nat)
    requires i < |es|
  {
    forall j :: 0 <= j <= i ==> es[j].op.target.node in nodes
  }

  ghost predicate Harmless(inbox: seq<Message>, nodes: set<NodeId>) {
    forall m :: m in inbox ==> !SetsOwn(m, nodes)
  }

  /** No parameter of the nodes. */
  ghost predicate Bare(params: Params, nodes: set<NodeId>) {
    forall k :: k in params ==> k.node !in nodes
  }

  /** However the queued messages are handled from here, the daemon holds the
      persisted parameters of its nodes. */
  ghost predicate StaysRight(s: System, d: DaemonId)
    requires d in s.peers
  {
    forall steps :: HandlingRun(s, steps, d) ==> RightAfter(s, steps, d)
  }

  ghost predicate RightAfter(s: System, steps: seq<Step>, d: DaemonId)
    requires Runs(s, steps)
  {
    var t := Exec(s, steps);
    d in t.peers && SameOn(Nodes(s, d), t.peers[d].view, s.store)
  }

  // ---- Harmless queues keep a bare daemon bare ----

  lemma {:induction false} DeletesOnly(view: Params, ops: seq<Op>, nodes: set<NodeId>)
    requires Bare(view, nodes)
    requires forall i :: 0 <= i < |ops| && ops[i].SetParam? ==> ops[i].target.node !in nodes
    ensures Bare(Fold(view, ops), nodes)
  {
    if ops != [] {
      DeletesOnly(view, ops[..|ops| - 1], nodes);
    }
  }

  lemma HandedHarmless(view: Params, es: seq<Entry>, count: nat, nodes: set<NodeId>)
    requires Bare(view, nodes) && !SetsOwn(CatchUp(es), nodes) && count <= |es|
    requires forall i :: 0 <= i < count ==> es[i].op.target.node in nodes
    ensures Bare(Fold(view, Ops(es[..count])), nodes)
  {
    forall i | 0 <= i < count ensures !es[i].op.SetParam? {
      assert OwnUpTo(es, nodes, i);
    }
    DeletesOnly(view, Ops(es[..count]), nodes);
  }

  lemma BareStep(s: System, step: Step, d: DaemonId)
    requires Enabled(s, step) && Handling(step, d)
    requires Bare(s.peers[d].view, Nodes(s, d)) && Harmless(s.peers[d].inbox, Nodes(s, d))
    ensures var t := Do(s, step);
      && d in t.peers && t.nodeOf == s.nodeOf
      && Bare(t.peers[d].view, Nodes(s, d)) && Harmless(t.peers[d].inbox, Nodes(s, d))
  {
    hide LevelAfter, Fold, SetsOwn;
    var p := s.peers[d];
    assert p.inbox != [] ==> p.inbox[0] in p.inbox;
    if step.DeliverCatchUp? {
      HandedHarmless(p.view, p.inbox[0].entries, step.count, Nodes(s, d));
    } else if step.DeliverLive? {
      TakenHarmless(p, step.accepted, Nodes(s, d));
    }
  }

  lemma TakenHarmless(p: Peer, accepted: bool, nodes: set<NodeId>)
    requires p.inbox != [] && !p.inbox[0].CatchUp? && Bare(p.view, nodes) && !SetsOwn(p.inbox[0], nodes)
    ensures Bare(TakeLive(p, accepted).view, nodes)
  {
  }

  lemma {:induction false} BareRun(s: System, steps: seq<Step>, d: DaemonId)
    requires HandlingRun(s, steps, d) && d in s.peers
    requires Bare(s.peers[d].view, Nodes(s, d)) && Harmless(s.peers[d].inbox, Nodes(s, d))
    ensures d in Exec(s, steps).peers && Bare(Exec(s, steps).peers[d].view, Nodes(s, d))
    decreases |steps|
  {
    hide Do, Enabled, Bare, Harmless;
    if steps != [] {
      BareStep(s, steps[0], d);
      assert forall i :: 0 <= i < |steps[1..]| ==> steps[1..][i] == steps[i + 1];
      assert Nodes(Do(s, steps[0]), d) == Nodes(s, d);
      BareRun(Do(s, steps[0]), steps[1..], d);
    }
  }

  lemma BareIsSame(view: Params, store: Params, nodes: set<NodeId>)
    requires Bare(store, nodes)
    ensures SameOn(nodes, view, store) <==> Bare(view, nodes)
  {
    if SameOn(nodes, view, store) {
      forall k | k in view ensures k.node !in nodes {
        assert Lookup(view, k).Some?;
      }
    }
  }

  // ---- A message that sets a parameter spoils one way of handling the queue ----

  lemma {:induction false} LoseFirst(s: System, d: DaemonId, n: nat) returns (t: System, steps: seq<Step>)
    requires d in s.peers && n <= |s.peers[d].inbox|
    ensures HandlingRun(s, steps, d) && t == Exec(s, steps)
    ensures t == s.(peers := s.peers[d := s.peers[d].(inbox := s.peers[d].inbox[n..])])
  {
    NoSteps(s);
    if n == 0 {
      t, steps := s, [];
    } else {
      hide Runs, Exec;
      var before, lost := LoseFirst(s, d, n - 1);
      t, steps := Next(s, before, lost, LoseMessage(d, 0));
      assert Without(before.peers[d].inbox, 0) == s.peers[d].inbox[n..];
    }
  }

  lemma {:induction false} LastSetStays(view: Params, ops: seq<Op>)
    requires ops != [] && ops[|ops| - 1].SetParam?
    ensures ops[|ops| - 1].target in Fold(view, ops)
  {
  }

  lemma EntrySets(s: System, d: DaemonId, i: nat)
    requires Inv(s) && d in s.peers && s.peers[d].inbox != [] && s.peers[d].inbox[0].CatchUp?
    requires i < |s.peers[d].inbox[0].entries| && s.peers[d].inbox[0].entries[i].op.SetParam?
    requires OwnUpTo(s.peers[d].inbox[0].entries, Nodes(s, d), i)
    ensures Enabled(s, DeliverCatchUp(d, i + 1, false)) && d in Do(s, DeliverCatchUp(d, i + 1, false)).peers
    ensures s.peers[d].inbox[0].entries[i].op.target in Do(s, DeliverCatchUp(d, i + 1, false)).peers[d].view
  {
    hide AgreesFrom, LogInv, LevelAfter, Entries, Fold;
    var p := s.peers[d];
    assert DaemonInv(s, d) && MessageOk(s.history, p.inbox[0], p.level);
    hide Inv, DaemonInv;
    LastSetStays(p.view, Ops(p.inbox[0].entries[..i + 1]));
  }

  lemma SetArrives(s: System, d: DaemonId) returns (step: Step)
    requires Inv(s) && d in s.peers && s.peers[d].inbox != [] && SetsOwn(s.peers[d].inbox[0], Nodes(s, d))
    ensures Enabled(s, step) && Handling(step, d)
    ensures d in Do(s, step).peers && !Bare(Do(s, step).peers[d].view, Nodes(s, d))
  {
    hide Inv, TakeCatchUp;
    var p := s.peers[d];
    match p.inbox[0]
    case CatchUp(es) =>
      var i :| 0 <= i < |es| && es[i].op.SetParam? && OwnUpTo(es, Nodes(s, d), i);
      step := DeliverCatchUp(d, i + 1, false);
      EntrySets(s, d, i);
    case _ =>
      step := DeliverLive(d, true);
      assert Change(p.inbox[0]).target in Do(s, step).peers[d].view;
  }

  lemma SetSpoils(s: System, d: DaemonId, i: nat)
    requires Inv(s) && d in s.peers && i < |s.peers[d].inbox| && Bare(s.store, Nodes(s, d))
    requires SetsOwn(s.peers[d].inbox[i], Nodes(s, d))
    ensures !StaysRight(s, d)
  {
    hide Inv, Runs, Exec, Do, Enabled, Bare, SetsOwn;
    var t, lost := LoseFirst(s, d, i);
    assert t.peers[d].inbox[0] == s.peers[d].inbox[i] && Nodes(t, d) == Nodes(s, d);
    RunKeeps(s, lost);
    var step := SetArrives(t, d);
    var u, steps := Next(s, t, lost, step);
    BareIsSame(u.peers[d].view, s.store, Nodes(s, d));
    assert HandlingRun(s, steps, d) && !RightAfter(s, steps, d);
  }

  // ---- The exact condition ----

  lemma HarmlessStaysRight(s: System, d: DaemonId)
    requires d in s.peers && Bare(s.store, Nodes(s, d))
    requires Bare(s.peers[d].view, Nodes(s, d)) && Harmless(s.peers[d].inbox, Nodes(s, d))
    ensures StaysRight(s, d)
  {
    forall steps | HandlingRun(s, steps, d) ensures RightAfter(s, steps, d) {
      BareRun(s, steps, d);
      BareIsSame(Exec(s, steps).peers[d].view, s.store, Nodes(s, d));
    }
  }

  lemma NothingQueuedStaysRight(s: System, d: DaemonId)
    requires d in s.peers && s.peers[d].inbox == []
    ensures StaysRight(s, d) <==> SameOn(Nodes(s, d), s.peers[d].view, s.store)
  {
    NoSteps(s);
    assert HandlingRun(s, [], d);
    forall steps | HandlingRun(s, steps, d) ensures steps == [] {
      OnlyQueuedAreHandled(s, steps, d);
    }
  }

  lemma OnlyQueuedAreHandled(s: System, steps: seq<Step>, d: DaemonId)
    requires d in s.peers && HandlingRun(s, steps, d)
    ensures steps == [] || s.peers[d].inbox != []
  {
    if steps != [] {
      assert Handling(steps[0], d);
    }
  }

  /** A complete replay leaves the daemon with exactly the persisted parameters
      of its nodes, whatever becomes of what is still queued for it, if and only
      if it held no deleted key and nothing queued can set a parameter of its
      nodes. (Something is queued then only if there was nothing to replay.) */
  lemma CompleteReplayExact(s: System, d: DaemonId, items: seq<Item>, replies: seq<Reply>)
    requires Inv(s) && Enabled(s, Fallback(d, items, replies)) && Complete(items, replies)
    ensures var t := Do(s, Fallback(d, items, replies));
      && d in t.peers
      && (StaysRight(t, d) <==>
          !HoldsStaleKey(s.peers[d].view, s.store, Nodes(s, d)) && Harmless(s.peers[d].inbox, Nodes(s, d)))
  {
    hide Inv, StaysRight, ReplayView, Delta, SetsOwn;
    var step := Fallback(d, items, replies);
    var t := Do(s, step);
    StepKeeps(s, step);
    OrderlyReplayExact(s, d, items, replies);
    assert Nodes(t, d) == Nodes(s, d) && t.store == s.store;
    assert items[|replies|..] == [] && Restores([], |s.history|) == [] && t.peers[d].inbox == s.peers[d].inbox;
    if s.peers[d].inbox == [] {
      NothingQueuedStaysRight(t, d);
    } else {
      assert replies == [] && items == [];
      EmptyReplayExact(t, d);
      assert Bare(s.store, Nodes(s, d));
      BareIsSame(t.peers[d].view, s.store, Nodes(s, d));
    }
  }

  lemma EmptyReplayExact(s: System, d: DaemonId)
    requires Inv(s) && d in s.peers && Bare(s.store, Nodes(s, d))
    ensures StaysRight(s, d) <==>
      SameOn(Nodes(s, d), s.peers[d].view, s.store) && Harmless(s.peers[d].inbox, Nodes(s, d))
  {
    BareIsSame(s.peers[d].view, s.store, Nodes(s, d));
    NoSteps(s);
    assert HandlingRun(s, [], d);
    if Bare(s.peers[d].view, Nodes(s, d)) && Harmless(s.peers[d].inbox, Nodes(s, d)) {
      HarmlessStaysRight(s, d);
    } else if !Harmless(s.peers[d].inbox, Nodes(s, d)) {
      var i :| 0 <= i < |s.peers[d].inbox| && SetsOwn(s.peers[d].inbox[i], Nodes(s, d));
      SetSpoils(s, d, i);
    } else {
      assert !RightAfter(s, [], d);
    }
  }

  /** Items the replay gave up waiting for can still arrive: each persisted value
      can reach the daemon after a replay none of whose items was answered. */
  lemma LateItemArrives(s: System, d: DaemonId, items: seq<Item>, k: Key) returns (steps: seq<Step>)
    requires Inv(s) && Enabled(s, Fallback(d, items, [])) && k in s.store && k.node in Nodes(s, d)
    ensures var t := Do(s, Fallback(d, items, []));
      && HandlingRun(t, steps, d) && d in Exec(t, steps).peers
      && Lookup(Exec(t, steps).peers[d].view, k) == Some(s.store[k])
  {
    var i :| 0 <= i < |items| && items[i].0 == k;
    var t := Do(s, Fallback(d, items, []));
    var n := |s.peers[d].inbox| + i;
    assert t.peers[d].inbox[n] == Restore(|s.history|, items[i]) && items[i].1 == s.store[k];
    var u, lost := LoseFirst(t, d, n);
    assert u.peers[d].inbox[0] == t.peers[d].inbox[n];
    ChangeIsAStep(u, d, true, k);
    hide Inv, Runs, Exec, Do;
    var v, all := Next(t, u, lost, DeliverLive(d, true));
    steps := all;
  }
}
