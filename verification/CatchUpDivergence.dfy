/** Three runs that end quiet, with the coordinator sure the daemon is up to
    date, and the daemon nevertheless holding a wrong value; and one in which a
    daemon cannot be brought up to date by catch-up at all. They assume daemons
    that report the dataflows they still run after a reconnect. */
module CatchUpDivergence {
  import opened Common
  import opened ParamLog
  import opened StateLog
  import opened CatchUp
  import opened CatchUpRuns
  import opened CatchUpReach

  ghost predicate PeerIs(s: System, d: DaemonId, view: Params, inbox: seq<Message>) {
    d in s.peers && s.peers[d].view == view && s.peers[d].inbox == inbox && s.peers[d].acks == [] && s.peers[d].level == 0
  }

  /** Nothing is in flight, the coordinator has no more to send, and the
      daemon's parameters differ from the persisted ones. */
  ghost predicate QuietlyWrong(s: System, d: DaemonId) {
    && d in s.peers && d in s.df.acks
    && s.df.acks[d] == s.df.sequence && s.peers[d].inbox == [] && s.peers[d].acks == []
    && !SameOn(Nodes(s, d), s.peers[d].view, s.store)
  }

  const CAM := Key("cam", "gain")
  const ONE := SetParam(CAM, "1")
  const TWO := SetParam(CAM, "2")

  const BOTH := [Entry(1, ONE), Entry(2, TWO)]

  /** Two changes whose forwards are lost. */
  lemma TwoChanges() returns (s: System, steps: seq<Step>)
    ensures Runs(Start(map["cam" := "m"]), steps) && Exec(Start(map["cam" := "m"]), steps) == s
    ensures s.df.sequence == 2 && s.df.daemons == {"m"} && s.df.acks == map["m" := 0]
    ensures s.nodeOf == map["cam" := "m"] && s.store == map[CAM := "2"]
    ensures Delta(s.df, 0) == Some(BOTH) && PeerIs(s, "m", map[], [])
  {
    hide Runs, Exec, PeerOk, LogInv;
    var s0 := Start(map["cam" := "m"]);
    StartInv(map["cam" := "m"]);
    NoSteps(s0);
    var s1, k1 := Next(s0, s0, [], Mutate(ONE, false));
    StepKeeps(s0, Mutate(ONE, false));
    s, steps := Next(s0, s1, k1, Mutate(TWO, false));
    StepKeeps(s1, Mutate(TWO, false));
    assert s.history == [ONE, TWO];
    DeltaExact(s.df, s.history, "m");
    assert Entries(s.history, 0, 2) == BOTH;
  }

  /** Two changes made, none acknowledged as far as the coordinator has heard. */
  ghost predicate AtTwo(s: System, inbox: seq<Message>, acks: seq<nat>) {
    && s.df.sequence == 2 && s.df.daemons == {"m"} && s.df.acks == map["m" := 0] && Delta(s.df, 0) == Some(BOTH)
    && s.nodeOf == map["cam" := "m"] && s.store == map[CAM := "2"]
    && "m" in s.peers && s.peers["m"].inbox == inbox && s.peers["m"].acks == acks
  }

  /** The daemon reports, and takes and acknowledges the whole delta. */
  lemma DeltaTaken() returns (s: System, steps: seq<Step>)
    ensures Runs(Start(map["cam" := "m"]), steps) && Exec(Start(map["cam" := "m"]), steps) == s && AtTwo(s, [], [2])
  {
    hide Runs, Exec, Delta, LevelAfter, Fold;
    var s0 := Start(map["cam" := "m"]);
    s, steps := TwoChanges();
    s, steps := Next(s0, s, steps, Report("m", true));
    assert AtTwo(s, [CatchUp(BOTH)], []);
    assert Nodes(s, "m") == {"cam"};
    s, steps := Next(s0, s, steps, DeliverCatchUp("m", 2, true));
  }

  /** Before that acknowledgement is heard the daemon reconnects and reports
      again. It is sent the same delta, and takes only one entry of it... */
  lemma SecondCopyStopsShort() returns (s: System, steps: seq<Step>)
    ensures Runs(Start(map["cam" := "m"]), steps) && Exec(Start(map["cam" := "m"]), steps) == s && AtTwo(s, [], [2, 1])
    ensures Lookup(s.peers["m"].view, CAM) == Some("1")
  {
    hide Runs, Exec, Delta, LevelAfter, Fold;
    var s0 := Start(map["cam" := "m"]);
    s, steps := DeltaTaken();
    s, steps := Next(s0, s, steps, Report("m", true));
    assert AtTwo(s, [CatchUp(BOTH)], [2]);
    assert Nodes(s, "m") == {"cam"};
    AppliedLast(s.peers["m"].view);
    s, steps := Next(s0, s, steps, DeliverCatchUp("m", 1, true));
  }

  /** ...and the smaller acknowledgement it produces is discarded. */
  lemma RepeatedDeltaDiverges() returns (steps: seq<Step>)
    ensures Runs(Start(map["cam" := "m"]), steps)
    ensures QuietlyWrong(Exec(Start(map["cam" := "m"]), steps), "m")
  {
    hide Runs, Exec, Newer;
    var s0 := Start(map["cam" := "m"]);
    var s6, k6 := SecondCopyStopsShort();
    var s7, k7 := Next(s0, s6, k6, ReceiveAck("m"));
    var s8, k8 := Next(s0, s7, k7, ReceiveAck("m"));
    steps := k8;
    assert Lookup(s8.peers["m"].view, CAM) != Lookup(s8.store, CAM);
    assert CAM.node in Nodes(s8, "m");
  }

  lemma AppliedLast(view: Params)
    ensures Fold(view, Ops(BOTH[..1])) == view[CAM := "1"]
  {
  }

  const OTHER := Key("cam", "fps")
  const TICK := SetParam(OTHER, "30")

  /** The same change `n` times over, its forwards lost. */
  lemma {:induction false} Unforwarded(s: System, op: Op, n: nat) returns (steps: seq<Step>)
    requires Inv(s) && op.target.node in s.nodeOf
    ensures Runs(s, steps)
    ensures var t := Exec(s, steps);
      && Inv(t) && t.peers == s.peers && t.nodeOf == s.nodeOf && t.df.acks == s.df.acks && t.df.daemons == s.df.daemons
      && t.df.sequence == s.df.sequence + n
      && t.store == if n == 0 then s.store else Apply(s.store, op)
    decreases n
  {
    hide PeerOk, LogInv, Fold;
    if n == 0 {
      steps := [];
    } else {
      assert s.nodeOf[op.target.node] in s.nodeOf.Values;
      var step := Mutate(op, false);
      StepKeeps(s, step);
      var t := Do(s, step);
      assert t.peers == s.peers;
      var rest := Unforwarded(t, op, n - 1);
      steps := [step] + rest;
      assert steps[1..] == rest;
    }
  }

  /** After `n` changes that leave `store`, none of them acknowledged, with the
      first still on its way unless it was delivered. */
  ghost predicate Unheeded(s: System, n: nat, store: Params, delivered: bool) {
    && Inv(s)
    && s.df.sequence == n && s.df.daemons == {"m"} && s.df.acks == map["m" := 0]
    && s.nodeOf == map["cam" := "m"] && s.store == store
    && if delivered then PeerIs(s, "m", map[CAM := "1"], []) else PeerIs(s, "m", map[], [Live(Entry(1, ONE))])
  }

  /** A parameter is set and forwarded... */
  lemma GainForwarded() returns (s: System, steps: seq<Step>)
    ensures Runs(Start(map["cam" := "m"]), steps) && Exec(Start(map["cam" := "m"]), steps) == s
    ensures Unheeded(s, 1, map[CAM := "1"], false)
  {
    hide Runs, Exec, PeerOk, LogInv;
    var s0 := Start(map["cam" := "m"]);
    StartInv(map["cam" := "m"]);
    NoSteps(s0);
    s, steps := Next(s0, s0, [], Mutate(ONE, true));
    StepKeeps(s0, Mutate(ONE, true));
  }

  lemma GainSet(delivered: bool) returns (s: System, steps: seq<Step>)
    ensures Runs(Start(map["cam" := "m"]), steps) && Exec(Start(map["cam" := "m"]), steps) == s
    ensures Unheeded(s, 1, map[CAM := "1"], delivered)
  {
    hide Runs, Exec, Inv;
    s, steps := GainForwarded();
    if delivered {
      StepKeeps(s, DeliverLive("m", true));
      s, steps := Next(Start(map["cam" := "m"]), s, steps, DeliverLive("m", true));
    }
  }

  /** ...and deleted again, but the deletion is not forwarded... */
  lemma GainDeleted(delivered: bool) returns (s: System, steps: seq<Step>)
    ensures Runs(Start(map["cam" := "m"]), steps) && Exec(Start(map["cam" := "m"]), steps) == s
    ensures Unheeded(s, 2, map[], delivered)
  {
    hide Runs, Exec, PeerOk, LogInv;
    var s1, k1 := GainSet(delivered);
    s, steps := Next(Start(map["cam" := "m"]), s1, k1, Mutate(DeleteParam(CAM), false));
    StepKeeps(s1, Mutate(DeleteParam(CAM), false));
    assert s.store == map[] && s.peers == s1.peers;
  }

  /** ...and 10 000 more changes push both out of the log. */
  lemma DeletionOverflows(delivered: bool, tick: Op) returns (s: System, steps: seq<Step>)
    requires tick.target.node == "cam"
    ensures Runs(Start(map["cam" := "m"]), steps) && Exec(Start(map["cam" := "m"]), steps) == s
    ensures Unheeded(s, MAX_STATE_LOG_ENTRIES + 2, Apply(map[], tick), delivered)
  {
    hide Runs, Exec, Inv;
    var s2, k2 := GainDeleted(delivered);
    var more := Unforwarded(s2, tick, MAX_STATE_LOG_ENTRIES);
    RunsConcat(Start(map["cam" := "m"]), k2, more);
    s, steps := Exec(s2, more), k2 + more;
  }

  lemma Overflowed(s: System, d: DaemonId)
    requires Inv(s) && d in s.df.acks && s.df.sequence - s.df.acks[d] > MAX_STATE_LOG_ENTRIES
    ensures Delta(s.df, AckOf(s.df, d)).None?
  {
  }

  /** The full replay then succeeds, and the deleted parameter stays. */
  lemma DeletedKeySurvivesReplay() returns (steps: seq<Step>)
    ensures Runs(Start(map["cam" := "m"]), steps)
    ensures QuietlyWrong(Exec(Start(map["cam" := "m"]), steps), "m")
  {
    hide Runs, Exec, Inv, Newer;
    var s, k := DeletionOverflows(true, TICK);
    Overflowed(s, "m");
    var items := [(OTHER, "30")];
    assert Nodes(s, "m") == {"cam"} && items[0].0 == OTHER;
    var t, k' := Next(Start(map["cam" := "m"]), s, k, Fallback("m", items, [Confirmed]));
    assert Failures([Confirmed]) == 0 by { assert [Confirmed][..0] == []; }
    ReplayedKey(s.peers["m"].view, items, [Confirmed], s.store, CAM);
    steps := k';
    assert Lookup(t.peers["m"].view, CAM) != Lookup(t.store, CAM);
    assert CAM.node in Nodes(t, "m");
  }

  /** With nothing persisted the full replay sends nothing, succeeds at once,
      and the change still on its way arrives after it. */
  lemma EmptyReplayOvertakes() returns (steps: seq<Step>)
    ensures Runs(Start(map["cam" := "m"]), steps)
    ensures QuietlyWrong(Exec(Start(map["cam" := "m"]), steps), "m")
  {
    hide Runs, Exec, Inv, Newer;
    var s0 := Start(map["cam" := "m"]);
    var s, k := DeletionOverflows(false, DeleteParam(OTHER));
    Overflowed(s, "m");
    var t, k' := Next(s0, s, k, Fallback("m", [], []));
    assert t.peers["m"].inbox == [Live(Entry(1, ONE))];
    var u, k'' := Next(s0, t, k', DeliverLive("m", true));
    steps := k'';
    assert Lookup(u.peers["m"].view, CAM) != Lookup(u.store, CAM);
    assert CAM.node in Nodes(u, "m");
  }

  // ---- Two daemons ----

  const CAM_AND_ARM: map<NodeId, DaemonId> := map["cam" := "m", "arm" := "n"]

  /** A change for the other daemon's node comes first, then one for the
      daemon's own node, and neither is forwarded: catch-up brings the daemon to
      neither, however long it goes on. */
  lemma ForeignChangeBlocks() returns (s: System, steps: seq<Step>)
    ensures Runs(Start(CAM_AND_ARM), steps) && Exec(Start(CAM_AND_ARM), steps) == s
    ensures Inv(s) && Quiet(s, "m") && s.df.acks["m"] == 0 && s.df.sequence == 2 && "m" in s.df.daemons
    ensures !Reaches(s, "m", 1) && !Reaches(s, "m", 2)
  {
    s, steps := ForeignChangeFirst();
    hide Inv, Reaches, Runs, Exec, Start;
    assert ForeignAt(s, "m", 0);
    CatchUpReachExact(s, "m", 1);
    CatchUpReachExact(s, "m", 2);
  }

  lemma ForeignChangeFirst() returns (s: System, steps: seq<Step>)
    ensures Runs(Start(CAM_AND_ARM), steps) && Exec(Start(CAM_AND_ARM), steps) == s
    ensures Inv(s) && Quiet(s, "m") && s.df.acks["m"] == 0 && s.df.sequence == |s.history| == 2 && "m" in s.df.daemons
    ensures ForeignAt(s, "m", 0)
  {
    hide Runs, Exec, PeerOk, LogInv;
    var s0 := Start(CAM_AND_ARM);
    StartInv(CAM_AND_ARM);
    NoSteps(s0);
    assert CAM_AND_ARM["cam"] == "m" && CAM_AND_ARM["arm"] == "n" && "cam"[0] != "arm"[0] && "m"[0] != "n"[0];
    var far := Mutate(SetParam(Key("arm", "speed"), "1"), false);
    assert "m" in s0.peers && "n" in s0.peers;
    s, steps := Next(s0, s0, [], far);
    StepKeeps(s0, far);
    assert s.history == [far.op] && s.peers == s0.peers;
    var before := s;
    s, steps := Next(s0, s, steps, Mutate(ONE, false));
    StepKeeps(before, Mutate(ONE, false));
    assert s.history == [far.op, ONE] && s.peers == s0.peers;
  }
}
