/** A run of the startup barrier that ends with a subscriber nobody will ever
    answer: two daemons with one node each, started together, after which one
    node restarts and subscribes again. */
module BarrierStranding {
  import opened Common
  import opened PendingNodes
  import opened StartupBarrier
  import opened BarrierTheorems
  import opened BarrierAnswer

  const TWO_DAEMONS: map<NodeId, DaemonId> := map["a" := "m", "b" := "n"]

  ghost predicate Reached(s: System, steps: seq<Step>) {
    Runs(Start(TWO_DAEMONS, {}), steps) && Exec(Start(TWO_DAEMONS, {}), steps) == s
  }

  lemma Next(s: System, done: seq<Step>, step: Step) returns (t: System, steps: seq<Step>)
    requires Reached(s, done) && Enabled(s, step)
    ensures t == Do(s, step) && Reached(t, steps)
  {
    t, steps := Do(s, step), done + [step];
    RunsOneMore(Start(TWO_DAEMONS, {}), done, step);
  }

  function Stage(pending: set<DaemonId>, releases: seq<seq<NodeId>>, m: Daemon, n: Daemon): System {
    System(TWO_DAEMONS, {}, Board({"m", "n"}, pending, [], releases, true), map["m" := m, "n" := n])
  }

  // ---- One daemon with the single node `node` ----

  function Fresh(node: NodeId): Daemon {
    Daemon(Pending({node}, true, map[], [], false), [], [], {}, false)
  }

  function Waiting(node: NodeId, up: seq<Up>, down: seq<Down>): Daemon {
    Daemon(Pending({}, true, map[node := 0], [], true), up, down, {}, false)
  }

  function Released(node: NodeId, waiting: map<NodeId, Sender>): Daemon {
    Daemon(Pending({}, true, waiting, [], true), [], [], {Given(Answer(node, 0, Started), Some(0))}, false)
  }

  lemma AfterSubscribe(node: NodeId)
    ensures WithEffect(Fresh(node), NodeSubscribed(Fresh(node).p, node, 0, true)) == Waiting(node, [Report([])], [])
  {
  }

  lemma AfterRelease(node: NodeId)
    ensures TakeRelease(Waiting(node, [], [AllReady(0, [])])) == Released(node, map[])
  {
    var dm := Waiting(node, [], [AllReady(0, [])]);
    assert dm.p.waiting.Keys == {node};
    assert Answers(dm.p.waiting, Started) == {Answer(node, 0, Started)};
    assert Tagged({Answer(node, 0, Started)}, Some(0)) == {Given(Answer(node, 0, Started), Some(0))};
  }

  lemma AfterResubscribe(node: NodeId)
    ensures WithEffect(Released(node, map[]), NodeSubscribed(Released(node, map[]).p, node, 1, true))
         == Released(node, map[node := 1])
  {
  }

  // ---- The run ----

  lemma TheStart()
    ensures Reached(Stage({"m", "n"}, [], Fresh("a"), Fresh("b")), [])
  {
    assert TWO_DAEMONS["a"] == "m" && TWO_DAEMONS["b"] == "n";
    assert TWO_DAEMONS.Values == {"m", "n"};
    SingleOrNot(TWO_DAEMONS.Values, "m");
    assert InitialDaemon(TWO_DAEMONS, {}, "m") == Fresh("a");
    assert InitialDaemon(TWO_DAEMONS, {}, "n") == Fresh("b");
  }

  lemma BothSubscribe() returns (s: System, steps: seq<Step>)
    ensures Reached(s, steps)
    ensures s == Stage({"m", "n"}, [], Waiting("a", [Report([])], []), Waiting("b", [Report([])], []))
  {
    hide Reached, WithEffect, NodeSubscribed;
    TheStart();
    AfterSubscribe("a");
    AfterSubscribe("b");
    s, steps := Stage({"m", "n"}, [], Fresh("a"), Fresh("b")), [];
    s, steps := Next(s, steps, Subscribe("m", "a", 0, true));
    assert s == Stage({"m", "n"}, [], Waiting("a", [Report([])], []), Fresh("b"));
    s, steps := Next(s, steps, Subscribe("n", "b", 0, true));
  }

  lemma ReportsCount()
    ensures var first := ReportCounted(Board({"m", "n"}, {"m", "n"}, [], [], true), "m", []);
      && first == Board({"m", "n"}, {"n"}, [], [], true)
      && ReportCounted(first, "n", []) == Board({"m", "n"}, {}, [], [[]], true)
  {
    assert {"m", "n"} - {"m"} == {"n"} && {"n"} - {"n"} == {};
    assert "n" in {"m", "n"} - {"m"};
    var none: seq<NodeId> := [];
    assert none + none == none;
  }

  lemma ReleaseGoesOut()
    ensures Broadcast(map["m" := Waiting("a", [], []), "n" := Waiting("b", [], [])],
                      Board({"m", "n"}, {}, [], [[]], true), {"m", "n"})
         == map["m" := Waiting("a", [], [AllReady(0, [])]), "n" := Waiting("b", [], [AllReady(0, [])])]
  {
    var none: seq<Down> := [];
    assert none + [AllReady(0, [])] == [AllReady(0, [])];
    var releases: seq<seq<NodeId>> := [[]];
    assert releases[|releases| - 1] == [];
  }

  lemma FirstReported() returns (s: System, steps: seq<Step>)
    ensures Reached(s, steps) && s == Stage({"n"}, [], Waiting("a", [], []), Waiting("b", [Report([])], []))
  {
    hide Reached;
    s, steps := BothSubscribe();
    ReportsCount();
    assert forall e :: e in s.daemons ==> s.daemons[e].up[1..] == [];
    s, steps := Next(s, steps, CoordinatorReceives("m", {"m", "n"}));
  }

  lemma BothReported() returns (s: System, steps: seq<Step>)
    ensures Reached(s, steps)
    ensures s == Stage({}, [[]], Waiting("a", [], [AllReady(0, [])]), Waiting("b", [], [AllReady(0, [])]))
  {
    hide Reached, ReportCounted, Broadcast;
    s, steps := FirstReported();
    ReportsCount();
    ReleaseGoesOut();
    var dm := s.daemons["n"];
    assert dm.up[1..] == [];
    assert s.daemons["n" := dm.(up := dm.up[1..])] == map["m" := Waiting("a", [], []), "n" := Waiting("b", [], [])];
    s, steps := Next(s, steps, CoordinatorReceives("n", {"m", "n"}));
  }

  lemma BothStarted() returns (s: System, steps: seq<Step>)
    ensures Reached(s, steps) && s == Stage({}, [[]], Released("a", map[]), Released("b", map[]))
  {
    hide Reached, TakeRelease;
    s, steps := BothReported();
    AfterRelease("a");
    AfterRelease("b");
    s, steps := Next(s, steps, DaemonReceives("m"));
    assert s == Stage({}, [[]], Released("a", map[]), Waiting("b", [], [AllReady(0, [])]));
    s, steps := Next(s, steps, DaemonReceives("n"));
  }

  lemma Resubscribed() returns (s: System, steps: seq<Step>)
    ensures Reached(s, steps) && s == Stage({}, [[]], Released("a", map["a" := 1]), Released("b", map[]))
  {
    hide Reached, WithEffect, NodeSubscribed;
    s, steps := BothStarted();
    AfterResubscribe("a");
    s, steps := Next(s, steps, Subscribe("m", "a", 1, true));
  }

  lemma ReachedKeeps(s: System, steps: seq<Step>)
    requires Reached(s, steps)
    ensures Inv(s) && Distributed(TWO_DAEMONS)
  {
    hide Inv, Start, Runs, Exec;
    StartInv(TWO_DAEMONS, {});
    RunKeeps(Start(TWO_DAEMONS, {}), steps);
    assert TWO_DAEMONS["a"] == "m" && TWO_DAEMONS["b"] == "n";
    assert "m" in TWO_DAEMONS.Values && "n" in TWO_DAEMONS.Values;
    SingleOrNot(TWO_DAEMONS.Values, "m");
  }

  lemma NothingLeftToCome(s: System)
    requires s == Stage({}, [[]], Released("a", map["a" := 1]), Released("b", map[]))
    ensures "m" in s.daemons && s.daemons["m"].down == []
    ensures Requested(s.daemons["m"], "a", 1) && !AnsweredIn(s.daemons["m"], "a", 1)
    ensures forall e :: e in s.daemons ==> s.daemons[e].p.reported && !ReportQueued(s.daemons[e])
  {
  }

  /** The second subscription of node `a` waits, and no continuation answers it. */
  lemma RestartedNodeIsStranded() returns (s: System, steps: seq<Step>)
    ensures Reached(s, steps) && "m" in s.daemons && Requested(s.daemons["m"], "a", 1)
    ensures !GetsAnswer(s, "m", "a", 1)
  {
    hide Reached, Inv, GetsAnswer, AnsweredIn, ReportQueued, Distributed;
    s, steps := Resubscribed();
    ReachedKeeps(s, steps);
    NothingLeftToCome(s);
    assert TWO_DAEMONS["a"] == "m";
    LateSubscriberNeverAnswered(s, "m", "a", 1);
  }
}
