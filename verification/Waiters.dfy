/** Who waits for a dataflow and what they are told: `WaitForSpawn` callers
    share one cached result, `Stop` callers wait for the dataflow to finish. */
module Waiters {
  import opened Common

  type Waiter = nat

  /** `Dropped` is the error a caller is sent when its reply channel is dropped
      unused. */
  datatype Reply = Spawned | SpawnFailed | ExitedEarly | Stopped | Refused | Unknown | Dropped

  datatype Sent = Sent(to: Waiter, reply: Reply)

  datatype CachedResult =
    | Pending(senders: seq<Waiter>)
    | Cached(result: Reply)

  function Replies(to: seq<Waiter>, reply: Reply): seq<Sent> {
    seq(|to|, i requires 0 <= i < |to| => Sent(to[i], reply))
  }

  function Registered(c: CachedResult, w: Waiter): (CachedResult, seq<Sent>) {
    match c
    case Pending(senders) => (Pending(senders + [w]), [])
    case Cached(result) => (c, [Sent(w, result)])
  }

  /** The first result wins; later ones are ignored. */
  function Resolved(c: CachedResult, result: Reply): (CachedResult, seq<Sent>) {
    match c
    case Pending(senders) => (Cached(result), Replies(senders, result))
    case Cached(_) => (c, [])
  }

  class ResultCell {
    var state: CachedResult

    constructor ()
      ensures state == Pending([])
    {
      state := Pending([]);
    }

    method Register(w: Waiter) returns (sent: seq<Sent>)
      modifies this
      ensures (state, sent) == Registered(old(state), w)
    {
      match state {
        case Pending(senders) => state, sent := Pending(senders + [w]), [];
        case Cached(result) => sent := [Sent(w, result)];
      }
    }

    method SetResult(result: Reply) returns (sent: seq<Sent>)
      modifies this
      ensures (state, sent) == Resolved(old(state), result)
    {
      sent := [];
      match state {
        case Pending(senders) =>
          for i := 0 to |senders|
            invariant state == old(state)
            invariant sent == Replies(senders[..i], result)
          {
            sent := sent + [Sent(senders[i], result)];
          }
          assert senders[..|senders|] == senders;
          state := Cached(result);
        case Cached(_) =>
      }
    }
  }

  // ---- One dataflow, from start to finish ----

  /** `finishedOn` holds the daemons with a recorded result; `live` says the
      dataflow is in the running map; `issued` lists every waiter that asked
      and `sent` every reply given, in order. */
  datatype State = State(
    daemons: set<DaemonId>,
    awaitingSpawn: set<DaemonId>,
    finishedOn: set<DaemonId>,
    spawn: CachedResult,
    stopWaiters: seq<Waiter>,
    live: bool,
    issued: seq<Waiter>,
    spawnSent: seq<Sent>,
    otherSent: seq<Sent>)

  datatype Step =
    | WaitForSpawn(w: Waiter)
    | SpawnResult(d: DaemonId, ok: bool)
    | Stop(w: Waiter, accepted: bool)
    | FinishedOnDaemon(d: DaemonId)
    | Watchdog(gone: set<DaemonId>)
    | ReplacedByRestart

  function Start(daemons: set<DaemonId>): State {
    State(daemons, daemons, {}, Pending([]), [], true, [], [], [])
  }

  function WithSpawn(s: State, outcome: (CachedResult, seq<Sent>)): State {
    s.(spawn := outcome.0, spawnSent := s.spawnSent + outcome.1)
  }

  function Tell(s: State, sent: seq<Sent>): State {
    s.(otherSent := s.otherSent + sent)
  }

  /** The dataflow leaves the running map: everybody still waiting is told. */
  function Ended(s: State, toStop: Reply, toSpawn: Reply): State {
    WithSpawn(Tell(s.(live := false, stopWaiters := []), Replies(s.stopWaiters, toStop)), Resolved(s.spawn, toSpawn))
  }

  function Do(s: State, step: Step): State {
    match step
    case WaitForSpawn(w) =>
      var t := s.(issued := s.issued + [w]);
      if s.live then WithSpawn(t, Registered(s.spawn, w)) else Tell(t, [Sent(w, Unknown)])
    case SpawnResult(d, ok) =>
      if !s.live then s
      else
        var t := s.(awaitingSpawn := s.awaitingSpawn - {d});
        if !ok then WithSpawn(t, Resolved(s.spawn, SpawnFailed))
        else if t.awaitingSpawn == {} then WithSpawn(t, Resolved(s.spawn, Spawned))
        else t
    case Stop(w, accepted) =>
      var t := s.(issued := s.issued + [w]);
      if s.finishedOn != {} then Tell(t, [Sent(w, Stopped)])
      else if s.live && accepted then t.(stopWaiters := t.stopWaiters + [w])
      else Tell(t, [Sent(w, Refused)])
    case FinishedOnDaemon(d) =>
      if !s.live then s
      else
        var t := s.(daemons := s.daemons - {d}, finishedOn := s.finishedOn + {d});
        if t.daemons == {} then Ended(t, Stopped, ExitedEarly) else t
    case Watchdog(gone) =>
      if !s.live then s
      else s.(daemons := s.daemons - gone, awaitingSpawn := s.awaitingSpawn - gone)
    case ReplacedByRestart => if s.live then Ended(s, Dropped, Dropped) else s
  }

  function Exec(s: State, steps: seq<Step>): State {
    if steps == [] then s else Do(Exec(s, steps[..|steps| - 1]), steps[|steps| - 1])
  }

  // ---- Exactly one answer ----

  function Waiting(s: State): seq<Waiter> {
    s.stopWaiters + match s.spawn case Pending(senders) => senders case Cached(_) => []
  }

  function Told(sent: seq<Sent>): (ws: seq<Waiter>)
    ensures |ws| == |sent| && forall i :: 0 <= i < |sent| ==> ws[i] == sent[i].to
  {
    seq(|sent|, i requires 0 <= i < |sent| => sent[i].to)
  }

  /** Conservation: whoever asked is waiting or was told, once per request. And
      all spawn callers were told the one cached result. */
  ghost predicate Inv(s: State) {
    && multiset(s.issued) == multiset(Waiting(s)) + multiset(Told(s.spawnSent)) + multiset(Told(s.otherSent))
    && (s.spawn.Pending? ==> s.spawnSent == [])
    && (s.spawn.Cached? ==> forall i :: 0 <= i < |s.spawnSent| ==> s.spawnSent[i].reply == s.spawn.result)
  }

  lemma TellKeepsCount(before: seq<Sent>, to: seq<Waiter>, reply: Reply)
    ensures multiset(Told(before + Replies(to, reply))) == multiset(Told(before)) + multiset(to)
  {
    assert Told(before + Replies(to, reply)) == Told(before) + to;
  }

  lemma ResolveKeeps(s: State, result: Reply)
    requires Inv(s)
    ensures Inv(WithSpawn(s, Resolved(s.spawn, result)))
  {
    var t := WithSpawn(s, Resolved(s.spawn, result));
    match s.spawn
    case Pending(senders) =>
      TellKeepsCount(s.spawnSent, senders, result);
      assert Waiting(t) == s.stopWaiters;
    case Cached(_) =>
      assert t.spawnSent == s.spawnSent;
  }

  lemma EndKeeps(s: State, toStop: Reply, toSpawn: Reply)
    requires Inv(s)
    ensures Inv(Ended(s, toStop, toSpawn))
  {
    var t := Tell(s.(live := false, stopWaiters := []), Replies(s.stopWaiters, toStop));
    TellKeepsCount(s.otherSent, s.stopWaiters, toStop);
    assert Inv(t);
    ResolveKeeps(t, toSpawn);
  }

  lemma ToldOneMore(before: seq<Sent>, w: Waiter, reply: Reply)
    ensures multiset(Told(before + [Sent(w, reply)])) == multiset(Told(before)) + multiset{w}
  {
    assert Told(before + [Sent(w, reply)]) == Told(before) + [w];
  }

  lemma SpawnAskKeeps(s: State, w: Waiter)
    requires Inv(s)
    ensures Inv(Do(s, WaitForSpawn(w)))
  {
    var t := Do(s, WaitForSpawn(w));
    if !s.live {
      ToldOneMore(s.otherSent, w, Unknown);
    } else if s.spawn.Pending? {
      assert Waiting(t) == Waiting(s) + [w];
      assert t.spawnSent == s.spawnSent;
    } else {
      ToldOneMore(s.spawnSent, w, s.spawn.result);
    }
  }

  lemma ToldKeeps(s: State, w: Waiter, reply: Reply)
    requires Inv(s)
    ensures Inv(Tell(s.(issued := s.issued + [w]), [Sent(w, reply)]))
  {
    ToldOneMore(s.otherSent, w, reply);
  }

  lemma StopQueuedKeeps(s: State, w: Waiter)
    requires Inv(s)
    ensures Inv(s.(issued := s.issued + [w], stopWaiters := s.stopWaiters + [w]))
  {
    var t := s.(issued := s.issued + [w], stopWaiters := s.stopWaiters + [w]);
    assert multiset(Waiting(t)) == multiset(Waiting(s)) + multiset{w};
  }

  lemma StopAskKeeps(s: State, w: Waiter, accepted: bool)
    requires Inv(s)
    ensures Inv(Do(s, Stop(w, accepted)))
  {
    hide Inv, Tell;
    ToldKeeps(s, w, Stopped);
    ToldKeeps(s, w, Refused);
    StopQueuedKeeps(s, w);
  }

  /** The books do not look at the daemons. */
  lemma SameBooks(s: State, daemons: set<DaemonId>, awaitingSpawn: set<DaemonId>, finishedOn: set<DaemonId>, live: bool)
    requires Inv(s)
    ensures Inv(s.(daemons := daemons, awaitingSpawn := awaitingSpawn, finishedOn := finishedOn, live := live))
  {
  }

  lemma StepKeeps(s: State, step: Step)
    requires Inv(s)
    ensures Inv(Do(s, step))
  {
    hide Inv, Resolved, Ended;
    match step
    case WaitForSpawn(w) => SpawnAskKeeps(s, w);
    case Stop(w, accepted) => StopAskKeeps(s, w, accepted);
    case SpawnResult(d, ok) =>
      SameBooks(s, s.daemons, s.awaitingSpawn - {d}, s.finishedOn, s.live);
      ResolveKeeps(s.(awaitingSpawn := s.awaitingSpawn - {d}), if ok then Spawned else SpawnFailed);
    case FinishedOnDaemon(d) =>
      SameBooks(s, s.daemons - {d}, s.awaitingSpawn, s.finishedOn + {d}, s.live);
      EndKeeps(s.(daemons := s.daemons - {d}, finishedOn := s.finishedOn + {d}), Stopped, ExitedEarly);
    case Watchdog(gone) => SameBooks(s, s.daemons - gone, s.awaitingSpawn - gone, s.finishedOn, s.live);
    case ReplacedByRestart => EndKeeps(s, Dropped, Dropped);
  }

  lemma {:induction false} RunKeeps(daemons: set<DaemonId>, steps: seq<Step>)
    ensures Inv(Exec(Start(daemons), steps))
  {
    if steps != [] {
      RunKeeps(daemons, steps[..|steps| - 1]);
      StepKeeps(Exec(Start(daemons), steps[..|steps| - 1]), steps[|steps| - 1]);
    }
  }

  lemma NoneWaitStep(s: State, step: Step)
    requires !s.live ==> Waiting(s) == []
    ensures !Do(s, step).live ==> Waiting(Do(s, step)) == []
  {
  }

  /** Nobody waits for a dataflow that has left the running map, whether it
      finished or was replaced by its restart. */
  lemma {:induction false} NoneWaitWhenGone(daemons: set<DaemonId>, steps: seq<Step>)
    ensures !Exec(Start(daemons), steps).live ==> Waiting(Exec(Start(daemons), steps)) == []
  {
    if steps != [] {
      NoneWaitWhenGone(daemons, steps[..|steps| - 1]);
      NoneWaitStep(Exec(Start(daemons), steps[..|steps| - 1]), steps[|steps| - 1]);
    }
  }

  /** In every run that ends with the dataflow gone, each request was answered
      exactly as often as it was made, and all that was told about the spawn,
      early or late, is the one first result. */
  lemma AllAnsweredOnce(daemons: set<DaemonId>, steps: seq<Step>)
    requires !Exec(Start(daemons), steps).live
    ensures var s := Exec(Start(daemons), steps);
      && multiset(s.issued) == multiset(Told(s.spawnSent)) + multiset(Told(s.otherSent))
      && (forall i, j :: 0 <= i < |s.spawnSent| && 0 <= j < |s.spawnSent| ==> s.spawnSent[i].reply == s.spawnSent[j].reply)
  {
    RunKeeps(daemons, steps);
    NoneWaitWhenGone(daemons, steps);
  }

  // ---- Callers of a dataflow that is restarted ----

  lemma RepliesStand(s: State, step: Step)
    ensures s.otherSent <= Do(s, step).otherSent && s.spawnSent <= Do(s, step).spawnSent
  {
  }

  /** The replies the step sends. */
  function News(s: State, step: Step): seq<Sent> {
    var t := Do(s, step);
    RepliesStand(s, step);
    t.otherSent[|s.otherSent|..] + t.spawnSent[|s.spawnSent|..]
  }

  lemma {:induction false} LiveResultIsReal(daemons: set<DaemonId>, steps: seq<Step>)
    ensures Exec(Start(daemons), steps).live ==> Exec(Start(daemons), steps).spawn != Cached(Dropped)
  {
    if steps != [] {
      LiveResultIsReal(daemons, steps[..|steps| - 1]);
    }
  }

  lemma RestartNews(s: State)
    requires s.live
    ensures News(s, ReplacedByRestart) == Replies(Waiting(s), Dropped)
  {
    var t := Do(s, ReplacedByRestart);
    assert t.otherSent[|s.otherSent|..] == Replies(s.stopWaiters, Dropped);
    assert t.spawnSent[|s.spawnSent|..] == Resolved(s.spawn, Dropped).1;
  }

  lemma OtherNews(s: State, step: Step, n: Sent)
    requires !(step.ReplacedByRestart? && s.live) && n in News(s, step)
    requires s.live ==> s.spawn != Cached(Dropped)
    ensures n.reply != Dropped
  {
    var t := Do(s, step);
    if n in t.otherSent[|s.otherSent|..] {
      assert step.FinishedOnDaemon? ==> t.otherSent[|s.otherSent|..] == Replies(s.stopWaiters, Stopped);
    } else {
      assert step.FinishedOnDaemon? ==> t.spawnSent[|s.spawnSent|..] == Resolved(s.spawn, ExitedEarly).1;
    }
  }

  /** In every run the callers told that their request was dropped are exactly
      those waiting when the live dataflow is replaced by its restart. */
  lemma DroppedExact(daemons: set<DaemonId>, steps: seq<Step>, step: Step)
    ensures var s := Exec(Start(daemons), steps);
      if step.ReplacedByRestart? && s.live then News(s, step) == Replies(Waiting(s), Dropped)
      else forall n :: n in News(s, step) ==> n.reply != Dropped
  {
    LiveResultIsReal(daemons, steps);
    var s := Exec(Start(daemons), steps);
    hide Exec, Do, News;
    if step.ReplacedByRestart? && s.live {
      RestartNews(s);
    } else {
      forall n | n in News(s, step) ensures n.reply != Dropped {
        OtherNews(s, step, n);
      }
    }
  }

  /** Two callers wait, for the spawn and for the stop, when the dataflow is
      restarted: both hear that the request was dropped. */
  lemma RestartDropsTwo()
    ensures var s := Exec(Start({"a"}), [WaitForSpawn(1), Stop(2, true), ReplacedByRestart]);
      !s.live && Waiting(s) == [] && s.spawnSent == [Sent(1, Dropped)] && s.otherSent == [Sent(2, Dropped)]
  {
    var s0 := Start({"a"});
    OneMore(s0, [], WaitForSpawn(1));
    OneMore(s0, [WaitForSpawn(1)], Stop(2, true));
    OneMore(s0, [WaitForSpawn(1), Stop(2, true)], ReplacedByRestart);
  }

  lemma OneMore(s: State, steps: seq<Step>, step: Step)
    ensures Exec(s, steps + [step]) == Do(Exec(s, steps), step)
  {
    assert (steps + [step])[..|steps|] == steps;
  }

  // ---- How long callers wait ----

  function Leaving(step: Step): set<DaemonId> {
    match step
    case FinishedOnDaemon(d) => {d}
    case Watchdog(gone) => gone
    case _ => {}
  }

  function Reporting(step: Step): set<DaemonId> {
    match step
    case SpawnResult(d, _) => {d}
    case Watchdog(gone) => gone
    case _ => {}
  }

  /** The daemons that finish or are dropped in the run. */
  function LeftBy(steps: seq<Step>): set<DaemonId> {
    if steps == [] then {} else LeftBy(steps[..|steps| - 1]) + Leaving(steps[|steps| - 1])
  }

  /** The daemons that report on their spawn or are dropped in the run. */
  function ReportedBy(steps: seq<Step>): set<DaemonId> {
    if steps == [] then {} else ReportedBy(steps[..|steps| - 1]) + Reporting(steps[|steps| - 1])
  }

  /** Step `i` of a run from `s` is a restart, or a finish report after which
      every daemon of `s` has finished or been dropped. A daemon dropped before
      may still send that report. */
  predicate EndsAt(s: State, steps: seq<Step>, i: nat)
    requires i < |steps|
  {
    steps[i].ReplacedByRestart? || (steps[i].FinishedOnDaemon? && s.daemons <= LeftBy(steps[..i + 1]))
  }

  /** Step `i` is a failed spawn, or a successful one after which every awaited
      daemon has reported or been dropped. */
  predicate SettlesAt(s: State, steps: seq<Step>, i: nat)
    requires i < |steps|
  {
    steps[i].SpawnResult? && (!steps[i].ok || s.awaitingSpawn <= ReportedBy(steps[..i + 1]))
  }

  ghost predicate Ends(s: State, steps: seq<Step>) {
    exists i :: 0 <= i < |steps| && EndsAt(s, steps, i)
  }

  ghost predicate Settles(s: State, steps: seq<Step>) {
    exists i :: 0 <= i < |steps| && SettlesAt(s, steps, i)
  }

  lemma LastStep(s: State, steps: seq<Step>)
    requires steps != []
    ensures Ends(s, steps) <==> Ends(s, steps[..|steps| - 1]) || EndsAt(s, steps, |steps| - 1)
    ensures Settles(s, steps) <==> Settles(s, steps[..|steps| - 1]) || SettlesAt(s, steps, |steps| - 1)
  {
    hide LeftBy, ReportedBy;
    var before := steps[..|steps| - 1];
    forall i | 0 <= i < |before|
      ensures EndsAt(s, before, i) <==> EndsAt(s, steps, i)
      ensures SettlesAt(s, before, i) <==> SettlesAt(s, steps, i)
    {
      assert before[..i + 1] == steps[..i + 1];
    }
  }

  /** What is left of the daemons while the dataflow is live. */
  lemma {:induction false} DaemonsLeft(s: State, steps: seq<Step>)
    requires Exec(s, steps).live
    ensures s.live
    ensures Exec(s, steps).daemons == s.daemons - LeftBy(steps)
    ensures Exec(s, steps).awaitingSpawn == s.awaitingSpawn - ReportedBy(steps)
  {
    if steps != [] {
      DaemonsLeft(s, steps[..|steps| - 1]);
    }
  }

  lemma EndStep(s: State, steps: seq<Step>)
    requires steps != [] && Exec(s, steps[..|steps| - 1]).live
    ensures Exec(s, steps).live <==> !EndsAt(s, steps, |steps| - 1)
  {
    var n := |steps| - 1;
    DaemonsLeft(s, steps[..n]);
    assert steps[..n + 1] == steps;
    if steps[n].FinishedOnDaemon? {
      var left := LeftBy(steps[..n]);
      assert s.daemons - left - {steps[n].d} == {} <==> s.daemons <= left + {steps[n].d};
    }
  }

  /** From any live state: a caller of Stop that waits is still waiting after a
      run if and only if no step of the run ends the dataflow. */
  lemma {:induction false} StopCallerExact(s: State, steps: seq<Step>)
    requires s.live
    ensures var t := Exec(s, steps);
      && (t.live <==> !Ends(s, steps))
      && (if t.live then s.stopWaiters <= t.stopWaiters else Waiting(t) == [])
  {
    if steps != [] {
      var n := |steps| - 1;
      StopCallerExact(s, steps[..n]);
      LastStep(s, steps);
      if Exec(s, steps[..n]).live {
        EndStep(s, steps);
      }
      hide Ends, EndsAt, Settles, SettlesAt;
    }
  }

  lemma SettleNow(s: State, step: Step)
    requires Do(s, step).live && s.spawn.Pending?
    ensures s.live
    ensures Do(s, step).spawn.Pending? <==> !(step.SpawnResult? && (!step.ok || s.awaitingSpawn - {step.d} == {}))
    ensures Do(s, step).spawn.Pending? ==> s.spawn.senders <= Do(s, step).spawn.senders
  {
  }

  lemma SettleStep(s: State, steps: seq<Step>)
    requires steps != [] && Exec(s, steps).live && Exec(s, steps[..|steps| - 1]).spawn.Pending?
    ensures var before, t := Exec(s, steps[..|steps| - 1]).spawn, Exec(s, steps).spawn;
      && (t.Pending? <==> !SettlesAt(s, steps, |steps| - 1))
      && (t.Pending? ==> before.senders <= t.senders)
  {
    var n := |steps| - 1;
    SettleNow(Exec(s, steps[..n]), steps[n]);
    DaemonsLeft(s, steps[..n]);
    hide LeftBy, Do;
    assert steps[..n + 1] == steps;
    if steps[n].SpawnResult? {
      var reported := ReportedBy(steps[..n]);
      assert s.awaitingSpawn - reported - {steps[n].d} == {} <==> s.awaitingSpawn <= reported + {steps[n].d};
    }
  }

  /** Likewise for a caller that waits for the spawn, who is also answered by
      the step that settles it. */
  lemma {:induction false} SpawnCallerExact(s: State, steps: seq<Step>)
    requires s.live && s.spawn.Pending?
    ensures var t := Exec(s, steps);
      if Ends(s, steps) || Settles(s, steps) then t.spawn.Cached?
      else t.spawn.Pending? && s.spawn.senders <= t.spawn.senders
  {
    if steps != [] {
      var n := |steps| - 1;
      SpawnCallerExact(s, steps[..n]);
      StopCallerExact(s, steps[..n]);
      StopCallerExact(s, steps);
      LastStep(s, steps);
      if Exec(s, steps).live && Exec(s, steps[..n]).spawn.Pending? {
        SettleStep(s, steps);
      }
      hide Ends, EndsAt, Settles, SettlesAt;
    }
  }

  // ---- What callers are told ----

  /** Step `i` is the first to settle the spawn or end the dataflow. */
  ghost predicate DecidesAt(s: State, steps: seq<Step>, i: nat)
    requires i < |steps|
  {
    && (EndsAt(s, steps, i) || SettlesAt(s, steps, i))
    && !Ends(s, steps[..i]) && !Settles(s, steps[..i])
  }

  /** What the deciding step means for whoever waits for the spawn. */
  function Meaning(step: Step): Reply {
    match step
    case SpawnResult(_, ok) => if ok then Spawned else SpawnFailed
    case FinishedOnDaemon(_) => ExitedEarly
    case _ => Dropped
  }

  lemma ResultStands(s: State, step: Step)
    requires s.spawn.Cached?
    ensures Do(s, step).spawn == s.spawn
  {
  }

  lemma DecidedNow(s: State, step: Step)
    requires s.spawn.Pending? && Do(s, step).spawn.Cached?
    ensures Do(s, step).spawn == Cached(Meaning(step))
    ensures forall w :: w in s.spawn.senders ==> Sent(w, Meaning(step)) in News(s, step)
  {
    var t := Do(s, step);
    assert t.spawnSent[|s.spawnSent|..] == Replies(s.spawn.senders, Meaning(step));
    forall w | w in s.spawn.senders ensures Sent(w, Meaning(step)) in t.spawnSent[|s.spawnSent|..] {
      var i :| 0 <= i < |s.spawn.senders| && s.spawn.senders[i] == w;
      assert Replies(s.spawn.senders, Meaning(step))[i] == Sent(w, Meaning(step));
    }
  }

  /** From any live state with the spawn unsettled, over every run: the result is
      decided by the first step that settles the spawn or ends the dataflow.
      Everyone waiting then is told what that step means, and so is everyone who
      asks later while the dataflow lives. */
  lemma {:induction false} SpawnResultExact(s: State, steps: seq<Step>, i: nat)
    requires s.live && s.spawn.Pending? && i < |steps| && DecidesAt(s, steps, i)
    ensures var before := Exec(s, steps[..i]);
      && before.spawn.Pending?
      && (forall w :: w in before.spawn.senders ==> Sent(w, Meaning(steps[i])) in News(before, steps[i]))
      && Exec(s, steps).spawn == Cached(Meaning(steps[i]))
  {
    var n := |steps| - 1;
    hide DecidesAt;
    if i == n {
      DecidedLast(s, steps);
    } else {
      assert steps[..n][..i] == steps[..i] && steps[..n][i] == steps[i] && steps[..n][..i + 1] == steps[..i + 1];
      DecidesInPrefix(s, steps, i);
      SpawnResultExact(s, steps[..n], i);
      ResultStands(Exec(s, steps[..n]), steps[n]);
    }
  }

  lemma DecidesInPrefix(s: State, steps: seq<Step>, i: nat)
    requires i < |steps| - 1
    ensures DecidesAt(s, steps[..|steps| - 1], i) <==> DecidesAt(s, steps, i)
  {
    var before := steps[..|steps| - 1];
    assert before[..i] == steps[..i] && before[..i + 1] == steps[..i + 1] && before[i] == steps[i];
    hide Ends, Settles, LeftBy, ReportedBy;
  }

  lemma DecidedLast(s: State, steps: seq<Step>)
    requires s.live && s.spawn.Pending? && steps != [] && DecidesAt(s, steps, |steps| - 1)
    ensures var before, last := Exec(s, steps[..|steps| - 1]), steps[|steps| - 1];
      && before.spawn.Pending?
      && (forall w :: w in before.spawn.senders ==> Sent(w, Meaning(last)) in News(before, last))
      && Exec(s, steps).spawn == Cached(Meaning(last))
  {
    var n := |steps| - 1;
    SpawnCallerExact(s, steps[..n]);
    SpawnCallerExact(s, steps);
    LastStep(s, steps);
    hide Ends, Settles, EndsAt, SettlesAt, News, Meaning, Do;
    DecidedNow(Exec(s, steps[..n]), steps[n]);
  }

  /** In every run somebody who waits for the spawn, or asks for it, is told: the
      decided result while the dataflow lives, at once if it is decided already;
      and that it is unknown once it is gone. */
  lemma SpawnReplyExact(daemons: set<DaemonId>, steps: seq<Step>, w: Waiter)
    ensures var s := Exec(Start(daemons), steps);
      News(s, WaitForSpawn(w)) ==
        if Ends(Start(daemons), steps) then [Sent(w, Unknown)]
        else if s.spawn.Cached? then [Sent(w, s.spawn.result)] else []
  {
    StopCallerExact(Start(daemons), steps);
  }

  /** In every run a Stop request is told at once "stopped" if some daemon has
      finished; otherwise it waits if the dataflow lives and all daemons took the
      request, and is refused if not. */
  lemma StopReplyExact(daemons: set<DaemonId>, steps: seq<Step>, w: Waiter, accepted: bool)
    ensures var s := Exec(Start(daemons), steps);
      && News(s, Stop(w, accepted)) ==
           (if SomeFinished(daemons, steps) then [Sent(w, Stopped)]
            else if !Ends(Start(daemons), steps) && accepted then [] else [Sent(w, Refused)])
      && (News(s, Stop(w, accepted)) == [] <==> Do(s, Stop(w, accepted)).stopWaiters == s.stopWaiters + [w])
  {
    StopCallerExact(Start(daemons), steps);
    FinishedExact(daemons, steps);
    hide Exec, SomeFinished, Ends;
  }

  /** When the dataflow ends, every caller of Stop that waits is told: stopped by
      a finish report, dropped by a restart. */
  lemma StopCallersTold(s: State, step: Step, w: Waiter)
    requires s.live && !Do(s, step).live && w in s.stopWaiters
    ensures Sent(w, if step.FinishedOnDaemon? then Stopped else Dropped) in News(s, step)
  {
    var t := Do(s, step);
    var reply := if step.FinishedOnDaemon? then Stopped else Dropped;
    assert t.otherSent[|s.otherSent|..] == Replies(s.stopWaiters, reply);
    var i :| 0 <= i < |s.stopWaiters| && s.stopWaiters[i] == w;
    assert Replies(s.stopWaiters, reply)[i] == Sent(w, reply);
    assert Sent(w, reply) in t.otherSent[|s.otherSent|..];
  }

  /** A dataflow whose daemons were all dropped stays, and its callers of Stop
      wait on, until a restart or a finish report of some daemon. */
  lemma WithoutDaemonsExact(s: State, steps: seq<Step>)
    requires s.live && s.daemons == {}
    ensures Exec(s, steps).live <==>
      forall i :: 0 <= i < |steps| ==> !steps[i].ReplacedByRestart? && !steps[i].FinishedOnDaemon?
    ensures if Exec(s, steps).live then s.stopWaiters <= Exec(s, steps).stopWaiters else Waiting(Exec(s, steps)) == []
  {
    StopCallerExact(s, steps);
    hide Exec, LeftBy;
    assert forall i :: 0 <= i < |steps| ==> (EndsAt(s, steps, i) <==> steps[i].ReplacedByRestart? || steps[i].FinishedOnDaemon?);
  }

  /** Such a dataflow: the only daemon is dropped after a Stop was accepted. */
  lemma WatchdogLeavesCallerWaiting()
    ensures var s := Exec(Start({"a"}), [Stop(2, true), Watchdog({"a"})]);
      s.live && s.daemons == {} && Waiting(s) == [2] && s.otherSent == [] && s.spawnSent == []
  {
    var s0 := Start({"a"});
    OneMore(s0, [], Stop(2, true));
    OneMore(s0, [Stop(2, true)], Watchdog({"a"}));
  }

  // ---- Stop on a dataflow that is only partly finished ----

  lemma {:induction false} FinishedDaemonsHaveLeft(daemons: set<DaemonId>, steps: seq<Step>)
    ensures var s := Exec(Start(daemons), steps); s.daemons !! s.finishedOn
  {
    if steps != [] {
      FinishedDaemonsHaveLeft(daemons, steps[..|steps| - 1]);
    }
  }

  /** Some daemon finished while the dataflow was live. */
  ghost predicate SomeFinished(daemons: set<DaemonId>, steps: seq<Step>) {
    exists i :: 0 <= i < |steps| && FinishesAt(daemons, steps, i)
  }

  predicate FinishesAt(daemons: set<DaemonId>, steps: seq<Step>, i: nat)
    requires i < |steps|
  {
    steps[i].FinishedOnDaemon? && Exec(Start(daemons), steps[..i]).live
  }

  lemma FinishesLast(daemons: set<DaemonId>, steps: seq<Step>)
    requires steps != []
    ensures SomeFinished(daemons, steps) <==>
      SomeFinished(daemons, steps[..|steps| - 1]) || FinishesAt(daemons, steps, |steps| - 1)
  {
    hide Exec;
    var before := steps[..|steps| - 1];
    forall i | 0 <= i < |before| ensures FinishesAt(daemons, before, i) <==> FinishesAt(daemons, steps, i) {
      assert before[..i] == steps[..i];
    }
  }

  lemma FinishedOnAfter(s: State, step: Step)
    ensures Do(s, step).finishedOn == if step.FinishedOnDaemon? && s.live then s.finishedOn + {step.d} else s.finishedOn
  {
  }

  lemma {:induction false} FinishedExact(daemons: set<DaemonId>, steps: seq<Step>)
    ensures SomeFinished(daemons, steps) <==> Exec(Start(daemons), steps).finishedOn != {}
  {
    if steps != [] {
      var n := |steps| - 1;
      FinishedExact(daemons, steps[..n]);
      FinishesLast(daemons, steps);
      FinishedOnAfter(Exec(Start(daemons), steps[..n]), steps[n]);
      hide Do, SomeFinished;
    }
  }

  /** The step tells some caller that the dataflow has stopped. */
  ghost predicate TellsStopped(s: State, step: Step) {
    var t := Do(s, step);
    exists i :: |s.otherSent| <= i < |t.otherSent| && t.otherSent[i].reply == Stopped
  }

  /** In every run: a step tells a caller "stopped" while a daemon still runs the
      dataflow if and only if it is a Stop request made after some daemon has
      finished and while another has not; the request takes none of the remaining
      daemons out. */
  lemma StoppedTooSoonExact(daemons: set<DaemonId>, steps: seq<Step>, step: Step)
    ensures var s := Exec(Start(daemons), steps);
      && (TellsStopped(s, step) && Do(s, step).daemons != {}
          <==> step.Stop? && SomeFinished(daemons, steps) && s.daemons - s.finishedOn != {})
      && (step.Stop? ==> Do(s, step).daemons == s.daemons)
  {
    FinishedExact(daemons, steps);
    FinishedDaemonsHaveLeft(daemons, steps);
    var s := Exec(Start(daemons), steps);
    assert s.daemons - s.finishedOn == s.daemons;
    hide Exec, SomeFinished;
    if step.Stop? && s.finishedOn != {} {
      assert Do(s, step).otherSent[|s.otherSent|].reply == Stopped;
    }
  }

  /** Two daemons, one finished: the caller hears "stopped" and the other
      daemon still runs the dataflow. */
  lemma StopLeavesDaemonRunning()
    ensures var s := Exec(Start({"a", "b"}), [FinishedOnDaemon("a"), Stop(1, true)]);
      s.live && s.daemons == {"b"} && s.otherSent == [Sent(1, Stopped)] && s.stopWaiters == []
  {
    var s0 := Start({"a", "b"});
    assert "a"[0] != "b"[0];
    assert "b" in s0.daemons - {"a"};
    OneMore(s0, [], FinishedOnDaemon("a"));
    OneMore(s0, [FinishedOnDaemon("a")], Stop(1, true));
    assert {"a", "b"} - {"a"} == {"b"};
  }
}
