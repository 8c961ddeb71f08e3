/** The persisted lifecycle of dataflows across coordinator restarts. Records
    are written by two independent counters: the in-memory generation of a
    running dataflow, and increments of the stored record itself. */
module Lifecycle {
  type Uuid = nat

  datatype Status = Pending | Running | Recovering | Stopping | Succeeded | Failed

  datatype Record = Record(status: Status, generation: nat, updatedAt: nat)

  type Store = map<Uuid, Record>

  const RECOVERY_TIMEOUT_MS: nat := 60_000

  /** `running` maps each dataflow in memory to its generation counter;
      `used` holds every identifier handed out so far. */
  datatype State = State(store: Store, running: map<Uuid, nat>, used: set<Uuid>)

  /** `now` is the wall clock, which may jump; `saved` is false when building
      or writing the record failed; `failing` lists failed writes. */
  datatype Step =
    | Start(u: Uuid, now: nat, saved: bool)
    | Persist(u: Uuid, status: Status, now: nat, saved: bool)
    | Finish(u: Uuid, clean: bool, now: nat, saved: bool)
    | RestartDataflow(u: Uuid, next: Uuid, now: nat, saved: bool, nextSaved: bool)
    | CoordinatorRestart(now: nat, failing: set<Uuid>)
    | RecoveryTimeout(now: nat, failing: set<Uuid>)
    | StatusReport(reported: seq<Uuid>, now: nat, failing: set<Uuid>)

  // ---- Writes ----

  /** Building a record bumps the in-memory counter even if the write fails. */
  function Persisted(s: State, u: Uuid, status: Status, now: nat, saved: bool): State
    requires u in s.running
  {
    var generation := s.running[u] + 1;
    s.(running := s.running[u := generation],
       store := if saved then s.store[u := Record(status, generation, now)] else s.store)
  }

  function Removed(s: State, u: Uuid): State {
    s.(running := s.running - {u})
  }

  function Launched(s: State, u: Uuid, now: nat, saved: bool): State {
    Persisted(s.(running := s.running[u := 0], used := s.used + {u}), u, Pending, now, saved)
  }

  predicate Unfinished(status: Status) { status.Pending? || status.Running? || status.Stopping? || status.Recovering? }

  function Recovered(r: Record, now: nat): Record {
    if Unfinished(r.status) then Record(Recovering, r.generation + 1, now) else r
  }

  function RecoveredStore(store: Store, now: nat, failing: set<Uuid>): Store {
    map u | u in store :: if u in failing then store[u] else Recovered(store[u], now)
  }

  /** The age saturates at zero when the clock went back. */
  function Expired(r: Record, now: nat): Record {
    if r.status.Recovering? && now > r.updatedAt + RECOVERY_TIMEOUT_MS
    then Record(Failed, r.generation + 1, now) else r
  }

  function ExpiredStore(store: Store, now: nat, failing: set<Uuid>): Store {
    map u | u in store :: if u in failing then store[u] else Expired(store[u], now)
  }

  function Reconciled(r: Record, now: nat): Record {
    if r.status.Failed? || r.status.Pending? || r.status.Recovering?
    then Record(Running, r.generation + 1, now) else r
  }

  function ReconciledStore(store: Store, reported: seq<Uuid>, now: nat, failing: set<Uuid>): Store {
    if reported == [] then store
    else
      var n := |reported| - 1;
      var before := ReconciledStore(store, reported[..n], now, failing);
      if reported[n] in before && reported[n] !in failing
      then before[reported[n] := Reconciled(before[reported[n]], now)] else before
  }

  /** The coordinator's loops over the store. */
  class Coordinator {
    var store: Store

    constructor (store: Store)
      ensures this.store == store
    {
      this.store := store;
    }

    method RecoverOnStartup(now: nat, failing: set<Uuid>)
      modifies this
      ensures store == RecoveredStore(old(store), now, failing)
    {
      var rest := store.Keys;
      while rest != {}
        invariant rest <= old(store).Keys == store.Keys
        invariant forall u :: u in store ==>
          store[u] == if u in rest || u in failing then old(store)[u] else Recovered(old(store)[u], now)
      {
        var u :| u in rest;
        if Unfinished(store[u].status) && u !in failing {
          store := store[u := Record(Recovering, store[u].generation + 1, now)];
        }
        rest := rest - {u};
      }
    }

    method ExpireRecovering(now: nat, failing: set<Uuid>)
      modifies this
      ensures store == ExpiredStore(old(store), now, failing)
    {
      var rest := store.Keys;
      while rest != {}
        invariant rest <= old(store).Keys == store.Keys
        invariant forall u :: u in store ==>
          store[u] == if u in rest || u in failing then old(store)[u] else Expired(old(store)[u], now)
      {
        var u :| u in rest;
        if store[u].status.Recovering? {
          var age := if now < store[u].updatedAt then 0 else now - store[u].updatedAt;
          if age > RECOVERY_TIMEOUT_MS && u !in failing {
            store := store[u := Record(Failed, store[u].generation + 1, now)];
          }
        }
        rest := rest - {u};
      }
    }

    method ReconcileReport(reported: seq<Uuid>, now: nat, failing: set<Uuid>)
      modifies this
      ensures store == ReconciledStore(old(store), reported, now, failing)
    {
      for i := 0 to |reported|
        invariant store == ReconciledStore(old(store), reported[..i], now, failing)
      {
        assert reported[..i + 1][..i] == reported[..i];
        var u := reported[i];
        if u in store && u !in failing {
          store := store[u := Reconciled(store[u], now)];
        }
      }
      assert reported[..|reported|] == reported;
    }
  }

  // ---- Steps and runs ----

  predicate Enabled(s: State, step: Step) {
    match step
    case Start(u, now, saved) => u !in s.used
    case Persist(u, status, now, saved) => u in s.running && (status.Running? || status.Stopping? || status.Failed?)
    case Finish(u, clean, now, saved) => u in s.running
    case RestartDataflow(u, next, now, saved, nextSaved) => u in s.running && next !in s.used
    case _ => true
  }

  function Do(s: State, step: Step): State
    requires Enabled(s, step)
  {
    match step
    case Start(u, now, saved) => Launched(s, u, now, saved)
    case Persist(u, status, now, saved) => Persisted(s, u, status, now, saved)
    case Finish(u, clean, now, saved) =>
      Removed(Persisted(s, u, if clean then Succeeded else Failed, now, saved), u)
    case RestartDataflow(u, next, now, saved, nextSaved) =>
      Launched(Removed(Persisted(s, u, Stopping, now, saved), u), next, now, nextSaved)
    case CoordinatorRestart(now, failing) => State(RecoveredStore(s.store, now, failing), map[], s.used)
    case RecoveryTimeout(now, failing) => s.(store := ExpiredStore(s.store, now, failing))
    case StatusReport(reported, now, failing) => s.(store := ReconciledStore(s.store, reported, now, failing))
  }

  predicate Runs(s: State, steps: seq<Step>)
    decreases |steps|
  {
    steps == [] || (Enabled(s, steps[0]) && Runs(Do(s, steps[0]), steps[1..]))
  }

  function Exec(s: State, steps: seq<Step>): State
    requires Runs(s, steps)
    decreases |steps|
  {
    if steps == [] then s else Exec(Do(s, steps[0]), steps[1..])
  }

  // ---- Invariant ----

  /** A record of a dataflow in memory is at most one write ahead of the
      in-memory counter, and only while it says Running: a status report can
      overtake the counter once and then leaves the record alone. */
  predicate InStep(r: Record, generation: nat) {
    && !r.status.Succeeded? && !r.status.Recovering?
    && r.generation <= generation + if r.status.Running? then 1 else 0
  }

  ghost predicate Inv(s: State) {
    && s.store.Keys <= s.used && s.running.Keys <= s.used
    && forall u :: u in s.store && u in s.running ==> InStep(s.store[u], s.running[u])
  }

  /** What a status report does to one record, listed any number of times. */
  lemma {:induction false} ReconciledRecord(store: Store, reported: seq<Uuid>, now: nat, failing: set<Uuid>, u: Uuid)
    ensures ReconciledStore(store, reported, now, failing).Keys == store.Keys
    ensures u in store ==>
      ReconciledStore(store, reported, now, failing)[u] ==
        if u in reported && u !in failing then Reconciled(store[u], now) else store[u]
  {
    if reported != [] {
      var n := |reported| - 1;
      ReconciledRecord(store, reported[..n], now, failing, u);
      assert reported == reported[..n] + [reported[n]];
    }
  }

  /** One step: the invariant is kept, no record disappears, no stored
      generation decreases, a Succeeded record does not change at all, and
      only a dataflow in memory becomes Succeeded. */
  lemma StepFacts(s: State, step: Step, u: Uuid)
    requires Inv(s) && Enabled(s, step)
    ensures var t := Do(s, step);
      && (u in s.store ==> u in t.store && s.store[u].generation <= t.store[u].generation)
      && (u in s.store && s.store[u].status.Succeeded? ==> t.store[u] == s.store[u])
      && (u in s.used && u !in s.running ==> u !in t.running && u in t.used)
      && (u in s.used && u !in s.running && u in t.store && t.store[u].status.Succeeded? ==>
            u in s.store && s.store[u].status.Succeeded?)
      && (u in t.store && u in t.running ==> InStep(t.store[u], t.running[u]))
      && (u in t.store || u in t.running ==> u in t.used)
  {
    if step.StatusReport? {
      ReconciledRecord(s.store, step.reported, step.now, step.failing, u);
    }
  }

  lemma StepKeeps(s: State, step: Step)
    requires Inv(s) && Enabled(s, step)
    ensures Inv(Do(s, step))
  {
    forall u { StepFacts(s, step, u); }
  }

  const INITIAL := State(map[], map[], {})

  /** Over every run, with restarts, failed writes, reports and timeouts: the
      stored generation of a dataflow never decreases. */
  lemma {:induction false} GenerationNeverDecreases(s: State, steps: seq<Step>, u: Uuid)
    requires Inv(s) && Runs(s, steps) && u in s.store
    ensures u in Exec(s, steps).store && s.store[u].generation <= Exec(s, steps).store[u].generation
    decreases |steps|
  {
    if steps != [] {
      StepKeeps(s, steps[0]);
      StepFacts(s, steps[0], u);
      GenerationNeverDecreases(Do(s, steps[0]), steps[1..], u);
    }
  }

  /** A record that says Succeeded never changes again. */
  lemma {:induction false} SucceededIsFinal(s: State, steps: seq<Step>, u: Uuid)
    requires Inv(s) && Runs(s, steps) && u in s.store && s.store[u].status.Succeeded?
    ensures u in Exec(s, steps).store && Exec(s, steps).store[u] == s.store[u]
    decreases |steps|
  {
    if steps != [] {
      StepKeeps(s, steps[0]);
      StepFacts(s, steps[0], u);
      SucceededIsFinal(Do(s, steps[0]), steps[1..], u);
    }
  }

  /** A dataflow no longer in memory, because the coordinator or the dataflow
      itself was restarted, can never again be recorded as Succeeded. */
  lemma {:induction false} OrphanNeverSucceeds(s: State, steps: seq<Step>, u: Uuid)
    requires Inv(s) && Runs(s, steps) && u in s.used && u !in s.running
    requires u in s.store ==> !s.store[u].status.Succeeded?
    ensures u in Exec(s, steps).store ==> !Exec(s, steps).store[u].status.Succeeded?
    decreases |steps|
  {
    if steps != [] {
      StepKeeps(s, steps[0]);
      StepFacts(s, steps[0], u);
      OrphanNeverSucceeds(Do(s, steps[0]), steps[1..], u);
    }
  }

  ghost predicate CanSucceed(s: State, u: Uuid) {
    exists steps :: Runs(s, steps) && IsSucceeded(Exec(s, steps), u)
  }

  predicate IsSucceeded(s: State, u: Uuid) {
    u in s.store && s.store[u].status.Succeeded?
  }

  /** Some continuation has the dataflow recorded as Succeeded if and only if it
      is so recorded already, is in memory, or has not been started yet. */
  lemma SuccessExact(s: State, u: Uuid)
    requires Inv(s)
    ensures CanSucceed(s, u) <==> IsSucceeded(s, u) || u in s.running || u !in s.used
  {
    if IsSucceeded(s, u) {
      assert Runs(s, []) && IsSucceeded(Exec(s, []), u);
    } else if u in s.running {
      OneStep(s, Finish(u, true, 0, true));
      assert IsSucceeded(Exec(s, [Finish(u, true, 0, true)]), u);
    } else if u !in s.used {
      var start, finish := Start(u, 0, true), Finish(u, true, 0, true);
      OneStep(Do(s, start), finish);
      FirstStep(s, start, [finish]);
      assert IsSucceeded(Exec(s, [start] + [finish]), u);
    } else {
      forall steps | Runs(s, steps) ensures !IsSucceeded(Exec(s, steps), u) {
        OrphanNeverSucceeds(s, steps, u);
      }
    }
  }

  /** A dataflow that outlives a coordinator restart cannot be recorded as
      Succeeded any more. */
  lemma OutlivedCannotSucceed()
    ensures var steps := [Start(7, 0, true), CoordinatorRestart(1, {})];
      && Runs(INITIAL, steps) && Exec(INITIAL, steps).store == map[7 := Record(Recovering, 2, 1)]
      && !CanSucceed(Exec(INITIAL, steps), 7)
  {
    var a, b := Start(7, 0, true), CoordinatorRestart(1, {});
    var s1 := Do(INITIAL, a);
    var s2 := Do(s1, b);
    OneStep(s1, b);
    FirstStep(INITIAL, a, [b]);
    assert [a] + [b] == [a, b];
    RunKeeps(INITIAL, [a, b]);
    SuccessExact(s2, 7);
  }

  lemma {:induction false} RunKeeps(s: State, steps: seq<Step>)
    requires Inv(s) && Runs(s, steps)
    ensures Inv(Exec(s, steps))
    decreases |steps|
  {
    if steps != [] {
      StepKeeps(s, steps[0]);
      RunKeeps(Do(s, steps[0]), steps[1..]);
    }
  }

  /** From the empty store, at any two moments of any run. */
  lemma EveryRun(before: seq<Step>, after: seq<Step>, u: Uuid)
    requires Runs(INITIAL, before) && Runs(Exec(INITIAL, before), after) && u in Exec(INITIAL, before).store
    ensures var s, t := Exec(INITIAL, before), Exec(Exec(INITIAL, before), after);
      && u in t.store && s.store[u].generation <= t.store[u].generation
      && (s.store[u].status.Succeeded? ==> t.store[u] == s.store[u] && u !in s.running)
  {
    RunKeeps(INITIAL, before);
    var s := Exec(INITIAL, before);
    GenerationNeverDecreases(s, after, u);
    if s.store[u].status.Succeeded? {
      SucceededIsFinal(s, after, u);
    }
  }

  // ---- When a write repeats the stored generation ----

  /** The step builds a record of `u`, which is in memory afterwards. */
  predicate MakesRecord(step: Step, u: Uuid) {
    || (step.Start? && step.u == u)
    || (step.Persist? && step.u == u)
    || (step.RestartDataflow? && step.next == u)
  }

  predicate Saved(step: Step, u: Uuid)
    requires MakesRecord(step, u)
  {
    if step.RestartDataflow? then step.nextSaved else step.saved
  }

  /** The last record built of `u` in the run was saved. */
  predicate LastSaved(steps: seq<Step>, u: Uuid) {
    steps != [] &&
      var last := steps[|steps| - 1];
      if MakesRecord(last, u) then Saved(last, u) else LastSaved(steps[..|steps| - 1], u)
  }

  /** The step is a status report that moves the record of `u` to Running. */
  predicate MovedByReport(s: State, step: Step, u: Uuid) {
    && step.StatusReport? && u in step.reported && u !in step.failing
    && u in s.store && (s.store[u].status.Pending? || s.store[u].status.Failed?)
  }

  /** The last record built of `u` was saved, and since then a status report
      has moved it from Pending or Failed to Running. */
  ghost predicate Overtaken(steps: seq<Step>, u: Uuid)
    requires Runs(INITIAL, steps)
    decreases |steps|
  {
    steps != [] &&
      var n := |steps| - 1;
      RunsPrefix(INITIAL, steps);
      if MakesRecord(steps[n], u) then false
      else
        || Overtaken(steps[..n], u)
        || (LastSaved(steps[..n], u) && MovedByReport(Exec(INITIAL, steps[..n]), steps[n], u))
  }

  lemma {:induction false} RunsPrefix(s: State, steps: seq<Step>)
    requires Runs(s, steps) && steps != []
    ensures var n := |steps| - 1;
      Runs(s, steps[..n]) && Enabled(Exec(s, steps[..n]), steps[n]) && Exec(s, steps) == Do(Exec(s, steps[..n]), steps[n])
    decreases |steps|
  {
    hide Enabled, Do;
    var n := |steps| - 1;
    if n > 0 {
      RunsPrefix(Do(s, steps[0]), steps[1..]);
      assert steps[1..][..n - 1] == steps[..n][1..];
    } else {
      assert steps[1..] == [];
    }
  }

  /** How far the record is from the counter, by what happened since the last
      record was built. */
  predicate Tracked(r: Record, generation: nat, saved: bool, overtaken: bool) {
    if overtaken then saved && r.generation == generation + 1 && r.status.Running?
    else if saved then r.generation == generation
    else r.generation + (if r.status.Running? then 0 else 1) <= generation
  }

  lemma TrackedStep(s: State, step: Step, u: Uuid, saved: bool, overtaken: bool)
    requires Inv(s) && Enabled(s, step) && u in Do(s, step).running && u in Do(s, step).store
    requires u in s.running && u in s.store ==> Tracked(s.store[u], s.running[u], saved, overtaken)
    ensures var t := Do(s, step);
      && (MakesRecord(step, u) ==> Tracked(t.store[u], t.running[u], Saved(step, u), false))
      && (!MakesRecord(step, u) ==>
            && u in s.running && u in s.store
            && Tracked(t.store[u], t.running[u], saved, overtaken || (saved && MovedByReport(s, step, u))))
  {
    if step.StatusReport? {
      ReconciledRecord(s.store, step.reported, step.now, step.failing, u);
    }
  }

  lemma {:induction false} TrackedRun(steps: seq<Step>, u: Uuid)
    requires Runs(INITIAL, steps)
    ensures var s := Exec(INITIAL, steps);
      u in s.running && u in s.store ==> Tracked(s.store[u], s.running[u], LastSaved(steps, u), Overtaken(steps, u))
    decreases |steps|
  {
    if steps != [] {
      var n := |steps| - 1;
      RunsPrefix(INITIAL, steps);
      TrackedRun(steps[..n], u);
      RunKeeps(INITIAL, steps[..n]);
      var s := Exec(INITIAL, steps[..n]);
      var t := Exec(INITIAL, steps);
      hide Do, Enabled, Exec, Runs, Inv, Tracked;
      if u in t.running && u in t.store {
        TrackedStep(s, steps[n], u, LastSaved(steps[..n], u), Overtaken(steps[..n], u));
      }
    }
  }

  /** In every run the next saved record of a dataflow repeats the stored
      generation, instead of raising it, if and only if a status report has
      overtaken the in-memory counter. */
  lemma PersistStrictExact(steps: seq<Step>, u: Uuid, status: Status, now: nat)
    requires Runs(INITIAL, steps) && u in Exec(INITIAL, steps).running && u in Exec(INITIAL, steps).store
    ensures var s := Exec(INITIAL, steps);
      var t := Persisted(s, u, status, now, true);
      && (t.store[u].generation == s.store[u].generation <==> Overtaken(steps, u))
      && (t.store[u].generation > s.store[u].generation <==> !Overtaken(steps, u))
  {
    hide Runs, Exec, Overtaken, LastSaved;
    TrackedRun(steps, u);
  }

  /** Such a run: start, report, spawn confirmed. */
  lemma GenerationRepeats()
    ensures var steps := [Start(7, 0, true), StatusReport([7], 1, {}), Persist(7, Running, 2, true)];
      && Runs(INITIAL, steps[..2]) && Runs(INITIAL, steps)
      && Exec(INITIAL, steps[..2]).store == map[7 := Record(Running, 2, 1)]
      && Exec(INITIAL, steps).store == map[7 := Record(Running, 2, 2)]
  {
    var a, b, c := Start(7, 0, true), StatusReport([7], 1, {}), Persist(7, Running, 2, true);
    var s1 := Do(INITIAL, a);
    assert [7][..0] == [];
    var s2 := Do(s1, b);
    assert s2.store == map[7 := Record(Running, 2, 1)];
    assert [a, b, c][..2] == [a, b];
    OneStep(s2, c);
    OneStep(s1, b);
    FirstStep(s1, b, [c]);
    FirstStep(INITIAL, a, [b]);
    FirstStep(INITIAL, a, [b, c]);
    assert [a] + [b] == [a, b] && [b] + [c] == [b, c] && [a] + [b, c] == [a, b, c];
    assert Do(s2, c).store == map[7 := Record(Running, 2, 2)];
  }

  lemma OneStep(s: State, step: Step)
    requires Enabled(s, step)
    ensures Runs(s, [step]) && Exec(s, [step]) == Do(s, step)
  {
    assert [step][1..] == [];
  }

  lemma FirstStep(s: State, step: Step, rest: seq<Step>)
    requires Enabled(s, step) && Runs(Do(s, step), rest)
    ensures Runs(s, [step] + rest) && Exec(s, [step] + rest) == Exec(Do(s, step), rest)
  {
    assert ([step] + rest)[1..] == rest;
  }

  // ---- What is in memory and what is on record, told from the steps ----

  predicate Launches(step: Step, u: Uuid) {
    (step.Start? && step.u == u) || (step.RestartDataflow? && step.next == u)
  }

  predicate Forgets(step: Step, u: Uuid) {
    (step.Finish? && step.u == u) || (step.RestartDataflow? && step.u == u) || step.CoordinatorRestart?
  }

  /** The dataflow was launched, and nothing has taken it out of memory since. */
  predicate StillRuns(steps: seq<Step>, u: Uuid) {
    steps != [] &&
      var last := steps[|steps| - 1];
      Launches(last, u) || (!Forgets(last, u) && StillRuns(steps[..|steps| - 1], u))
  }

  /** In every run a dataflow is in memory if and only if it was launched and has
      not finished, been restarted or outlived a coordinator restart since. */
  lemma {:induction false} MemoryExact(steps: seq<Step>, u: Uuid)
    requires Runs(INITIAL, steps)
    ensures u in Exec(INITIAL, steps).running <==> StillRuns(steps, u)
  {
    if steps != [] {
      RunsPrefix(INITIAL, steps);
      MemoryExact(steps[..|steps| - 1], u);
      RunKeeps(INITIAL, steps[..|steps| - 1]);
    }
  }

  predicate CleanFinish(step: Step, u: Uuid) {
    step.Finish? && step.u == u && step.clean && step.saved
  }

  ghost predicate FinishedCleanly(steps: seq<Step>, u: Uuid) {
    exists i :: 0 <= i < |steps| && CleanFinish(steps[i], u)
  }

  lemma SucceedsNow(s: State, step: Step, u: Uuid)
    requires Inv(s) && Enabled(s, step)
    ensures IsSucceeded(Do(s, step), u) <==> IsSucceeded(s, u) || CleanFinish(step, u)
  {
    StepFacts(s, step, u);
    if step.StatusReport? {
      ReconciledRecord(s.store, step.reported, step.now, step.failing, u);
    }
  }

  /** In every run a dataflow is recorded as Succeeded if and only if it finished
      without node errors and that record was saved. */
  lemma {:induction false} SucceededExact(steps: seq<Step>, u: Uuid)
    requires Runs(INITIAL, steps)
    ensures IsSucceeded(Exec(INITIAL, steps), u) <==> FinishedCleanly(steps, u)
  {
    if steps != [] {
      var n := |steps| - 1;
      RunsPrefix(INITIAL, steps);
      SucceededExact(steps[..n], u);
      RunKeeps(INITIAL, steps[..n]);
      SucceedsNow(Exec(INITIAL, steps[..n]), steps[n], u);
      assert forall i :: 0 <= i < n ==> steps[..n][i] == steps[i];
      hide Do, Enabled, Inv;
    }
  }

  /** A saved record says what happened: launched dataflows are Pending, restarted
      ones Stopping, finished ones Succeeded or Failed by their node errors. It
      carries the raised counter and the time. */
  lemma WrittenExact(s: State, step: Step)
    requires Inv(s) && Enabled(s, step)
    ensures var t := Do(s, step);
      match step
      case Start(u, now, saved) => saved ==> u in t.store && t.store[u] == Record(Pending, 1, now)
      case Persist(u, status, now, saved) => saved ==> u in t.store && t.store[u] == Record(status, s.running[u] + 1, now)
      case Finish(u, clean, now, saved) =>
        saved ==> u in t.store && t.store[u] == Record(if clean then Succeeded else Failed, s.running[u] + 1, now)
      case RestartDataflow(u, next, now, saved, nextSaved) =>
        && (saved ==> u in t.store && t.store[u] == Record(Stopping, s.running[u] + 1, now))
        && (nextSaved ==> next in t.store && t.store[next] == Record(Pending, 1, now))
      case _ => true
  {
  }

  /** No other record is touched by such a step, and none at all if unsaved. */
  lemma OthersStand(s: State, step: Step, v: Uuid)
    requires Inv(s) && Enabled(s, step) && v in s.store
    requires step.Start? || step.Persist? || step.Finish? || step.RestartDataflow?
    requires v == step.u ==> !step.saved
    ensures v in Do(s, step).store && Do(s, step).store[v] == s.store[v]
  {
  }

  /** After a coordinator restart whose writes succeed no record claims that its
      dataflow is pending, running or stopping: exactly the unfinished ones say
      Recovering, and the finished ones stand. */
  lemma RestartExact(s: State, now: nat, failing: set<Uuid>, u: Uuid)
    requires Inv(s) && u in s.store
    ensures var t := Do(s, CoordinatorRestart(now, failing));
      && u in t.store && u !in t.running
      && (u in failing ==> t.store[u] == s.store[u])
      && (u !in failing ==>
            && !t.store[u].status.Pending? && !t.store[u].status.Running? && !t.store[u].status.Stopping?
            && (t.store[u] == s.store[u] <==> s.store[u].status.Succeeded? || s.store[u].status.Failed?)
            && (t.store[u] != s.store[u] ==> t.store[u] == Record(Recovering, s.store[u].generation + 1, now)))
  {
  }

  /** After the recovery check no record it could write has been Recovering for
      more than 60 s; those that had are Failed, and nothing else changes. */
  lemma TimeoutExact(s: State, now: nat, failing: set<Uuid>, u: Uuid)
    requires u in s.store
    ensures var t := Do(s, RecoveryTimeout(now, failing));
      && u in t.store && t.running == s.running
      && (u !in failing && t.store[u].status.Recovering? ==> now - t.store[u].updatedAt <= 60_000)
      && (t.store[u] != s.store[u] <==>
            u !in failing && s.store[u].status.Recovering? && now - s.store[u].updatedAt > 60_000)
      && (t.store[u] != s.store[u] ==> t.store[u] == Record(Failed, s.store[u].generation + 1, now))
  {
  }

  /** After a status report every dataflow it lists, as far as it can be written,
      is Running unless it is stopping or succeeded; nothing else changes. */
  lemma ReportExact(s: State, reported: seq<Uuid>, now: nat, failing: set<Uuid>, u: Uuid)
    requires u in s.store
    ensures var t := Do(s, StatusReport(reported, now, failing));
      && u in t.store && t.running == s.running
      && (u in reported && u !in failing ==>
            t.store[u].status.Running? || t.store[u].status.Stopping? || t.store[u].status.Succeeded?)
      && (t.store[u] != s.store[u] ==> t.store[u] == Record(Running, s.store[u].generation + 1, now))
      && (t.store[u] != s.store[u] <==>
            && u in reported && u !in failing
            && !s.store[u].status.Running? && !s.store[u].status.Stopping? && !s.store[u].status.Succeeded?)
  {
    ReconciledRecord(s.store, reported, now, failing, u);
  }
}
