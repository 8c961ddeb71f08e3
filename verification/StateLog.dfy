/** The coordinator's replication log for one running dataflow: appending with
    a hard cap, pruning by the smallest acknowledgement, and the delta a
    reconnecting daemon is sent. */
module StateLog {
  import opened Common
  import opened ParamLog

  const MAX_STATE_LOG_ENTRIES: nat := 10_000

  datatype LogState = LogState(
    sequence: nat,
    log: seq<Entry>,
    daemons: set<DaemonId>,
    acks: map<DaemonId, nat>)

  function Started(daemons: set<DaemonId>): LogState {
    LogState(0, [], daemons, map d | d in daemons :: 0)
  }

  function Append(s: LogState, op: Op): LogState {
    var log := s.log + [Entry(s.sequence + 1, op)];
    s.(sequence := s.sequence + 1,
       log := if |log| > MAX_STATE_LOG_ENTRIES then log[|log| - MAX_STATE_LOG_ENTRIES..] else log)
  }

  /** The entries numbered above `ack`. */
  function Newer(log: seq<Entry>, ack: nat): seq<Entry> {
    if log == [] then []
    else if log[0].sequence > ack then [log[0]] + Newer(log[1..], ack)
    else Newer(log[1..], ack)
  }

  /** The smallest acknowledgement, and 0 when no daemon is tracked. */
  ghost predicate IsMinAck(acks: map<DaemonId, nat>, m: nat) {
    && (acks == map[] ==> m == 0)
    && (acks != map[] ==> exists d :: d in acks && acks[d] == m)
    && forall d :: d in acks ==> m <= acks[d]
  }

  lemma {:induction false} MinAckExists(acks: map<DaemonId, nat>) returns (m: nat)
    ensures IsMinAck(acks, m)
    decreases acks.Keys
  {
    if acks == map[] {
      m := 0;
    } else {
      var d :| d in acks;
      var others := acks - {d};
      var rest := MinAckExists(others);
      m := if others == map[] || acks[d] < rest then acks[d] else rest;
      forall e | e in acks ensures m <= acks[e] {
        if e != d { assert e in others; }
      }
      if m != acks[d] {
        var e :| e in others && others[e] == rest;
        assert acks[e] == m;
      }
    }
  }

  ghost function MinAck(acks: map<DaemonId, nat>): (m: nat)
    ensures IsMinAck(acks, m)
  {
    assert exists m :: IsMinAck(acks, m) by { var m := MinAckExists(acks); }
    var m :| IsMinAck(acks, m); m
  }

  ghost function Prune(s: LogState): LogState {
    s.(log := Newer(s.log, MinAck(s.acks)))
  }

  function AckOf(s: LogState, d: DaemonId): nat {
    if d in s.acks then s.acks[d] else 0
  }

  /** What a daemon that acknowledged `lastAck` has missed; None when the log
      no longer reaches back that far. */
  function Delta(s: LogState, lastAck: nat): Option<seq<Entry>> {
    if s.log == [] then Some([])
    else if lastAck + 1 < s.log[0].sequence then None
    else Some(Newer(s.log, lastAck))
  }

  function Clamped(s: LogState, d: DaemonId, ack: nat): nat {
    var bounded := if ack < s.sequence then ack else s.sequence;
    if bounded < AckOf(s, d) then AckOf(s, d) else bounded
  }

  ghost function Acknowledge(s: LogState, d: DaemonId, ack: nat): LogState {
    if d !in s.daemons then s
    else Prune(s.(acks := s.acks[d := Clamped(s, d, ack)]))
  }

  /** A completed full replay: the acknowledgement jumps to the end and, as
      in the code, nothing is pruned. */
  function FullyReplayed(s: LogState, d: DaemonId): LogState {
    s.(acks := s.acks[d := s.sequence])
  }

  // ---- Invariant over every sequence of operations on the log ----

  function Dropped(s: LogState): int { s.sequence - |s.log| }

  /** The log is the tail of the history; whatever it has dropped was either
      acknowledged by every tracked daemon or pushed out by the cap. */
  ghost predicate LogInv(s: LogState, history: seq<Op>) {
    && s.sequence == |history|
    && |s.log| <= s.sequence && |s.log| <= MAX_STATE_LOG_ENTRIES
    && s.log == Entries(history, Dropped(s), s.sequence)
    && s.daemons <= s.acks.Keys
    && (forall d :: d in s.acks ==> s.acks[d] <= s.sequence)
    && (|s.log| < MAX_STATE_LOG_ENTRIES ==> forall d :: d in s.acks ==> Dropped(s) <= s.acks[d])
  }

  lemma {:induction false} NewerOfEntries(history: seq<Op>, a: nat, b: nat, ack: nat)
    requires a <= b <= |history|
    ensures Newer(Entries(history, a, b), ack)
         == if ack <= a then Entries(history, a, b)
            else if ack <= b then Entries(history, ack, b) else []
    decreases b - a
  {
    if a < b {
      var all := Entries(history, a, b);
      assert all[1..] == Entries(history, a + 1, b);
      NewerOfEntries(history, a + 1, b, ack);
      if ack <= a {
        assert [all[0]] + all[1..] == all;
      }
    }
  }

  lemma StartKeeps(daemons: set<DaemonId>)
    ensures LogInv(Started(daemons), [])
  {
  }

  lemma AppendKeeps(s: LogState, history: seq<Op>, op: Op)
    requires LogInv(s, history)
    ensures LogInv(Append(s, op), history + [op])
  {
    var longer := history + [op];
    assert s.log + [Entry(s.sequence + 1, op)] == Entries(longer, Dropped(s), s.sequence + 1);
  }

  lemma PruneKeeps(s: LogState, history: seq<Op>)
    requires LogInv(s, history)
    ensures LogInv(Prune(s), history)
  {
    hide MinAck, Newer, Entries;
    NewerOfEntries(history, Dropped(s), s.sequence, MinAck(s.acks));
  }

  lemma AcknowledgeKeeps(s: LogState, history: seq<Op>, d: DaemonId, ack: nat)
    requires LogInv(s, history)
    ensures LogInv(Acknowledge(s, d, ack), history)
    ensures forall e :: e in s.acks ==> e in Acknowledge(s, d, ack).acks && s.acks[e] <= Acknowledge(s, d, ack).acks[e]
  {
    if d in s.daemons {
      PruneKeeps(s.(acks := s.acks[d := Clamped(s, d, ack)]), history);
    }
  }

  lemma FullyReplayedKeeps(s: LogState, history: seq<Op>, d: DaemonId)
    requires LogInv(s, history) && d in s.acks
    ensures LogInv(FullyReplayed(s, d), history)
  {
  }

  lemma LeaveKeeps(s: LogState, history: seq<Op>, gone: set<DaemonId>)
    requires LogInv(s, history)
    ensures LogInv(s.(daemons := s.daemons - gone), history)
  {
  }

  /** For every tracked daemon: the delta is refused exactly when the daemon
      is more than 10 000 operations behind, and otherwise it is exactly the
      operations the daemon has not acknowledged. */
  lemma DeltaExact(s: LogState, history: seq<Op>, d: DaemonId)
    requires LogInv(s, history) && d in s.acks
    ensures Delta(s, s.acks[d]).None? <==> s.sequence - s.acks[d] > MAX_STATE_LOG_ENTRIES
    ensures Delta(s, s.acks[d]).Some? ==> Delta(s, s.acks[d]).value == Entries(history, s.acks[d], s.sequence)
  {
    NewerOfEntries(history, Dropped(s), s.sequence, s.acks[d]);
  }

  /** The empty-log answer is given only when nobody is behind. */
  lemma EmptyLogMeansCaughtUp(s: LogState, history: seq<Op>)
    requires LogInv(s, history) && s.log == []
    ensures forall d :: d in s.acks ==> s.acks[d] == s.sequence
  {
  }

  /** Pruning by acknowledgements takes nothing any tracked daemon still
      needs; only the cap does. */
  lemma PruneTakesOnlyAcknowledged(s: LogState, history: seq<Op>, d: DaemonId, e: Entry)
    requires LogInv(s, history) && d in s.acks && e in s.log && e.sequence > s.acks[d]
    ensures e in Prune(s).log
  {
    PruneExact(s, MinAck(s.acks), e);
  }

  lemma {:induction false} NewerKeeps(log: seq<Entry>, ack: nat, e: Entry)
    ensures e in Newer(log, ack) <==> e in log && e.sequence > ack
  {
    if log != [] {
      assert log == [log[0]] + log[1..];
      NewerKeeps(log[1..], ack, e);
    }
  }

  /** Pruning leaves exactly the entries numbered above the smallest
      acknowledgement, and nothing but the log changes. */
  lemma PruneExact(s: LogState, m: nat, e: Entry)
    requires IsMinAck(s.acks, m)
    ensures e in Prune(s).log <==> e in s.log && e.sequence > m
    ensures Prune(s) == s.(log := Prune(s).log)
  {
    MinAckUnique(s.acks, m, MinAck(s.acks));
    NewerKeeps(s.log, m, e);
  }

  lemma MinAckUnique(acks: map<DaemonId, nat>, a: nat, b: nat)
    requires IsMinAck(acks, a) && IsMinAck(acks, b)
    ensures a == b
  {
  }

  /** An append adds the next number and takes away exactly the entries more than
      10 000 operations old. */
  lemma AppendExact(s: LogState, history: seq<Op>, op: Op, e: Entry)
    requires LogInv(s, history)
    ensures e in Append(s, op).log <==>
      (e in s.log || e == Entry(s.sequence + 1, op)) && e.sequence + MAX_STATE_LOG_ENTRIES > s.sequence + 1
    ensures Append(s, op) == s.(sequence := s.sequence + 1, log := Append(s, op).log)
  {
    var all := s.log + [Entry(s.sequence + 1, op)];
    assert forall i :: 0 <= i < |all| ==> all[i].sequence == s.sequence + 2 - |all| + i;
    hide LogInv, Entries;
    TailExact(all, s.sequence + 2 - |all|, |all| - |Append(s, op).log|, e);
  }

  lemma TailExact(all: seq<Entry>, first: int, k: nat, e: Entry)
    requires k <= |all| && forall i :: 0 <= i < |all| ==> all[i].sequence == first + i
    ensures e in all[k..] <==> e in all && e.sequence >= first + k
  {
    if e in all {
      var i :| 0 <= i < |all| && all[i] == e;
      assert i >= k ==> all[k..][i - k] == e;
    }
  }

  /** Once every tracked daemon stands at the end an acknowledgement empties the
      log. */
  lemma CaughtUpEmptiesLog(s: LogState, history: seq<Op>, d: DaemonId, ack: nat)
    requires LogInv(s, history) && d in s.daemons
    requires forall e :: e in Acknowledge(s, d, ack).acks ==> Acknowledge(s, d, ack).acks[e] == s.sequence
    ensures Acknowledge(s, d, ack).log == []
  {
    var t := s.(acks := s.acks[d := Clamped(s, d, ack)]);
    var after := Acknowledge(s, d, ack);
    assert d in t.acks && IsMinAck(t.acks, s.sequence);
    forall e ensures e !in after.log {
      PruneExact(t, s.sequence, e);
    }
    HasEntry(after.log);
  }

  lemma HasEntry(log: seq<Entry>)
    ensures log == [] || exists e :: e in log
  {
    if log != [] {
      assert log[0] in log;
    }
  }

  // ---- The mutable record of the coordinator ----

  class RunningDataflow {
    var stateLogSequence: nat
    var stateLog: seq<Entry>
    var daemons: set<DaemonId>
    var daemonAckSequence: map<DaemonId, nat>

    function State(): LogState
      reads this
    {
      LogState(stateLogSequence, stateLog, daemons, daemonAckSequence)
    }

    constructor (daemons: set<DaemonId>)
      ensures State() == Started(daemons)
    {
      stateLogSequence, stateLog := 0, [];
      this.daemons := daemons;
      daemonAckSequence := map d | d in daemons :: 0;
    }

    method AppendStateLog(op: Op, ghost history: seq<Op>)
      requires LogInv(State(), history)
      modifies this
      ensures State() == Append(old(State()), op)
      ensures LogInv(State(), history + [op])
    {
      AppendKeeps(State(), history, op);
      stateLogSequence := stateLogSequence + 1;
      stateLog := stateLog + [Entry(stateLogSequence, op)];
      if |stateLog| > MAX_STATE_LOG_ENTRIES {
        var drainCount := |stateLog| - MAX_STATE_LOG_ENTRIES;
        stateLog := stateLog[drainCount..];
      }
    }

    /** `values().min().unwrap_or(0)`, in whatever order the map is walked. */
    method SmallestAck() returns (m: nat)
      ensures m == MinAck(daemonAckSequence)
    {
      m := 0;
      var rest := daemonAckSequence.Keys;
      if rest != {} {
        var first :| first in rest;
        m, rest := daemonAckSequence[first], rest - {first};
        while rest != {}
          invariant rest <= daemonAckSequence.Keys
          invariant exists d :: d in daemonAckSequence && daemonAckSequence[d] == m
          invariant forall d :: d in daemonAckSequence && d !in rest ==> m <= daemonAckSequence[d]
        {
          var d :| d in rest;
          if daemonAckSequence[d] < m {
            m := daemonAckSequence[d];
          }
          rest := rest - {d};
        }
      }
      assert IsMinAck(daemonAckSequence, m);
    }

    method PruneStateLog(ghost history: seq<Op>)
      requires LogInv(State(), history)
      modifies this`stateLog
      ensures State() == Prune(old(State()))
      ensures LogInv(State(), history)
    {
      PruneKeeps(State(), history);
      var minAck := SmallestAck();
      stateLog := Newer(stateLog, minAck);
    }

    /** The acknowledgement arm of the event loop. */
    method HandleStateCatchUpAck(daemonId: DaemonId, ackSequence: nat, ghost history: seq<Op>)
      requires LogInv(State(), history)
      modifies this
      ensures State() == Acknowledge(old(State()), daemonId, ackSequence)
      ensures LogInv(State(), history)
      ensures forall e :: e in old(daemonAckSequence) ==>
        e in daemonAckSequence && old(daemonAckSequence[e]) <= daemonAckSequence[e] <= stateLogSequence
    {
      AcknowledgeKeeps(State(), history, daemonId, ackSequence);
      if daemonId in daemons {
        daemonAckSequence := daemonAckSequence[daemonId := Clamped(State(), daemonId, ackSequence)];
        PruneStateLog(history);
      }
    }
  }
}
