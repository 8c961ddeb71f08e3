/** The state catch-up protocol between the coordinator and the daemons of one
    dataflow, as a state machine: parameter changes are persisted, logged and
    forwarded; daemons report back and are sent what they missed; messages
    may be lost, and a delivery may stop part-way.

    Channels are first-in first-out per daemon, as one WebSocket connection
    is. A daemon's `view` is what it has handed to its nodes' event channels.
    A `Report` step is a status report that lists the dataflow as running. */
module CatchUp {
  import opened Common
  import opened ParamLog
  import opened StateLog

  /** `Live` carries the operation's number, and `Restore` the number of
      operations there were when it was sent, for the proof only; to the daemon
      both are a single parameter change. */
  datatype Message =
    | Live(entry: Entry)
    | Restore(at: nat, item: Item)
    | CatchUp(entries: seq<Entry>)

  /** What became of one replayed parameter that is no longer on its way:
      applied and confirmed, not applied, or applied while the confirmation was
      late, lost or unreadable. */
  datatype Reply = Confirmed | NotApplied | Unheard

  type Item = (Key, string)

  /** One daemon: what it handed to its nodes, the messages on their way to
      it, the acknowledgements on their way back, and the level its view
      really agrees from. */
  datatype Peer = Peer(view: Params, inbox: seq<Message>, acks: seq<nat>, level: nat)

  datatype System = System(
    df: LogState,
    nodeOf: map<NodeId, DaemonId>,
    store: Params,
    history: seq<Op>,
    peers: map<DaemonId, Peer>)

  datatype Step =
    | Mutate(op: Op, sent: bool)
    | DeliverLive(d: DaemonId, accepted: bool)
    | Report(d: DaemonId, sent: bool)
    | Fallback(d: DaemonId, items: seq<Item>, replies: seq<Reply>)
    | DeliverCatchUp(d: DaemonId, count: nat, ackSent: bool)
    | ReceiveAck(d: DaemonId)
    | LoseMessage(d: DaemonId, i: nat)
    | LoseAck(d: DaemonId, i: nat)
    | Leave(d: DaemonId)

  function Start(nodeOf: map<NodeId, DaemonId>): System {
    var daemons := nodeOf.Values;
    System(Started(daemons), nodeOf, map[], [], map d | d in daemons :: Peer(map[], [], [], 0))
  }

  function Nodes(s: System, d: DaemonId): set<NodeId> {
    set n | n in s.nodeOf && s.nodeOf[n] == d
  }

  // ---- Daemon side: applying a catch-up message ----

  /** How many leading entries the daemon hands over: it stops at the first
      one whose node has no channel here or whose channel refuses it. */
  function Deliverable(entries: seq<Entry>, channels: set<NodeId>, room: seq<bool>): (n: nat)
    requires |room| == |entries|
    ensures n <= |entries|
    ensures forall i :: 0 <= i < n ==> entries[i].op.target.node in channels && room[i]
    ensures n < |entries| ==> entries[n].op.target.node !in channels || !room[n]
  {
    if entries == [] || entries[0].op.target.node !in channels || !room[0] then 0
    else 1 + Deliverable(entries[1..], channels, room[1..])
  }

  /** The number of the last entry handed over, 0 for none, and the view then. */
  function Applied(entries: seq<Entry>, channels: set<NodeId>, room: seq<bool>, view: Params): (nat, Params)
    requires |room| == |entries|
  {
    var n := Deliverable(entries, channels, room);
    (if n == 0 then 0 else entries[n - 1].sequence, Fold(view, Ops(entries[..n])))
  }

  /** The daemon's loop, on the event channels `channels` of which entry `i`
      finds room when `room[i]`. */
  method ApplyStateCatchUpEntries(entries: seq<Entry>, channels: set<NodeId>, room: seq<bool>, view: Params)
    returns (appliedThrough: nat, after: Params)
    requires |room| == |entries|
    ensures (appliedThrough, after) == Applied(entries, channels, room, view)
  {
    appliedThrough, after := 0, view;
    var i := 0;
    assert Ops(entries[..0]) == [];
    while i < |entries|
      invariant 0 <= i <= |entries|
      invariant forall j :: 0 <= j < i ==> entries[j].op.target.node in channels && room[j]
      invariant after == Fold(view, Ops(entries[..i]))
      invariant appliedThrough == if i == 0 then 0 else entries[i - 1].sequence
    {
      if entries[i].op.target.node !in channels || !room[i] {
        break;
      }
      assert Ops(entries[..i + 1])[..i] == Ops(entries[..i]);
      after := Apply(after, entries[i].op);
      appliedThrough := entries[i].sequence;
      i := i + 1;
    }
  }

  /** A single change, on the event channels `channels` of which the one for its
      node has room when `room`. */
  method DeliverParamUpdate(op: Op, channels: set<NodeId>, room: bool, view: Params) returns (ok: bool, after: Params)
    ensures ok <==> op.target.node in channels && room
    ensures forall k: Key :: k != op.target || !ok ==> Lookup(after, k) == Lookup(view, k)
    ensures ok ==> Lookup(after, op.target) == if op.SetParam? then Some(op.value) else None
  {
    if op.target.node !in channels || !room {
      return false, view;
    }
    ok, after := true, Apply(view, op);
  }

  // ---- Coordinator side: full replay of the persisted parameters ----

  function ReplayView(view: Params, items: seq<Item>, replies: seq<Reply>): Params
    requires |replies| == |items|
  {
    if items == [] then view
    else
      var n := |items| - 1;
      var before := ReplayView(view, items[..n], replies[..n]);
      if replies[n].NotApplied? then before else before[items[n].0 := items[n].1]
  }

  function Failures(replies: seq<Reply>): nat {
    if replies == [] then 0
    else Failures(replies[..|replies| - 1]) + if replies[|replies| - 1].Confirmed? then 0 else 1
  }

  /** `items` lists the persisted parameters of `nodes`, all of them. */
  ghost predicate Enumerates(items: seq<Item>, store: Params, nodes: set<NodeId>) {
    && (forall i :: 0 <= i < |items| ==>
          items[i].0 in store && items[i].0.node in nodes && items[i].1 == store[items[i].0])
    && (forall k :: k in store && k.node in nodes ==> exists i :: 0 <= i < |items| && items[i].0 == k)
  }

  /** The replay loop; `replies` is what the connection answers. */
  method ReplayPersistedParams(items: seq<Item>, replies: seq<Reply>, view: Params)
    returns (attempted: nat, failed: nat, after: Params)
    requires |replies| == |items|
    ensures attempted == |items| && failed == Failures(replies)
    ensures after == ReplayView(view, items, replies)
  {
    attempted, failed, after := 0, 0, view;
    for i := 0 to |items|
      invariant attempted == i
      invariant failed == Failures(replies[..i])
      invariant after == ReplayView(view, items[..i], replies[..i])
    {
      attempted := attempted + 1;
      assert items[..i + 1][..i] == items[..i] && replies[..i + 1][..i] == replies[..i];
      if !replies[i].NotApplied? {
        after := after[items[i].0 := items[i].1];
      }
      if !replies[i].Confirmed? {
        failed := failed + 1;
      }
    }
    assert items[..|items|] == items && replies[..|items|] == replies;
  }

  lemma {:induction false} NoFailures(replies: seq<Reply>)
    requires Failures(replies) == 0
    ensures forall i :: 0 <= i < |replies| ==> replies[i].Confirmed?
  {
    if replies != [] {
      NoFailures(replies[..|replies| - 1]);
      assert forall i :: 0 <= i < |replies| - 1 ==> replies[..|replies| - 1][i] == replies[i];
    }
  }

  /** A key the replay does not list keeps its value; a listed key either
      keeps it or takes the persisted one, and takes it when confirmed. */
  lemma {:induction false} ReplayedKey(view: Params, items: seq<Item>, replies: seq<Reply>, store: Params, k: Key)
    requires |replies| == |items|
    requires forall i :: 0 <= i < |items| ==> items[i].0 in store && items[i].1 == store[items[i].0]
    ensures var after := ReplayView(view, items, replies);
      && (Lookup(after, k) == Lookup(view, k) || (k in store && Lookup(after, k) == Some(store[k])))
      && ((forall i :: 0 <= i < |items| ==> items[i].0 != k) ==> Lookup(after, k) == Lookup(view, k))
      && ((exists i :: 0 <= i < |items| && items[i].0 == k && !replies[i].NotApplied?)
            ==> k in store && Lookup(after, k) == Some(store[k]))
  {
    if items != [] {
      var n := |items| - 1;
      ReplayedKey(view, items[..n], replies[..n], store, k);
      assert forall i :: 0 <= i < n ==> items[..n][i] == items[i] && replies[..n][i] == replies[i];
    }
  }

  /** The daemon holds a value for a key that is persisted no more. */
  ghost predicate HoldsStaleKey(view: Params, store: Params, nodes: set<NodeId>) {
    exists k :: k in view && k.node in nodes && k !in store
  }

  /** A replay without failures makes the daemon agree with the store on every
      persisted key of its nodes; it agrees on all their keys exactly when it
      held no key that has been deleted. */
  lemma ReplayExact(view: Params, items: seq<Item>, replies: seq<Reply>, store: Params, nodes: set<NodeId>)
    requires |replies| == |items| && Enumerates(items, store, nodes) && Failures(replies) == 0
    ensures forall k :: k in store && k.node in nodes ==> Lookup(ReplayView(view, items, replies), k) == Some(store[k])
    ensures SameOn(nodes, ReplayView(view, items, replies), store) <==> !HoldsStaleKey(view, store, nodes)
  {
    var after := ReplayView(view, items, replies);
    NoFailures(replies);
    forall k: Key | k.node in nodes
      ensures k in store ==> Lookup(after, k) == Some(store[k])
      ensures k !in store ==> Lookup(after, k) == Lookup(view, k)
    {
      ReplayedKey(view, items, replies, store, k);
    }
    if HoldsStaleKey(view, store, nodes) {
      var k :| k in view && k.node in nodes && k !in store;
      assert Lookup(after, k) != Lookup(store, k);
    }
  }

  /** Replaying, however it goes, never costs the agreement already there. */
  lemma ReplayKeepsLevel(view: Params, items: seq<Item>, replies: seq<Reply>, history: seq<Op>, level: nat, nodes: set<NodeId>)
    requires |replies| == |items| && level <= |history| && AgreesFrom(view, history, level, nodes)
    requires forall i :: 0 <= i < |items| ==> Lookup(Fold(map[], history), items[i].0) == Some(items[i].1)
    ensures AgreesFrom(ReplayView(view, items, replies), history, level, nodes)
  {
  }

  // ---- Steps ----

  ghost predicate Enabled(s: System, step: Step) {
    match step
    case Mutate(op, sent) => op.target.node in s.nodeOf && s.nodeOf[op.target.node] in s.peers
    case DeliverLive(d, accepted) => d in s.peers && s.peers[d].inbox != [] && !s.peers[d].inbox[0].CatchUp?
    case Report(d, sent) =>
      && d in s.peers && d in s.df.daemons && AckOf(s.df, d) < s.df.sequence
      && Delta(s.df, AckOf(s.df, d)).Some?
    case Fallback(d, items, replies) =>
      && d in s.peers && d in s.df.daemons && AckOf(s.df, d) < s.df.sequence
      && Delta(s.df, AckOf(s.df, d)).None?
      && |replies| <= |items| && Enumerates(items, s.store, Nodes(s, d))
      // messages are handled in order, so after one of these nothing older is queued
      && (replies == [] || s.peers[d].inbox == [])
    case DeliverCatchUp(d, count, ackSent) =>
      && d in s.peers && s.peers[d].inbox != [] && s.peers[d].inbox[0].CatchUp?
      && count <= |s.peers[d].inbox[0].entries|
      // channels exist for local nodes only
      && forall i :: 0 <= i < count ==> s.peers[d].inbox[0].entries[i].op.target.node in Nodes(s, d)
    case ReceiveAck(d) => d in s.peers && s.peers[d].acks != []
    case LoseMessage(d, i) => d in s.peers && i < |s.peers[d].inbox|
    case LoseAck(d, i) => d in s.peers && i < |s.peers[d].acks|
    case Leave(d) => true
  }

  function Queued(p: Peer, sent: bool, m: Message): Peer {
    if sent then p.(inbox := p.inbox + [m]) else p
  }

  function Change(m: Message): Op
    requires !m.CatchUp?
  {
    if m.Live? then m.entry.op else SetParam(m.item.0, m.item.1)
  }

  function TakeLive(p: Peer, accepted: bool): Peer
    requires p.inbox != [] && !p.inbox[0].CatchUp?
  {
    var rest := p.(inbox := p.inbox[1..]);
    if accepted then rest.(view := Apply(p.view, Change(p.inbox[0]))) else rest
  }

  /** A delivery of operations a+1 .. m that stops short of `level` and winds
      some settled key back to an older value. */
  ghost predicate Rewinds(history: seq<Op>, nodes: set<NodeId>, level: nat, a: nat, m: nat) {
    a <= m < level <= |history| && exists k :: RewoundKey(history, a, m, level, nodes, k)
  }

  /** From where the view agrees after operations a+1 .. m were handed over. */
  ghost function LevelAfter(history: seq<Op>, nodes: set<NodeId>, level: nat, a: nat, m: nat): nat {
    if a > level || (m < level && !Rewinds(history, nodes, level, a, m)) then level else m
  }

  /** The first `count` entries are handed over and the last of them is
      acknowledged. */
  ghost function TakeCatchUp(p: Peer, count: nat, ackSent: bool, history: seq<Op>, nodes: set<NodeId>): Peer
    requires p.inbox != [] && p.inbox[0].CatchUp? && count <= |p.inbox[0].entries|
  {
    var entries := p.inbox[0].entries;
    if count == 0 || entries[0].sequence == 0 then p.(inbox := p.inbox[1..])
    else
      var last := entries[count - 1].sequence;
      Peer(Fold(p.view, Ops(entries[..count])), p.inbox[1..],
           if ackSent then p.acks + [last] else p.acks,
           LevelAfter(history, nodes, p.level, entries[0].sequence - 1, last))
  }

  function Restores(items: seq<Item>, at: nat): (messages: seq<Message>)
    ensures |messages| == |items| && forall i :: 0 <= i < |items| ==> messages[i] == Restore(at, items[i])
  {
    seq(|items|, i requires 0 <= i < |items| => Restore(at, items[i]))
  }

  /** Every item was sent and confirmed. */
  predicate Complete(items: seq<Item>, replies: seq<Reply>) {
    |replies| == |items| && Failures(replies) == 0
  }

  /** Items the replay gave up waiting for while they are still on their way
      are queued behind everything else. */
  ghost function TakeReplay(p: Peer, items: seq<Item>, replies: seq<Reply>, history: seq<Op>, store: Params, nodes: set<NodeId>): Peer
    requires |replies| <= |items|
  {
    p.(view := ReplayView(p.view, items[..|replies|], replies),
       inbox := p.inbox + Restores(items[|replies|..], |history|),
       level := if Complete(items, replies) && p.inbox == [] && !HoldsStaleKey(p.view, store, nodes)
                then |history| else p.level)
  }

  ghost function Do(s: System, step: Step): System
    requires Enabled(s, step)
  {
    match step
    case Mutate(op, sent) =>
      var d := s.nodeOf[op.target.node];
      s.(store := Apply(s.store, op), df := Append(s.df, op), history := s.history + [op],
         peers := s.peers[d := Queued(s.peers[d], sent, Live(Entry(s.df.sequence + 1, op)))])
    case DeliverLive(d, accepted) => s.(peers := s.peers[d := TakeLive(s.peers[d], accepted)])
    case Report(d, sent) =>
      var delta := Delta(s.df, AckOf(s.df, d)).value;
      s.(peers := s.peers[d := Queued(s.peers[d], sent && delta != [], CatchUp(delta))])
    case Fallback(d, items, replies) =>
      s.(df := if Complete(items, replies) then FullyReplayed(s.df, d) else s.df,
         peers := s.peers[d := TakeReplay(s.peers[d], items, replies, s.history, s.store, Nodes(s, d))])
    case DeliverCatchUp(d, count, ackSent) =>
      s.(peers := s.peers[d := TakeCatchUp(s.peers[d], count, ackSent, s.history, Nodes(s, d))])
    case ReceiveAck(d) =>
      s.(df := Acknowledge(s.df, d, s.peers[d].acks[0]),
         peers := s.peers[d := s.peers[d].(acks := s.peers[d].acks[1..])])
    case LoseMessage(d, i) => s.(peers := s.peers[d := s.peers[d].(inbox := Without(s.peers[d].inbox, i))])
    case LoseAck(d, i) => s.(peers := s.peers[d := s.peers[d].(acks := Without(s.peers[d].acks, i))])
    case Leave(d) => s.(df := s.df.(daemons := s.df.daemons - {d}))
  }

  /** `steps` can be taken one after the other from `s`. */
  ghost predicate Runs(s: System, steps: seq<Step>)
    decreases |steps|
  {
    steps == [] || (Enabled(s, steps[0]) && Runs(Do(s, steps[0]), steps[1..]))
  }

  ghost function Exec(s: System, steps: seq<Step>): System
    requires Runs(s, steps)
    decreases |steps|
  {
    if steps == [] then s else Exec(Do(s, steps[0]), steps[1..])
  }
}
