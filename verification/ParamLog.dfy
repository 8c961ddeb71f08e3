/** Runtime parameters of one dataflow, the operations on them, and what it
    means for a daemon to hold the right values up to some point of the
    operation history. */
module ParamLog {
  import opened Common

  datatype Key = Key(node: NodeId, name: string)

  type Params = map<Key, string>

  datatype Op =
    | SetParam(target: Key, value: string)
    | DeleteParam(target: Key)

  /** A log entry: operation number `sequence` (counting from 1). */
  datatype Entry = Entry(sequence: nat, op: Op)

  function Apply(params: Params, op: Op): Params {
    match op
    case SetParam(k, v) => params[k := v]
    case DeleteParam(k) => params - {k}
  }

  function Fold(params: Params, ops: seq<Op>): Params {
    if ops == [] then params
    else Apply(Fold(params, ops[..|ops| - 1]), ops[|ops| - 1])
  }

  function Lookup(params: Params, k: Key): Option<string> {
    if k in params then Some(params[k]) else None
  }

  ghost predicate Touched(ops: seq<Op>, k: Key) {
    exists i :: 0 <= i < |ops| && ops[i].target == k
  }

  function Ops(entries: seq<Entry>): (ops: seq<Op>)
    ensures |ops| == |entries|
    ensures forall i :: 0 <= i < |entries| ==> ops[i] == entries[i].op
  {
    seq(|entries|, i requires 0 <= i < |entries| => entries[i].op)
  }

  /** The entries that record operations a+1 .. b of `history`. */
  function Entries(history: seq<Op>, a: nat, b: nat): (entries: seq<Entry>)
    requires a <= b <= |history|
    ensures |entries| == b - a
    ensures forall i :: 0 <= i < b - a ==> entries[i] == Entry(a + i + 1, history[a + i])
  {
    seq(b - a, i requires 0 <= i < b - a => Entry(a + i + 1, history[a + i]))
  }

  lemma OpsOfEntries(history: seq<Op>, a: nat, b: nat, m: nat)
    requires a <= m <= b <= |history|
    ensures Ops(Entries(history, a, b)[..m - a]) == history[a..m]
  {
  }

  lemma {:induction false} FoldConcat(params: Params, left: seq<Op>, right: seq<Op>)
    ensures Fold(params, left + right) == Fold(Fold(params, left), right)
    decreases |right|
  {
    if right == [] {
      assert left + right == left;
    } else {
      var n := |right| - 1;
      assert (left + right)[..|left + right| - 1] == left + right[..n];
      FoldConcat(params, left, right[..n]);
    }
  }

  lemma {:induction false} FoldUntouched(params: Params, ops: seq<Op>, k: Key)
    requires !Touched(ops, k)
    ensures Lookup(Fold(params, ops), k) == Lookup(params, k)
  {
    if ops != [] {
      var n := |ops| - 1;
      assert forall i :: 0 <= i < n ==> ops[..n][i] == ops[i];
      assert ops[n].target != k;
      FoldUntouched(params, ops[..n], k);
    }
  }

  /** A key some operation wrote no longer depends on where the fold began. */
  lemma {:induction false} FoldTouched(params: Params, other: Params, ops: seq<Op>, k: Key)
    requires Touched(ops, k)
    ensures Lookup(Fold(params, ops), k) == Lookup(Fold(other, ops), k)
  {
    var n := |ops| - 1;
    if ops[n].target != k {
      var i :| 0 <= i < |ops| && ops[i].target == k;
      assert ops[..n][i] == ops[i];
      FoldTouched(params, other, ops[..n], k);
    }
  }

  /** `view` holds, for every key of `nodes` that no operation after number
      `level` touches, the value the whole history gives it. Keys touched
      after `level` may hold anything: a forward may have been lost, repeated
      or half done. */
  ghost predicate AgreesFrom(view: Params, history: seq<Op>, level: nat, nodes: set<NodeId>)
    requires level <= |history|
  {
    forall k: Key :: k.node in nodes && !Touched(history[level..], k)
      ==> Lookup(view, k) == Lookup(Fold(map[], history), k)
  }

  /** The values for the keys of `nodes` are the same on both sides. */
  ghost predicate SameOn(nodes: set<NodeId>, view: Params, other: Params) {
    forall k: Key :: k.node in nodes ==> Lookup(view, k) == Lookup(other, k)
  }

  lemma TouchedLater(history: seq<Op>, a: nat, b: nat, k: Key)
    requires a <= b <= |history|
    ensures Touched(history[a..], k) <==> Touched(history[a..b], k) || Touched(history[b..], k)
  {
  }

  /** A key untouched after `level` has its final value at `level` already. */
  lemma SettledKey(history: seq<Op>, level: nat, k: Key)
    requires level <= |history| && !Touched(history[level..], k)
    ensures Lookup(Fold(map[], history), k) == Lookup(Fold(map[], history[..level]), k)
  {
    assert history[..level] + history[level..] == history;
    FoldConcat(map[], history[..level], history[level..]);
    FoldUntouched(Fold(map[], history[..level]), history[level..], k);
  }

  /** A key written in a..m ends up, on any view, with its value at `m`. */
  lemma DeliveredKey(view: Params, history: seq<Op>, a: nat, m: nat, k: Key)
    requires a <= m <= |history| && Touched(history[a..m], k)
    ensures Lookup(Fold(view, history[a..m]), k) == Lookup(Fold(map[], history[..m]), k)
  {
    assert history[..a] + history[a..m] == history[..m];
    FoldConcat(map[], history[..a], history[a..m]);
    FoldTouched(view, Fold(map[], history[..a]), history[a..m], k);
  }

  lemma AgreeingAtTheEnd(view: Params, history: seq<Op>, nodes: set<NodeId>)
    ensures AgreesFrom(view, history, |history|, nodes) <==> SameOn(nodes, view, Fold(map[], history))
  {
  }

  lemma AgreesAfterAppend(view: Params, history: seq<Op>, level: nat, nodes: set<NodeId>, op: Op)
    requires level <= |history| && AgreesFrom(view, history, level, nodes)
    ensures AgreesFrom(view, history + [op], level, nodes)
  {
  }

  /** Agreement from a level is agreement from every lower one. */
  lemma AgreesBelow(view: Params, history: seq<Op>, lower: nat, level: nat, nodes: set<NodeId>)
    requires lower <= level <= |history| && AgreesFrom(view, history, level, nodes)
    ensures AgreesFrom(view, history, lower, nodes)
  {
    forall k: Key | k.node in nodes && !Touched(history[lower..], k)
      ensures Lookup(view, k) == Lookup(Fold(map[], history), k)
    {
      TouchedLater(history, lower, level, k);
    }
  }

  /** The change leaves a key that nothing after `level` writes with a value
      other than its last one. */
  ghost predicate Spoils(history: seq<Op>, level: nat, nodes: set<NodeId>, op: Op)
    requires level <= |history|
  {
    && op.target.node in nodes
    && !Touched(history[level..], op.target)
    && Lookup(Apply(map[], op), op.target) != Lookup(Fold(map[], history), op.target)
  }

  lemma ChangeExact(view: Params, history: seq<Op>, level: nat, nodes: set<NodeId>, op: Op)
    requires level <= |history| && AgreesFrom(view, history, level, nodes)
    ensures AgreesFrom(Apply(view, op), history, level, nodes) <==> !Spoils(history, level, nodes, op)
  {
    assert forall k: Key :: k != op.target ==> Lookup(Apply(view, op), k) == Lookup(view, k);
    assert Lookup(Apply(view, op), op.target) == Lookup(Apply(map[], op), op.target);
  }

  /** An operation numbered above `level` may arrive at any time, any number
      of times, without costing agreement from `level`. */
  lemma AgreesAfterLate(view: Params, history: seq<Op>, level: nat, nodes: set<NodeId>, i: nat)
    requires level <= i < |history| && AgreesFrom(view, history, level, nodes)
    ensures AgreesFrom(Apply(view, history[i]), history, level, nodes)
  {
  }

  /** So may the value a key had at any number from `level` on. */
  lemma AgreesAfterRestore(view: Params, history: seq<Op>, level: nat, nodes: set<NodeId>, at: nat, k: Key, v: string)
    requires level <= at <= |history| && AgreesFrom(view, history, level, nodes)
    requires Lookup(Fold(map[], history[..at]), k) == Some(v)
    ensures AgreesFrom(Apply(view, SetParam(k, v)), history, level, nodes)
  {
    if !Touched(history[level..], k) {
      TouchedLater(history, level, at, k);
      SettledKey(history, at, k);
    }
  }

  /** Applying operations a+1 .. m to a view that agrees from some level at or
      above `a` leaves a view that agrees from `m`: above the old level when
      the delivery reaches it, and only from `m` when it stops short. */
  lemma AgreesAfterDelivery(view: Params, history: seq<Op>, level: nat, nodes: set<NodeId>, a: nat, m: nat)
    requires a <= level <= |history| && a <= m <= |history|
    requires AgreesFrom(view, history, level, nodes)
    ensures AgreesFrom(Fold(view, history[a..m]), history, m, nodes)
  {
    var after := Fold(view, history[a..m]);
    forall k: Key | k.node in nodes && !Touched(history[m..], k)
      ensures Lookup(after, k) == Lookup(Fold(map[], history), k)
    {
      SettledKey(history, m, k);
      if Touched(history[a..m], k) {
        DeliveredKey(view, history, a, m, k);
      } else {
        FoldUntouched(view, history[a..m], k);
        TouchedLater(history, a, m, k);
        TouchedLater(history, a, level, k);
      }
    }
  }

  /** Applying operations that all lie above the level keeps the level. */
  lemma AgreesAfterGap(view: Params, history: seq<Op>, level: nat, nodes: set<NodeId>, a: nat, m: nat)
    requires level <= a <= m <= |history|
    requires AgreesFrom(view, history, level, nodes)
    ensures AgreesFrom(Fold(view, history[a..m]), history, level, nodes)
  {
    forall k: Key | k.node in nodes && !Touched(history[level..], k)
      ensures Lookup(Fold(view, history[a..m]), k) == Lookup(Fold(map[], history), k)
    {
      TouchedLater(history, level, a, k);
      TouchedLater(history, a, m, k);
      FoldUntouched(view, history[a..m], k);
    }
  }

  /** The whole missing suffix brings the view to the whole history. */
  lemma CatchUpConverges(view: Params, history: seq<Op>, a: nat, nodes: set<NodeId>)
    requires a <= |history| && AgreesFrom(view, history, a, nodes)
    ensures SameOn(nodes, Fold(view, Ops(Entries(history, a, |history|))), Fold(map[], history))
  {
    var ops := Ops(Entries(history, a, |history|));
    OpsOfEntries(history, a, |history|, |history|);
    assert Entries(history, a, |history|)[..|history| - a] == Entries(history, a, |history|);
    assert ops == history[a..|history|];
    AgreesAfterDelivery(view, history, a, nodes, a, |history|);
    AgreeingAtTheEnd(Fold(view, ops), history, nodes);
  }

  /** Keys that a redelivery of a+1 .. m winds back although nothing after
      `level` will write them again. */
  ghost predicate RewoundKey(history: seq<Op>, a: nat, m: nat, level: nat, nodes: set<NodeId>, k: Key)
    requires a <= m <= level <= |history|
  {
    && k.node in nodes
    && Touched(history[a..m], k)
    && !Touched(history[level..], k)
    && Lookup(Fold(map[], history[..m]), k) != Lookup(Fold(map[], history[..level]), k)
  }

  /** A second delivery that stops short of the level already reached keeps
      that level exactly when it rewinds no key. */
  lemma RedeliveryExact(view: Params, history: seq<Op>, level: nat, nodes: set<NodeId>, a: nat, m: nat)
    requires a <= m <= level <= |history|
    requires AgreesFrom(view, history, level, nodes)
    ensures AgreesFrom(Fold(view, history[a..m]), history, level, nodes)
       <==> !exists k :: RewoundKey(history, a, m, level, nodes, k)
  {
    var after := Fold(view, history[a..m]);
    forall k: Key | k.node in nodes && !Touched(history[level..], k)
      ensures Lookup(after, k) == Lookup(Fold(map[], history), k) <==> !RewoundKey(history, a, m, level, nodes, k)
    {
      SettledKey(history, level, k);
      if Touched(history[a..m], k) {
        DeliveredKey(view, history, a, m, k);
      } else {
        FoldUntouched(view, history[a..m], k);
      }
    }
  }
}
