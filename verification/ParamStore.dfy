/** The in-memory parameter store: an ordered map from (dataflow, node, name)
    to a value, and the listing of one node's parameters by a range scan.

    The ordered map is kept as its rows in key order. A `string` here is the
    sequence of its UTF-8 bytes, so lengths and order are those of bytes. */
module ParamStore {
  import opened Common
  import opened ParamLog
  import CatchUp

  const MAX_PARAM_KEY_BYTES: nat := 256
  const MAX_PARAM_VALUE_BYTES: nat := 65_536

  datatype StoreKey = StoreKey(dataflow: nat, node: NodeId, name: string)

  type Row = (StoreKey, string)

  // ---- Order ----

  predicate TextLess(a: string, b: string) {
    b != [] && (a == [] || a[0] < b[0] || (a[0] == b[0] && TextLess(a[1..], b[1..])))
  }

  predicate Less(a: StoreKey, b: StoreKey) {
    || a.dataflow < b.dataflow
    || (a.dataflow == b.dataflow && TextLess(a.node, b.node))
    || (a.dataflow == b.dataflow && a.node == b.node && TextLess(a.name, b.name))
  }

  lemma {:induction false} TextOrder(a: string, b: string)
    ensures !(TextLess(a, b) && TextLess(b, a))
    ensures TextLess(a, b) || TextLess(b, a) <==> a != b
  {
    if a != [] && b != [] {
      TextOrder(a[1..], b[1..]);
      assert a[0] == b[0] && a[1..] == b[1..] ==> a == b by {
        assert a == [a[0]] + a[1..] && b == [b[0]] + b[1..];
      }
    }
  }

  /** Text order is alphabetical: a proper prefix comes first, and otherwise the
      first difference decides. */
  ghost predicate Alphabetical(a: string, b: string) {
    exists k :: 0 <= k <= |a| && k <= |b| && DiffersAt(a, b, k)
  }

  predicate DiffersAt(a: string, b: string, k: nat)
    requires k <= |a| && k <= |b|
  {
    a[..k] == b[..k] && k < |b| && (k == |a| || a[k] < b[k])
  }

  lemma {:induction false} TextLessMeans(a: string, b: string)
    ensures TextLess(a, b) <==> Alphabetical(a, b)
  {
    if a == [] || b == [] || a[0] != b[0] {
      assert b != [] && (a == [] || a[0] < b[0]) ==> DiffersAt(a, b, 0);
      assert forall k :: 0 < k <= |a| && k <= |b| ==> a[..k][0] == a[0] && b[..k][0] == b[0];
    } else {
      TextLessMeans(a[1..], b[1..]);
      forall k | 0 <= k <= |a[1..]| && k <= |b[1..]| ensures DiffersAt(a[1..], b[1..], k) <==> DiffersAt(a, b, k + 1) {
        assert a[..k + 1] == [a[0]] + a[1..][..k] && b[..k + 1] == [b[0]] + b[1..][..k];
        assert a[1..][..k] == a[..k + 1][1..] && b[1..][..k] == b[..k + 1][1..];
      }
      if Alphabetical(a, b) {
        var k :| 0 <= k <= |a| && k <= |b| && DiffersAt(a, b, k);
        assert DiffersAt(a[1..], b[1..], k - 1);
      }
    }
  }

  lemma {:induction false} TextTransitive(a: string, b: string, c: string)
    requires TextLess(a, b) && TextLess(b, c)
    ensures TextLess(a, c)
  {
    if a != [] && a[0] == b[0] == c[0] {
      TextTransitive(a[1..], b[1..], c[1..]);
    }
  }

  lemma LessIsStrictTotal(a: StoreKey, b: StoreKey)
    ensures !(Less(a, b) && Less(b, a))
    ensures Less(a, b) || Less(b, a) <==> a != b
  {
    TextOrder(a.node, b.node);
    TextOrder(a.name, b.name);
  }

  lemma LessTransitive(a: StoreKey, b: StoreKey, c: StoreKey)
    requires Less(a, b) && Less(b, c)
    ensures Less(a, c)
  {
    if TextLess(a.node, b.node) && TextLess(b.node, c.node) { TextTransitive(a.node, b.node, c.node); }
    if TextLess(a.name, b.name) && TextLess(b.name, c.name) { TextTransitive(a.name, b.name, c.name); }
  }

  // ---- The ordered map ----

  ghost predicate Sorted(rows: seq<Row>) {
    forall i, j :: 0 <= i < j < |rows| ==> Less(rows[i].0, rows[j].0)
  }

  ghost function Contents(rows: seq<Row>): map<StoreKey, string> {
    if rows == [] then map[] else Contents(rows[1..])[rows[0].0 := rows[0].1]
  }

  function Inserted(rows: seq<Row>, key: StoreKey, value: string): seq<Row> {
    if rows == [] || Less(key, rows[0].0) then [(key, value)] + rows
    else if rows[0].0 == key then [(key, value)] + rows[1..]
    else [rows[0]] + Inserted(rows[1..], key, value)
  }

  function Removed(rows: seq<Row>, key: StoreKey): seq<Row> {
    if rows == [] then []
    else if rows[0].0 == key then rows[1..]
    else [rows[0]] + Removed(rows[1..], key)
  }

  lemma {:induction false} RowsAreContents(rows: seq<Row>, key: StoreKey, value: string)
    requires Sorted(rows)
    ensures (key in Contents(rows) && Contents(rows)[key] == value) <==> (key, value) in rows
    ensures key in Contents(rows) <==> exists i :: 0 <= i < |rows| && rows[i].0 == key
  {
    if rows != [] {
      RowsAreContents(rows[1..], key, value);
      assert rows == [rows[0]] + rows[1..];
      forall i | 1 <= i < |rows| ensures rows[i].0 != rows[0].0 {
        LessIsStrictTotal(rows[0].0, rows[i].0);
      }
      assert forall i :: 1 <= i < |rows| ==> rows[1..][i - 1] == rows[i];
    }
  }

  lemma Prepend(row: Row, rows: seq<Row>)
    requires Sorted(rows) && (rows != [] ==> Less(row.0, rows[0].0))
    ensures Sorted([row] + rows)
  {
    forall j | 0 <= j < |rows| ensures Less(row.0, rows[j].0) {
      if j > 0 { LessTransitive(row.0, rows[0].0, rows[j].0); }
    }
  }

  lemma {:induction false} InsertCorrect(rows: seq<Row>, key: StoreKey, value: string)
    requires Sorted(rows)
    ensures Sorted(Inserted(rows, key, value))
    ensures Contents(Inserted(rows, key, value)) == Contents(rows)[key := value]
    ensures var r := Inserted(rows, key, value);
      r != [] && (r[0].0 == key || (rows != [] && r[0].0 == rows[0].0))
  {
    var r := Inserted(rows, key, value);
    if rows == [] || Less(key, rows[0].0) {
      Prepend((key, value), rows);
      assert r[1..] == rows;
    } else if rows[0].0 == key {
      assert r[1..] == rows[1..];
      Prepend((key, value), rows[1..]);
    } else {
      LessIsStrictTotal(key, rows[0].0);
      InsertCorrect(rows[1..], key, value);
      Prepend(rows[0], Inserted(rows[1..], key, value));
      assert r[1..] == Inserted(rows[1..], key, value);
    }
  }

  lemma {:induction false} RemoveCorrect(rows: seq<Row>, key: StoreKey)
    requires Sorted(rows)
    ensures Sorted(Removed(rows, key))
    ensures Contents(Removed(rows, key)) == Contents(rows) - {key}
    ensures forall row :: row in Removed(rows, key) ==> row in rows
  {
    if rows != [] {
      if rows[0].0 == key {
        RowsAreContents(rows[1..], key, rows[0].1);
        forall i | 1 <= i < |rows| ensures rows[i].0 != key { LessIsStrictTotal(key, rows[i].0); }
        assert forall i :: 0 <= i < |rows[1..]| ==> rows[1..][i] == rows[i + 1];
      } else {
        RemoveCorrect(rows[1..], key);
        var rest := Removed(rows[1..], key);
        assert rest != [] ==> rest[0] in rows[1..];
        Prepend(rows[0], rest);
        assert Removed(rows, key)[1..] == rest;
      }
    }
  }

  // ---- The range scan ----

  predicate Matches(row: Row, dataflow: nat, node: NodeId) {
    row.0.dataflow == dataflow && row.0.node == node
  }

  function NameAndValue(rows: seq<Row>): seq<(string, string)> {
    seq(|rows|, i requires 0 <= i < |rows| => (rows[i].0.name, rows[i].1))
  }

  function FromKey(rows: seq<Row>, start: StoreKey): seq<Row> {
    if rows != [] && Less(rows[0].0, start) then FromKey(rows[1..], start) else rows
  }

  function WhileMatching(rows: seq<Row>, dataflow: nat, node: NodeId): seq<Row> {
    if rows != [] && Matches(rows[0], dataflow, node)
    then [rows[0]] + WhileMatching(rows[1..], dataflow, node)
    else []
  }

  function ScanRows(rows: seq<Row>, dataflow: nat, node: NodeId): seq<Row> {
    WhileMatching(FromKey(rows, StoreKey(dataflow, node, "")), dataflow, node)
  }

  function ListNodeParams(rows: seq<Row>, dataflow: nat, node: NodeId): seq<(string, string)> {
    NameAndValue(ScanRows(rows, dataflow, node))
  }

  /** The reference: every row of the node, found by looking at all rows. */
  function AllMatching(rows: seq<Row>, dataflow: nat, node: NodeId): seq<Row> {
    if rows == [] then []
    else if Matches(rows[0], dataflow, node) then [rows[0]] + AllMatching(rows[1..], dataflow, node)
    else AllMatching(rows[1..], dataflow, node)
  }

  lemma {:induction false} NoneMatching(rows: seq<Row>, dataflow: nat, node: NodeId)
    requires forall i :: 0 <= i < |rows| ==> !Matches(rows[i], dataflow, node)
    ensures AllMatching(rows, dataflow, node) == []
  {
    if rows != [] { NoneMatching(rows[1..], dataflow, node); }
  }

  /** Between the start of a node's range and a row of the node lie only rows
      of the node. */
  lemma Contiguous(row: Row, later: Row, dataflow: nat, node: NodeId)
    requires !Less(row.0, StoreKey(dataflow, node, "")) && Less(row.0, later.0)
    requires Matches(later, dataflow, node)
    ensures Matches(row, dataflow, node)
  {
  }

  lemma {:induction false} TakeExact(rows: seq<Row>, dataflow: nat, node: NodeId)
    requires Sorted(rows) && (rows != [] ==> !Less(rows[0].0, StoreKey(dataflow, node, "")))
    ensures WhileMatching(rows, dataflow, node) == AllMatching(rows, dataflow, node)
  {
    if rows != [] {
      if Matches(rows[0], dataflow, node) {
        var start := StoreKey(dataflow, node, "");
        if |rows| > 1 && Less(rows[1].0, start) { LessTransitive(rows[0].0, rows[1].0, start); }
        assert rows[1..] != [] ==> rows[1..][0] == rows[1];
        TakeExact(rows[1..], dataflow, node);
      } else {
        forall i | 0 <= i < |rows| ensures !Matches(rows[i], dataflow, node) {
          if i > 0 && Matches(rows[i], dataflow, node) { Contiguous(rows[0], rows[i], dataflow, node); }
        }
        NoneMatching(rows, dataflow, node);
      }
    }
  }

  /** The scan that starts at the node's first possible key and stops at the
      first foreign row returns exactly the node's rows, in key order. */
  lemma {:induction false} ScanExact(rows: seq<Row>, dataflow: nat, node: NodeId)
    requires Sorted(rows)
    ensures ScanRows(rows, dataflow, node) == AllMatching(rows, dataflow, node)
  {
    var start := StoreKey(dataflow, node, "");
    if rows != [] && Less(rows[0].0, start) {
      assert !Matches(rows[0], dataflow, node) by { TextOrder(node, node); }
      ScanExact(rows[1..], dataflow, node);
    } else {
      TakeExact(rows, dataflow, node);
    }
  }

  lemma {:induction false} MatchingRows(rows: seq<Row>, dataflow: nat, node: NodeId)
    ensures var r := AllMatching(rows, dataflow, node);
      forall row :: row in r <==> row in rows && Matches(row, dataflow, node)
    ensures Sorted(rows) ==> Sorted(AllMatching(rows, dataflow, node))
  {
    if rows != [] {
      MatchingRows(rows[1..], dataflow, node);
      assert rows == [rows[0]] + rows[1..];
      var rest := AllMatching(rows[1..], dataflow, node);
      if Sorted(rows) && Matches(rows[0], dataflow, node) {
        assert rest != [] ==> rest[0] in rows[1..];
        Prepend(rows[0], rest);
      }
    }
  }

  /** The listing holds a name with a value exactly when the map does. */
  lemma ListingIsTheMap(rows: seq<Row>, dataflow: nat, node: NodeId, name: string, value: string)
    requires Sorted(rows)
    ensures (name, value) in ListNodeParams(rows, dataflow, node)
       <==> StoreKey(dataflow, node, name) in Contents(rows) && Contents(rows)[StoreKey(dataflow, node, name)] == value
  {
    var key := StoreKey(dataflow, node, name);
    var scanned := ScanRows(rows, dataflow, node);
    var listed := ListNodeParams(rows, dataflow, node);
    ScanExact(rows, dataflow, node);
    MatchingRows(rows, dataflow, node);
    RowsAreContents(rows, key, value);
    if (name, value) in listed {
      var i :| 0 <= i < |listed| && listed[i] == (name, value);
      assert scanned[i] in scanned && scanned[i] == (key, value);
    }
    if (key, value) in scanned {
      var i :| 0 <= i < |scanned| && scanned[i] == (key, value);
      assert listed[i] == (name, value);
    }
  }

  /** The names come out strictly ascending, so none is listed twice. */
  lemma ListingAscends(rows: seq<Row>, dataflow: nat, node: NodeId, i: nat, j: nat)
    requires Sorted(rows) && i < j < |ListNodeParams(rows, dataflow, node)|
    ensures TextLess(ListNodeParams(rows, dataflow, node)[i].0, ListNodeParams(rows, dataflow, node)[j].0)
  {
    ScanExact(rows, dataflow, node);
    MatchingRows(rows, dataflow, node);
    var r := ScanRows(rows, dataflow, node);
    assert r[i] in r && r[j] in r;
    TextOrder(node, node);
  }

  // ---- The store ----

  datatype Outcome = Ok | TooLarge

  class InMemoryStore {
    var rows: seq<Row>

    ghost predicate Valid() reads this { Sorted(rows) }

    constructor ()
      ensures Valid() && Contents(rows) == map[]
    {
      rows := [];
    }

    method PutNodeParam(dataflow: nat, node: NodeId, name: string, value: string) returns (outcome: Outcome)
      requires Valid()
      modifies this
      ensures Valid()
      ensures outcome.TooLarge? <==> |name| > MAX_PARAM_KEY_BYTES || |value| > MAX_PARAM_VALUE_BYTES
      ensures Contents(rows) == if outcome.Ok? then old(Contents(rows))[StoreKey(dataflow, node, name) := value]
                                else old(Contents(rows))
    {
      if |name| > MAX_PARAM_KEY_BYTES || |value| > MAX_PARAM_VALUE_BYTES {
        return TooLarge;
      }
      InsertCorrect(rows, StoreKey(dataflow, node, name), value);
      rows := Inserted(rows, StoreKey(dataflow, node, name), value);
      outcome := Ok;
    }

    method DeleteNodeParam(dataflow: nat, node: NodeId, name: string)
      requires Valid()
      modifies this
      ensures Valid()
      ensures Contents(rows) == old(Contents(rows)) - {StoreKey(dataflow, node, name)}
    {
      RemoveCorrect(rows, StoreKey(dataflow, node, name));
      rows := Removed(rows, StoreKey(dataflow, node, name));
    }
  }

  // ---- Collecting what a full replay sends ----

  /** The persisted parameters of one dataflow, as the replication protocol
      sees them. */
  ghost function ParamsOf(rows: seq<Row>, dataflow: nat): Params {
    map key | key in Contents(rows) && key.dataflow == dataflow :: Key(key.node, key.name) := Contents(rows)[key]
  }

  lemma ParamsOfExact(rows: seq<Row>, dataflow: nat, k: Key)
    ensures k in ParamsOf(rows, dataflow) <==> StoreKey(dataflow, k.node, k.name) in Contents(rows)
    ensures k in ParamsOf(rows, dataflow) ==>
      ParamsOf(rows, dataflow)[k] == Contents(rows)[StoreKey(dataflow, k.node, k.name)]
  {
  }

  function ItemsOf(node: NodeId, listed: seq<(string, string)>): seq<CatchUp.Item> {
    seq(|listed|, i requires 0 <= i < |listed| => (Key(node, listed[i].0), listed[i].1))
  }

  /** The listings of the daemon's nodes, one after the other, hold every
      persisted parameter of those nodes and nothing else. */
  method CollectParamReplayItems(rows: seq<Row>, dataflow: nat, nodes: seq<NodeId>)
    returns (items: seq<CatchUp.Item>)
    requires Sorted(rows)
    ensures CatchUp.Enumerates(items, ParamsOf(rows, dataflow), Members(nodes))
  {
    items := [];
    for i := 0 to |nodes|
      invariant CatchUp.Enumerates(items, ParamsOf(rows, dataflow), Members(nodes[..i]))
    {
      var listed := ListNodeParams(rows, dataflow, nodes[i]);
      NodeEnumerated(rows, dataflow, nodes[i]);
      EnumeratesMore(items, ItemsOf(nodes[i], listed), ParamsOf(rows, dataflow), Members(nodes[..i]), nodes[i]);
      MembersGrow(nodes, i);
      items := items + ItemsOf(nodes[i], listed);
    }
    assert nodes[..|nodes|] == nodes;
  }

  lemma NodeEnumerated(rows: seq<Row>, dataflow: nat, node: NodeId)
    requires Sorted(rows)
    ensures CatchUp.Enumerates(ItemsOf(node, ListNodeParams(rows, dataflow, node)), ParamsOf(rows, dataflow), {node})
  {
    var params := ParamsOf(rows, dataflow);
    var listed := ListNodeParams(rows, dataflow, node);
    var items := ItemsOf(node, listed);
    forall i | 0 <= i < |items|
      ensures items[i].0 in params && items[i].1 == params[items[i].0]
    {
      ParamsOfExact(rows, dataflow, items[i].0);
      assert listed[i] in listed;
      ListingIsTheMap(rows, dataflow, node, listed[i].0, listed[i].1);
    }
    forall k | k in params && k.node == node
      ensures exists i :: 0 <= i < |items| && items[i].0 == k
    {
      ParamsOfExact(rows, dataflow, k);
      ListingIsTheMap(rows, dataflow, node, k.name, params[k]);
      var i :| 0 <= i < |listed| && listed[i] == (k.name, params[k]);
      assert items[i].0 == k;
    }
  }

  lemma EnumeratesMore(items: seq<CatchUp.Item>, more: seq<CatchUp.Item>, params: Params, nodes: set<NodeId>, node: NodeId)
    requires CatchUp.Enumerates(items, params, nodes) && CatchUp.Enumerates(more, params, {node})
    ensures CatchUp.Enumerates(items + more, params, nodes + {node})
  {
    var both := items + more;
    forall k | k in params && k.node in nodes + {node}
      ensures exists i :: 0 <= i < |both| && both[i].0 == k
    {
      if k.node in nodes {
        var i :| 0 <= i < |items| && items[i].0 == k;
        assert both[i].0 == k;
      } else {
        var i :| 0 <= i < |more| && more[i].0 == k;
        assert both[|items| + i].0 == k;
      }
    }
  }
}
