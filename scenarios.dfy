/** Whole boards run through the extractor: a client wired to a database,
    the same board with the arrow's end left unbound, and an arrow whose
    end points at a record that is not on the board. */
module Scenarios {
  import opened Outcomes
  import opened JsonValues
  import opened Collections
  import opened GraphConverter
  import opened Shapes

  /** A board whose store holds `records` under their own ids. */
  function Board(records: seq<StoreRecord>): Snapshot {
    Snapshot(Some(seq(|records|, i requires 0 <= i < |records| => (records[i].id, Some(records[i])))))
  }

  /** A freshly drawn arrow shape. */
  function ArrowShape(id: string): StoreRecord {
    StoreRecord(id, "shape", Some("arrow"), Some([]), None, None)
  }

  /** A binding of one end of `arrow` to the shape `target`. */
  function ArrowBinding(id: string, arrow: string, target: string, terminal: string): StoreRecord {
    StoreRecord(id, "binding", Some("arrow"), Some([("terminal", Str(terminal))]), Some(arrow), Some(target))
  }

  const ClientNode := GraphNode("s1", "client", [("clientType", Str("web")), ("label", Str("Client"))])
  const DatabaseNode := GraphNode("s2", "database", [("dbType", Str("postgres")), ("label", Str("Database"))])

  /** The extractor's view of a board with no null entries. */
  lemma BoardRecords(records: seq<StoreRecord>)
    ensures ExtractGraph(Board(records)) ==
      Normal(LogicalGraph(NodesOf(records), EdgesFrom(Filter(IsBinding, records))))
  {
    var values := StoreValues(Board(records).store.value);
    assert values == seq(|records|, i requires 0 <= i < |records| => Some(records[i]));
    assert !HasNullValue(values);
    assert Present(values) == records;
  }

  /** The two default shapes, as nodes. */
  lemma DefaultShapeNodes()
    ensures NodeOf(RecordOf(Shape("s1", ClientDefaults()))) == ClientNode
    ensures NodeOf(RecordOf(Shape("s2", DatabaseDefaults()))) == DatabaseNode
    ensures IsNodeRecord(RecordOf(Shape("s1", ClientDefaults())))
    ensures IsNodeRecord(RecordOf(Shape("s2", DatabaseDefaults())))
  {
    ShapeBecomesNode(Shape("s1", ClientDefaults()));
    ShapeBecomesNode(Shape("s2", DatabaseDefaults()));
  }

  /** The records of a board with two components `c` and `d`, an arrow `a`
      and the arrow's bindings: the components become nodes, the arrow does
      not, and the bindings are what the edge pass sees. */
  lemma PairNodes(c: StoreRecord, d: StoreRecord, a: StoreRecord, bindings: seq<StoreRecord>)
    requires IsNodeRecord(c) && IsNodeRecord(d) && IsShape(a) && !IsNotArrow(a)
    requires forall b :: b in bindings ==> IsBinding(b)
    ensures NodesOf([c, d, a] + bindings) == [NodeOf(c), NodeOf(d)]
    ensures Filter(IsBinding, [c, d, a] + bindings) == bindings
  {
    var shapes := [c, d, a];
    assert forall b :: b in bindings ==> !IsShape(b);
    FilterAppend(IsShape, shapes, bindings);
    FilterAllOrNone(IsShape, shapes);
    FilterAllOrNone(IsShape, bindings);
    assert Filter(IsNotArrow, shapes) == [c, d] by {
      assert shapes == [c, d] + [a];
      FilterAppend(IsNotArrow, [c, d], [a]);
      FilterAllOrNone(IsNotArrow, [c, d]);
      FilterAllOrNone(IsNotArrow, [a]);
    }
    assert Filter(IsShape, shapes + bindings) == shapes;
    assert ToNodes([c, d]) == [NodeOf(c), NodeOf(d)];
    FilterAppend(IsBinding, shapes, bindings);
    FilterAllOrNone(IsBinding, shapes);
    FilterAllOrNone(IsBinding, bindings);
  }

  /** One arrow bound at its start to `s` and then at its end to `e` gives
      the one edge from `s` to `e`. */
  lemma StartThenEnd(a: string, s: string, e: string)
    requires a != "" && s != "" && e != ""
    ensures EdgesFrom([ArrowBinding("b1", a, s, "start"), ArrowBinding("b2", a, e, "end")]) == [GraphEdge(s, e)]
  {
    var bs := [ArrowBinding("b1", a, s, "start"), ArrowBinding("b2", a, e, "end")];
    assert bs[..1] == [bs[0]];
    assert BindingTable([bs[0]]) == ArrowTable([a], map[a := Terminals(Some(s), None)]);
    assert BindingTable(bs) == ArrowTable([a], map[a := Terminals(Some(s), Some(e))]);
  }

  /** One arrow bound at its start only gives no edge. */
  lemma StartOnly(a: string, s: string)
    requires a != "" && s != ""
    ensures EdgesFrom([ArrowBinding("b1", a, s, "start")]) == []
  {
    assert BindingTable([ArrowBinding("b1", a, s, "start")]) == ArrowTable([a], map[a := Terminals(Some(s), None)]);
  }

  /** An arrow from the client to any target: the edge is emitted whatever
      the end is bound to, whether or not a node has that id, because edges
      are not checked against the nodes. */
  lemma EndTargetUnchecked(target: string)
    requires target != ""
    ensures ExtractGraph(Board([RecordOf(Shape("s1", ClientDefaults())), RecordOf(Shape("s2", DatabaseDefaults())),
                                ArrowShape("a1"), ArrowBinding("b1", "a1", "s1", "start"),
                                ArrowBinding("b2", "a1", target, "end")]))
         == Normal(LogicalGraph([ClientNode, DatabaseNode], [GraphEdge("s1", target)]))
  {
    var bs := [ArrowBinding("b1", "a1", "s1", "start"), ArrowBinding("b2", "a1", target, "end")];
    var shapes := [RecordOf(Shape("s1", ClientDefaults())), RecordOf(Shape("s2", DatabaseDefaults())), ArrowShape("a1")];
    assert shapes + bs == [shapes[0], shapes[1], shapes[2], bs[0], bs[1]];
    BoardRecords(shapes + bs);
    DefaultShapeNodes();
    PairNodes(shapes[0], shapes[1], shapes[2], bs);
    StartThenEnd("a1", "s1", target);
  }

  /** A client wired to a database: two nodes in store order and one edge
      from the client to the database. */
  lemma ClientToDatabase()
    ensures ExtractGraph(Board([RecordOf(Shape("s1", ClientDefaults())), RecordOf(Shape("s2", DatabaseDefaults())),
                                ArrowShape("a1"), ArrowBinding("b1", "a1", "s1", "start"),
                                ArrowBinding("b2", "a1", "s2", "end")]))
         == Normal(LogicalGraph([ClientNode, DatabaseNode], [GraphEdge("s1", "s2")]))
  {
    EndTargetUnchecked("s2");
  }

  /** Without the end binding the arrow connects nothing: the same two
      nodes and no edge. */
  lemma EndUnbound()
    ensures ExtractGraph(Board([RecordOf(Shape("s1", ClientDefaults())), RecordOf(Shape("s2", DatabaseDefaults())),
                                ArrowShape("a1"), ArrowBinding("b1", "a1", "s1", "start")]))
         == Normal(LogicalGraph([ClientNode, DatabaseNode], []))
  {
    var bs := [ArrowBinding("b1", "a1", "s1", "start")];
    var shapes := [RecordOf(Shape("s1", ClientDefaults())), RecordOf(Shape("s2", DatabaseDefaults())), ArrowShape("a1")];
    assert shapes + bs == [shapes[0], shapes[1], shapes[2], bs[0]];
    BoardRecords(shapes + bs);
    DefaultShapeNodes();
    PairNodes(shapes[0], shapes[1], shapes[2], bs);
    StartOnly("a1", "s1");
  }
}
