/** The extractor that turns a drawing-editor snapshot into a logical graph
    of components (nodes) and connections (edges), my-app/src/lib/graph-converter.ts. */
module GraphConverter {
  import opened Outcomes
  import opened JsonValues
  import opened Collections

  /** A property bag, `Record<string, unknown>`, as its `Object.entries`. */
  type Props = seq<(string, Value)>

  /** One record of the store. `shapeType` is the record's `type` field. Shape
      records carry a type and props; binding records carry `fromId` (the
      arrow), `toId` (the bound shape) and a `terminal` prop. */
  datatype StoreRecord = StoreRecord(
    id: string,
    typeName: string,
    shapeType: Option<string>,
    props: Option<Props>,
    fromId: Option<string>,
    toId: Option<string>)

  /** A snapshot. `store` lists its (key, value) pairs in `Object.values`
      order; a value `None` is a `null` or `undefined` entry. */
  datatype Snapshot = Snapshot(store: Option<seq<(string, Option<StoreRecord>)>>)

  datatype GraphNode = GraphNode(id: string, nodeType: string, props: Props)
  datatype GraphEdge = GraphEdge(from: string, to: string)
  datatype LogicalGraph = LogicalGraph(nodes: seq<GraphNode>, edges: seq<GraphEdge>)

  const EmptyGraph := LogicalGraph([], [])

  /** The visual-only property keys that never reach a node. */
  const VisualProps: set<string> := {
    "w", "h", "color", "fill", "dash", "size", "font",
    "align", "verticalAlign", "growY", "url", "opacity"
  }

  // ---------------------------------------------------------------------
  // Semantic properties

  /** An entry survives when its key is not visual and its value is defined. */
  predicate IsSemantic(entry: (string, Value)) {
    entry.0 !in VisualProps && entry.1 != Undefined
  }

  /** What `extractSemanticProps` returns, as a specification. */
  function SemanticProps(props: Props): Props {
    Filter(IsSemantic, props)
  }

  /** `extractSemanticProps`: fills `semantic` entry by entry. */
  method ExtractSemanticProps(props: Props) returns (semantic: Props)
    ensures semantic == SemanticProps(props)
  {
    semantic := [];
    for i := 0 to |props|
      invariant semantic == SemanticProps(props[..i])
    {
      var (key, value) := props[i];
      assert props[..i + 1] == props[..i] + [props[i]];
      FilterAppend(IsSemantic, props[..i], [props[i]]);
      if key !in VisualProps && value != Undefined {
        semantic := semantic + [(key, value)];
      }
    }
    assert props[..|props|] == props;
  }

  /** The kept entries are exactly the input's defined, non-visual entries,
      values unchanged, and in input order. */
  lemma SemanticPropsExact(props: Props, more: Props)
    ensures forall e :: e in SemanticProps(props) <==>
      e in props && e.0 !in VisualProps && e.1 != Undefined
    ensures SemanticProps(props + more) == SemanticProps(props) + SemanticProps(more)
    ensures SemanticProps(SemanticProps(props)) == SemanticProps(props)
  {
    FilterMembers(IsSemantic, props);
    forall e ensures e in SemanticProps(props) <==> e in props && e.0 !in VisualProps && e.1 != Undefined {
      assert IsSemantic(e) == (e.0 !in VisualProps && e.1 != Undefined);
    }
    FilterAppend(IsSemantic, props, more);
    FilterFilter(IsSemantic, IsSemantic, IsSemantic, props);
  }

  /** Reading a key of the semantic props gives the input's value unless the
      key is visual or its value undefined (keys of an object are distinct). */
  lemma {:induction false} SemanticPropsLookup(props: Props, key: string)
    requires NoDup(Keys(props))
    ensures Lookup(SemanticProps(props), key) ==
      if key in VisualProps || Lookup(props, key) == Some(Undefined) then None
      else Lookup(props, key)
  {
    if props != [] {
      var rest := props[1..];
      assert Keys(rest) == Keys(props)[1..];
      assert NoDup(Keys(rest));
      FilterMembers(IsSemantic, rest);
      assert SemanticProps(props) ==
        (if IsSemantic(props[0]) then [props[0]] else []) + SemanticProps(rest);
      if props[0].0 == key {
        forall e | e in rest ensures e.0 != key {
          var j :| 0 <= j < |rest| && rest[j] == e;
          assert Keys(props)[j + 1] == e.0 && Keys(props)[0] == key;
        }
        assert forall e :: e in SemanticProps(rest) ==> e.0 != key;
        LookupSpec(SemanticProps(rest), key);
        if IsSemantic(props[0]) {
          assert SemanticProps(props)[0] == props[0];
        } else {
          assert SemanticProps(props) == SemanticProps(rest);
        }
      } else {
        SemanticPropsLookup(rest, key);
        assert Lookup(props, key) == Lookup(rest, key);
        var h := if IsSemantic(props[0]) then [props[0]] else [];
        assert (h + SemanticProps(rest))[|h|..] == SemanticProps(rest);
        if h != [] {
          assert Lookup(h + SemanticProps(rest), key) == Lookup((h + SemanticProps(rest))[1..], key);
        }
      }
    }
  }

  // ---------------------------------------------------------------------
  // Nodes

  predicate IsShape(r: StoreRecord) { r.typeName == "shape" }
  predicate IsBinding(r: StoreRecord) { r.typeName == "binding" }
  predicate IsNotArrow(r: StoreRecord) { r.shapeType != Some("arrow") }

  /** A record that becomes a node: a shape that is not an arrow. A shape
      without a type is not an arrow. */
  predicate IsNodeRecord(r: StoreRecord) { IsShape(r) && IsNotArrow(r) }

  /** `shape.type || 'unknown'`. */
  function NodeType(t: Option<string>): (r: string)
    ensures r != ""
    ensures r == "unknown" || t == Some(r)
    ensures t.Some? && t.value != "" ==> r == t.value
  {
    if t.Some? && t.value != "" then t.value else "unknown"
  }

  function NodeOf(shape: StoreRecord): GraphNode {
    GraphNode(shape.id, NodeType(shape.shapeType), SemanticProps(shape.props.GetOr([])))
  }

  function ToNodes(shapes: seq<StoreRecord>): (nodes: seq<GraphNode>)
    ensures |nodes| == |shapes|
  {
    seq(|shapes|, i requires 0 <= i < |shapes| => NodeOf(shapes[i]))
  }

  /** Lines 40 and 44-50: filter the shapes, drop the arrows, map to nodes. */
  function NodesOf(records: seq<StoreRecord>): seq<GraphNode> {
    ToNodes(Filter(IsNotArrow, Filter(IsShape, records)))
  }

  lemma ToNodesAppend(a: seq<StoreRecord>, b: seq<StoreRecord>)
    ensures ToNodes(a + b) == ToNodes(a) + ToNodes(b)
  {
  }

  /** Dropping the arrows from the shapes is one filter by `IsNodeRecord`. */
  lemma NodesAreNodeRecords(records: seq<StoreRecord>)
    ensures NodesOf(records) == ToNodes(Filter(IsNodeRecord, records))
  {
    FilterFilter(IsShape, IsNotArrow, IsNodeRecord, records);
  }

  lemma ToNodesMembers(shapes: seq<StoreRecord>, n: GraphNode)
    ensures n in ToNodes(shapes) <==> exists r :: r in shapes && n == NodeOf(r)
  {
    if n in ToNodes(shapes) {
      var i :| 0 <= i < |shapes| && ToNodes(shapes)[i] == n;
      assert shapes[i] in shapes;
    }
    if exists r :: r in shapes && n == NodeOf(r) {
      var r :| r in shapes && n == NodeOf(r);
      var i :| 0 <= i < |shapes| && shapes[i] == r;
      assert ToNodes(shapes)[i] == n;
    }
  }

  /** The nodes are the node records, one each. */
  lemma NodesExact(records: seq<StoreRecord>)
    ensures forall n :: n in NodesOf(records) <==>
      exists r :: r in records && IsNodeRecord(r) && n == NodeOf(r)
  {
    NodesAreNodeRecords(records);
    var kept := Filter(IsNodeRecord, records);
    FilterMembers(IsNodeRecord, records);
    forall n ensures n in NodesOf(records) <==>
      exists r :: r in records && IsNodeRecord(r) && n == NodeOf(r)
    {
      ToNodesMembers(kept, n);
    }
  }

  /** Nodes keep store order: the nodes of a concatenation are the
      concatenation of the nodes. */
  lemma NodesInStoreOrder(records: seq<StoreRecord>, more: seq<StoreRecord>)
    ensures NodesOf(records + more) == NodesOf(records) + NodesOf(more)
  {
    NodesAreNodeRecords(records);
    NodesAreNodeRecords(more);
    NodesAreNodeRecords(records + more);
    FilterAppend(IsNodeRecord, records, more);
    ToNodesAppend(Filter(IsNodeRecord, records), Filter(IsNodeRecord, more));
  }

  /** Every node has a non-empty type and only semantic props. */
  lemma NodesAreSemantic(records: seq<StoreRecord>)
    ensures forall n :: n in NodesOf(records) ==>
      n.nodeType != "" && forall e :: e in n.props ==> e.0 !in VisualProps && e.1 != Undefined
  {
    forall n | n in NodesOf(records)
      ensures n.nodeType != "" && forall e :: e in n.props ==> e.0 !in VisualProps && e.1 != Undefined
    {
      NodesExact(records);
      var r :| r in records && IsNodeRecord(r) && n == NodeOf(r);
      SemanticPropsExact(r.props.GetOr([]), []);
    }
  }

  // ---------------------------------------------------------------------
  // Bindings and edges

  /** The terminals recorded for one arrow so far (`{ start?, end? }`). */
  datatype Terminals = Terminals(start: Option<string>, end: Option<string>)

  /** The `arrowBindings` map: its keys in insertion order, and its entries. */
  datatype ArrowTable = ArrowTable(order: seq<string>, ends: map<string, Terminals>)

  /** JavaScript truthiness of an optional string. */
  predicate Truthy(s: Option<string>) { s.Some? && s.value != "" }

  /** `binding.props?.terminal`. */
  function TerminalOf(b: StoreRecord): Option<Value> {
    if b.props.Some? then Lookup(b.props.value, "terminal") else None
  }

  /** A binding is recorded only when both its ids are present and non-empty. */
  predicate IsRecorded(b: StoreRecord) { Truthy(b.fromId) && Truthy(b.toId) }

  /** One iteration of the loop of lines 56-69. */
  function RecordBinding(t: ArrowTable, b: StoreRecord): ArrowTable {
    if !IsRecorded(b) then t
    else
      var arrowId, targetId := b.fromId.value, b.toId.value;
      var t1 := if arrowId in t.ends then t
                else ArrowTable(t.order + [arrowId], t.ends[arrowId := Terminals(None, None)]);
      var arrow := t1.ends[arrowId];
      var terminal := TerminalOf(b);
      var arrow1 := if terminal == Some(Str("start")) then arrow.(start := Some(targetId)) else arrow;
      var arrow2 := if terminal == Some(Str("end")) then arrow1.(end := Some(targetId)) else arrow1;
      ArrowTable(t1.order, t1.ends[arrowId := arrow2])
  }

  /** The table after the loop has seen all of `bindings`. */
  function BindingTable(bindings: seq<StoreRecord>): ArrowTable {
    if bindings == [] then ArrowTable([], map[])
    else RecordBinding(BindingTable(bindings[..|bindings| - 1]), bindings[|bindings| - 1])
  }

  /** Lines 71-76: one edge per arrow, in table order, whose start and end
      are both set. */
  function EdgesOf(order: seq<string>, ends: map<string, Terminals>): (edges: seq<GraphEdge>)
    ensures |edges| <= |order|
  {
    if order == [] then []
    else
      var a := order[0];
      (if a in ends && Truthy(ends[a].start) && Truthy(ends[a].end)
       then [GraphEdge(ends[a].start.value, ends[a].end.value)] else [])
      + EdgesOf(order[1..], ends)
  }

  function EdgesFrom(bindings: seq<StoreRecord>): seq<GraphEdge> {
    var t := BindingTable(bindings);
    EdgesOf(t.order, t.ends)
  }

  /** Reference: the arrow ids of the recorded bindings, in store order. */
  function ArrowIds(bindings: seq<StoreRecord>): (ids: seq<string>)
    ensures |ids| <= |bindings|
  {
    if bindings == [] then []
    else
      var b := bindings[|bindings| - 1];
      ArrowIds(bindings[..|bindings| - 1]) + (if IsRecorded(b) then [b.fromId.value] else [])
  }

  /** Reference: the target of the last recorded binding that gives arrow
      `arrowId` the terminal `terminal`. */
  function LastTarget(bindings: seq<StoreRecord>, arrowId: string, terminal: string): Option<string> {
    if bindings == [] then None
    else
      var b := bindings[|bindings| - 1];
      if IsRecorded(b) && b.fromId.value == arrowId && TerminalOf(b) == Some(Str(terminal))
      then Some(b.toId.value)
      else LastTarget(bindings[..|bindings| - 1], arrowId, terminal)
  }

  lemma {:induction false} LastTargetRecorded(bindings: seq<StoreRecord>, arrowId: string, terminal: string)
    ensures LastTarget(bindings, arrowId, terminal).Some? ==>
      arrowId in ArrowIds(bindings) && LastTarget(bindings, arrowId, terminal).value != ""
  {
    if bindings != [] {
      LastTargetRecorded(bindings[..|bindings| - 1], arrowId, terminal);
    }
  }

  lemma LastTargetStep(p: seq<StoreRecord>, b: StoreRecord, arrowId: string, terminal: string)
    ensures LastTarget(p + [b], arrowId, terminal) ==
      if IsRecorded(b) && b.fromId.value == arrowId && TerminalOf(b) == Some(Str(terminal))
      then Some(b.toId.value) else LastTarget(p, arrowId, terminal)
  {
    assert (p + [b])[..|p|] == p;
  }

  lemma ArrowIdsStep(p: seq<StoreRecord>, b: StoreRecord)
    ensures ArrowIds(p + [b]) == ArrowIds(p) + (if IsRecorded(b) then [b.fromId.value] else [])
  {
    assert (p + [b])[..|p|] == p;
  }

  lemma DedupStep<T>(s: seq<T>, x: T)
    ensures Dedup(s + [x]) == if x in s then Dedup(s) else Dedup(s) + [x]
  {
    assert (s + [x])[..|s|] == s;
    DedupMembers(s);
  }

  /** The table's keys are the distinct arrow ids, in first-seen order. */
  lemma {:induction false} BindingTableOrder(bindings: seq<StoreRecord>)
    ensures BindingTable(bindings).order == Dedup(ArrowIds(bindings))
    ensures forall a :: a in BindingTable(bindings).ends <==> a in ArrowIds(bindings)
  {
    if bindings != [] {
      var p, b := bindings[..|bindings| - 1], bindings[|bindings| - 1];
      assert bindings == p + [b];
      BindingTableOrder(p);
      ArrowIdsStep(p, b);
      var t := BindingTable(p);
      assert BindingTable(bindings) == RecordBinding(t, b);
      if IsRecorded(b) {
        var aid := b.fromId.value;
        DedupStep(ArrowIds(p), aid);
        assert ArrowIds(bindings) == ArrowIds(p) + [aid];
        assert aid in t.ends <==> aid in ArrowIds(p);
        assert RecordBinding(t, b).order == if aid in t.ends then t.order else t.order + [aid];
      } else {
        assert ArrowIds(bindings) == ArrowIds(p);
      }
    }
  }

  /** Each arrow's terminals are the last targets given for start and for end. */
  lemma {:induction false} BindingTableEnds(bindings: seq<StoreRecord>)
    ensures forall a :: a in BindingTable(bindings).ends ==>
      BindingTable(bindings).ends[a] ==
        Terminals(LastTarget(bindings, a, "start"), LastTarget(bindings, a, "end"))
  {
    if bindings != [] {
      var p, b := bindings[..|bindings| - 1], bindings[|bindings| - 1];
      assert bindings == p + [b];
      BindingTableEnds(p);
      BindingTableOrder(p);
      var t := BindingTable(p);
      forall a | a in BindingTable(bindings).ends
        ensures BindingTable(bindings).ends[a] ==
          Terminals(LastTarget(bindings, a, "start"), LastTarget(bindings, a, "end"))
      {
        LastTargetStep(p, b, a, "start");
        LastTargetStep(p, b, a, "end");
        if a !in t.ends {
          LastTargetRecorded(p, a, "start");
          LastTargetRecorded(p, a, "end");
        }
      }
    }
  }

  /** An edge from `s` to `e` is emitted exactly when some arrow's start
      was last bound to `s` and its end was last bound to `e`; never swapped. */
  lemma EdgeIffBothTerminals(bindings: seq<StoreRecord>, s: string, e: string)
    ensures GraphEdge(s, e) in EdgesFrom(bindings) <==>
      exists a :: LastTarget(bindings, a, "start") == Some(s) && LastTarget(bindings, a, "end") == Some(e)
  {
    var t := BindingTable(bindings);
    BindingTableOrder(bindings);
    BindingTableEnds(bindings);
    DedupMembers(ArrowIds(bindings));
    EdgesOfMembers(t.order, t.ends, s, e);
    if exists a :: LastTarget(bindings, a, "start") == Some(s) && LastTarget(bindings, a, "end") == Some(e) {
      var a :| LastTarget(bindings, a, "start") == Some(s) && LastTarget(bindings, a, "end") == Some(e);
      LastTargetRecorded(bindings, a, "start");
      LastTargetRecorded(bindings, a, "end");
      assert a in t.order && a in t.ends;
    }
  }

  lemma {:induction false} EdgesOfMembers(order: seq<string>, ends: map<string, Terminals>, s: string, e: string)
    ensures GraphEdge(s, e) in EdgesOf(order, ends) <==>
      exists a :: a in order && a in ends && s != "" && e != "" && ends[a] == Terminals(Some(s), Some(e))
  {
    if order != [] {
      EdgesOfMembers(order[1..], ends, s, e);
      assert forall a :: a in order <==> a == order[0] || a in order[1..];
    }
  }

  /** No more edges than distinct arrow ids, and no more of those than bindings. */
  lemma EdgeCountBound(bindings: seq<StoreRecord>)
    ensures |EdgesFrom(bindings)| <= |Dedup(ArrowIds(bindings))| <= |bindings|
  {
    BindingTableOrder(bindings);
    BindingTableEnds(bindings);
  }

  lemma {:induction false} EdgesOfAppend(order: seq<string>, a: string, ends: map<string, Terminals>)
    ensures EdgesOf(order + [a], ends) == EdgesOf(order, ends) + EdgesOf([a], ends)
  {
    if order != [] {
      assert (order + [a])[1..] == order[1..] + [a];
      EdgesOfAppend(order[1..], a, ends);
    } else {
      assert order + [a] == [a];
    }
  }

  lemma {:induction false} EdgesOfFrame(order: seq<string>, ends: map<string, Terminals>, a: string, x: Terminals)
    requires a !in order
    ensures EdgesOf(order, ends[a := x]) == EdgesOf(order, ends)
  {
    if order != [] {
      EdgesOfFrame(order[1..], ends, a, x);
    }
  }

  /** A binding that records nothing (an id missing or empty) or names a
      terminal other than start and end adds no edge and changes none: at
      most it opens an empty entry for its arrow. */
  lemma InertBindingAddsNoEdge(bindings: seq<StoreRecord>, b: StoreRecord)
    requires !IsRecorded(b) || (TerminalOf(b) != Some(Str("start")) && TerminalOf(b) != Some(Str("end")))
    ensures EdgesFrom(bindings + [b]) == EdgesFrom(bindings)
  {
    var t := BindingTable(bindings);
    assert (bindings + [b])[..|bindings|] == bindings;
    assert BindingTable(bindings + [b]) == RecordBinding(t, b);
    if IsRecorded(b) {
      var a := b.fromId.value;
      if a in t.ends {
        assert t.ends[a := t.ends[a]] == t.ends;
      } else {
        BindingTableOrder(bindings);
        DedupMembers(ArrowIds(bindings));
        assert a !in t.order;
        var ends := t.ends[a := Terminals(None, None)];
        assert RecordBinding(t, b) == ArrowTable(t.order + [a], ends);
        EdgesOfAppend(t.order, a, ends);
        EdgesOfFrame(t.order, t.ends, a, Terminals(None, None));
        assert EdgesOf([a], ends) == [];
      }
    }
  }

  // ---------------------------------------------------------------------
  // The whole conversion

  function StoreValues(entries: seq<(string, Option<StoreRecord>)>): seq<Option<StoreRecord>> {
    seq(|entries|, i requires 0 <= i < |entries| => entries[i].1)
  }

  predicate HasNullValue(values: seq<Option<StoreRecord>>) {
    exists i :: 0 <= i < |values| && values[i].None?
  }

  function Present(values: seq<Option<StoreRecord>>): (records: seq<StoreRecord>)
    requires !HasNullValue(values)
    ensures |records| == |values|
  {
    seq(|values|, i requires 0 <= i < |values| && values[i].Some? => values[i].value)
  }

  /** The specification of `convertTldrawToGraph`. Reading `typeName` of a
      null entry throws. */
  function ExtractGraph(snapshot: Snapshot): Completion<LogicalGraph> {
    match snapshot.store
    case None => Normal(EmptyGraph)
    case Some(entries) =>
      var values := StoreValues(entries);
      if HasNullValue(values) then Throw
      else
        var records := Present(values);
        Normal(LogicalGraph(NodesOf(records), EdgesFrom(Filter(IsBinding, records))))
  }

  /** `convertTldrawToGraph`, with the binding loop of lines 54-69. */
  method ConvertTldrawToGraph(snapshot: Snapshot) returns (graph: Completion<LogicalGraph>)
    ensures graph == ExtractGraph(snapshot)
  {
    if snapshot.store.None? {
      return Normal(EmptyGraph);
    }
    var values := StoreValues(snapshot.store.value);
    if HasNullValue(values) {
      return Throw;
    }
    var records := Present(values);
    var bindings := Filter(IsBinding, records);
    var nodes := NodesOf(records);

    var order: seq<string> := [];
    var ends: map<string, Terminals> := map[];
    for i := 0 to |bindings|
      invariant ArrowTable(order, ends) == BindingTable(bindings[..i])
    {
      var binding := bindings[i];
      assert bindings[..i + 1][..i] == bindings[..i];
      var arrowId, targetId, terminal := binding.fromId, binding.toId, TerminalOf(binding);
      if Truthy(arrowId) && Truthy(targetId) {
        if arrowId.value !in ends {
          order := order + [arrowId.value];
          ends := ends[arrowId.value := Terminals(None, None)];
        }
        var arrow := ends[arrowId.value];
        if terminal == Some(Str("start")) {
          arrow := arrow.(start := targetId);
        }
        if terminal == Some(Str("end")) {
          arrow := arrow.(end := targetId);
        }
        ends := ends[arrowId.value := arrow];
      }
    }
    assert bindings[..|bindings|] == bindings;
    return Normal(LogicalGraph(nodes, EdgesOf(order, ends)));
  }

  /** The graph's parts: with no store the graph is empty; otherwise the
      nodes are the node records and the edges come from the binding records. */
  lemma ExtractGraphCases(snapshot: Snapshot)
    ensures snapshot.store.None? ==> ExtractGraph(snapshot) == Normal(LogicalGraph([], []))
    ensures snapshot.store == Some([]) ==> ExtractGraph(snapshot) == Normal(LogicalGraph([], []))
    ensures ExtractGraph(snapshot).Throw? <==>
      snapshot.store.Some? && exists kv :: kv in snapshot.store.value && kv.1.None?
  {
    if snapshot.store.Some? {
      var entries := snapshot.store.value;
      var values := StoreValues(entries);
      if exists kv :: kv in entries && kv.1.None? {
        var kv :| kv in entries && kv.1.None?;
        var i :| 0 <= i < |entries| && entries[i] == kv;
        assert values[i].None?;
      }
      if HasNullValue(values) {
        var i :| 0 <= i < |values| && values[i].None?;
        assert entries[i] in entries;
      }
    }
  }

  lemma {:induction false} NoNullSplit(a: seq<Option<StoreRecord>>, b: seq<Option<StoreRecord>>)
    ensures HasNullValue(a + b) <==> HasNullValue(a) || HasNullValue(b)
  {
    if HasNullValue(a + b) {
      var i :| 0 <= i < |a + b| && (a + b)[i].None?;
      if i < |a| { assert a[i].None?; } else { assert b[i - |a|].None?; }
    }
    if HasNullValue(a) {
      var i :| 0 <= i < |a| && a[i].None?;
      assert (a + b)[i].None?;
    }
    if HasNullValue(b) {
      var i :| 0 <= i < |b| && b[i].None?;
      assert (a + b)[|a| + i].None?;
    }
  }

  lemma PresentAppend(a: seq<Option<StoreRecord>>, b: seq<Option<StoreRecord>>)
    requires !HasNullValue(a) && !HasNullValue(b)
    ensures !HasNullValue(a + b) && Present(a + b) == Present(a) + Present(b)
  {
    NoNullSplit(a, b);
  }

  /** The graph of records is unchanged by removing a record that is
      neither a shape nor a binding. */
  lemma {:induction false} GraphOfIgnoresOther(rb: seq<StoreRecord>, r: StoreRecord, ra: seq<StoreRecord>)
    requires !IsShape(r) && !IsBinding(r)
    ensures NodesOf(rb + [r] + ra) == NodesOf(rb + ra)
    ensures Filter(IsBinding, rb + [r] + ra) == Filter(IsBinding, rb + ra)
  {
    FilterAppend(IsBinding, rb + [r], ra);
    FilterAppend(IsBinding, rb, [r]);
    FilterAppend(IsBinding, rb, ra);
    FilterAppend(IsShape, rb + [r], ra);
    FilterAppend(IsShape, rb, [r]);
    FilterAppend(IsShape, rb, ra);
    assert Filter(IsShape, [r]) == [] && Filter(IsBinding, [r]) == [];
    assert Filter(IsShape, rb + [r] + ra) == Filter(IsShape, rb + ra);
  }

  /** A record that is neither a shape nor a binding changes nothing,
      wherever it sits in the store. */
  lemma OtherRecordsIgnored(before: seq<(string, Option<StoreRecord>)>, key: string, r: StoreRecord,
                            after: seq<(string, Option<StoreRecord>)>)
    requires !IsShape(r) && !IsBinding(r)
    ensures ExtractGraph(Snapshot(Some(before + [(key, Some(r))] + after)))
         == ExtractGraph(Snapshot(Some(before + after)))
  {
    var with, without := before + [(key, Some(r))] + after, before + after;
    var vb, va := StoreValues(before), StoreValues(after);
    assert StoreValues(with) == vb + [Some(r)] + va;
    assert StoreValues(without) == vb + va;
    NoNullSplit(vb + [Some(r)], va);
    NoNullSplit(vb, [Some(r)]);
    NoNullSplit(vb, va);
    assert !HasNullValue([Some(r)]);
    if !HasNullValue(vb) && !HasNullValue(va) {
      PresentAppend(vb, [Some(r)]);
      PresentAppend(vb + [Some(r)], va);
      PresentAppend(vb, va);
      assert Present([Some(r)]) == [r];
      GraphOfIgnoresOther(Present(vb), r, Present(va));
    }
  }
}
