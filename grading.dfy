/** The grading server action `gradeDiagram` of my-app/src/app/grade-actions.ts
    (my-app/src/app/actions.ts holds the same action, schema and result type
    a second time, and this module models both). The caller's identity, the
    backend's answer to the admission check and the generation service are
    parameters. */
module Grading {
  import opened Outcomes
  import opened JsonValues
  import opened Collections
  import opened Text
  import opened GraphConverter
  import opened RateLimit

  // ---------------------------------------------------------------------
  // The response schema

  /** `GradeResponse`, the verdict object of `GradeResponseSchema`. */
  datatype GradeResponse = GradeResponse(
    score: real,
    feedback: string,
    strengths: seq<string>,
    weaknesses: seq<string>,
    missingComponents: seq<string>,
    securityRisks: seq<string>)

  /** The constraints of the schema that the field types do not already
      carry: the score lies in [1, 10]. */
  predicate InSchema(g: GradeResponse) {
    1.0 <= g.score <= 10.0
  }

  /** `z.array(z.string())`: an array whose items are all strings. */
  function StringList(items: seq<Value>): (r: Option<seq<string>>)
    ensures r.Some? ==> |r.value| == |items|
  {
    if items == [] then Some([])
    else if !items[0].Str? then None
    else match StringList(items[1..])
      case None => None
      case Some(rest) => Some([items[0].s] + rest)
  }

  function StringsField(fields: seq<(string, Value)>, key: string): Option<seq<string>> {
    match Lookup(fields, key)
    case Some(Arr(items)) => StringList(items)
    case _ => None
  }

  /** Validating a generated object against `GradeResponseSchema`: every
      field present with its type, the score a number in [1, 10]; other
      keys are stripped. */
  function ParseGradeResponse(v: Value): (r: Option<GradeResponse>)
    ensures r.Some? ==> InSchema(r.value)
    ensures r.Some? ==> (v.Obj?
      && Lookup(v.fields, "score") == Some(Num(r.value.score))
      && Lookup(v.fields, "feedback") == Some(Str(r.value.feedback))
      && StringsField(v.fields, "strengths") == Some(r.value.strengths)
      && StringsField(v.fields, "weaknesses") == Some(r.value.weaknesses)
      && StringsField(v.fields, "missingComponents") == Some(r.value.missingComponents)
      && StringsField(v.fields, "securityRisks") == Some(r.value.securityRisks))
  {
    if !v.Obj? then None
    else
      var f := v.fields;
      var score, feedback := Lookup(f, "score"), Lookup(f, "feedback");
      var s, w := StringsField(f, "strengths"), StringsField(f, "weaknesses");
      var m, x := StringsField(f, "missingComponents"), StringsField(f, "securityRisks");
      if score.Some? && score.value.Num? && 1.0 <= score.value.n <= 10.0
         && feedback.Some? && feedback.value.Str?
         && s.Some? && w.Some? && m.Some? && x.Some?
      then Some(GradeResponse(score.value.n, feedback.value.s, s.value, w.value, m.value, x.value))
      else None
  }

  /** A verdict written out as the JSON object the service produces. */
  function ResponseValue(g: GradeResponse): Value {
    Obj([("score", Num(g.score)), ("feedback", Str(g.feedback)),
         ("strengths", StringValues(g.strengths)), ("weaknesses", StringValues(g.weaknesses)),
         ("missingComponents", StringValues(g.missingComponents)),
         ("securityRisks", StringValues(g.securityRisks))])
  }

  function StringValues(xs: seq<string>): Value {
    Arr(seq(|xs|, i requires 0 <= i < |xs| => Str(xs[i])))
  }

  lemma {:induction false} StringListRoundTrip(xs: seq<string>)
    ensures StringList(StringValues(xs).items) == Some(xs)
  {
    if xs != [] {
      var items := StringValues(xs).items;
      StringListRoundTrip(xs[1..]);
      assert items[1..] == StringValues(xs[1..]).items;
      assert items[0] == Str(xs[0]);
      assert [xs[0]] + xs[1..] == xs;
    }
  }

  /** Validation decided by the six field lookups alone. */
  lemma ParseFromFields(fields: seq<(string, Value)>, g: GradeResponse)
    requires Lookup(fields, "score") == Some(Num(g.score))
    requires Lookup(fields, "feedback") == Some(Str(g.feedback))
    requires StringsField(fields, "strengths") == Some(g.strengths)
    requires StringsField(fields, "weaknesses") == Some(g.weaknesses)
    requires StringsField(fields, "missingComponents") == Some(g.missingComponents)
    requires StringsField(fields, "securityRisks") == Some(g.securityRisks)
    ensures ParseGradeResponse(Obj(fields)) == if InSchema(g) then Some(g) else None
  {
  }

  /** The string list written out at `i` is the one read back for its key. */
  lemma StringsFieldAt(fields: seq<(string, Value)>, i: nat, xs: seq<string>)
    requires i < |fields| && fields[i].1 == StringValues(xs)
    requires forall j :: 0 <= j < i ==> fields[j].0 != fields[i].0
    ensures StringsField(fields, fields[i].0) == Some(xs)
  {
    LookupAt(fields, i);
    StringListRoundTrip(xs);
  }

  /** Every verdict the schema allows passes validation unchanged, and no
      other object of that shape does. */
  lemma ResponseRoundTrip(g: GradeResponse)
    ensures ParseGradeResponse(ResponseValue(g)) == if InSchema(g) then Some(g) else None
  {
    var f := ResponseValue(g).fields;
    assert Lookup(f, "score") == Some(Num(g.score)) by { LookupAt(f, 0); }
    assert Lookup(f, "feedback") == Some(Str(g.feedback)) by { LookupAt(f, 1); }
    assert StringsField(f, "strengths") == Some(g.strengths) by { StringsFieldAt(f, 2, g.strengths); }
    assert StringsField(f, "weaknesses") == Some(g.weaknesses) by { StringsFieldAt(f, 3, g.weaknesses); }
    assert StringsField(f, "missingComponents") == Some(g.missingComponents) by {
      StringsFieldAt(f, 4, g.missingComponents);
    }
    assert StringsField(f, "securityRisks") == Some(g.securityRisks) by { StringsFieldAt(f, 5, g.securityRisks); }
    ParseFromFields(f, g);
  }

  /** A score outside [1, 10] is rejected, whatever the other fields. */
  lemma ScoreOutOfRangeRejected(fields: seq<(string, Value)>, score: real)
    requires Lookup(fields, "score") == Some(Num(score))
    requires score < 1.0 || score > 10.0
    ensures ParseGradeResponse(Obj(fields)) == None
  {
  }

  // ---------------------------------------------------------------------
  // The prompt

  /** What the prompt tells the service about the diagram: the problem, the
      graph itself (serialised as JSON), the component types found, and the
      number of components and connections. */
  datatype Prompt = Prompt(
    problemStatement: string,
    graph: LogicalGraph,
    componentTypes: string,
    totalComponents: nat,
    totalConnections: nat)

  function NodeTypes(nodes: seq<GraphNode>): (types: seq<string>)
    ensures |types| == |nodes|
  {
    seq(|nodes|, i requires 0 <= i < |nodes| => nodes[i].nodeType)
  }

  /** `[...new Set(nodes.map((n) => n.type))]`. */
  function DistinctTypes(nodes: seq<GraphNode>): seq<string> {
    Dedup(NodeTypes(nodes))
  }

  function BuildPrompt(problemStatement: string, graph: LogicalGraph): Prompt {
    Prompt(problemStatement, graph, Join(DistinctTypes(graph.nodes), ", "),
           |graph.nodes|, |graph.edges|)
  }

  /** The types line names each node type once, names nothing else, and
      lists the types in the order their first nodes appear. */
  lemma ComponentTypesLine(nodes: seq<GraphNode>)
    ensures NoDup(DistinctTypes(nodes))
    ensures forall t :: t in DistinctTypes(nodes) ==> t in NodeTypes(nodes)
    ensures forall t :: t in DistinctTypes(nodes) <==> exists n :: n in nodes && n.nodeType == t
    ensures forall i, j :: 0 <= i < j < |DistinctTypes(nodes)| ==>
      FirstIndex(NodeTypes(nodes), DistinctTypes(nodes)[i]) < FirstIndex(NodeTypes(nodes), DistinctTypes(nodes)[j])
  {
    var types := NodeTypes(nodes);
    DedupNoDup(types);
    DedupMembers(types);
    DedupFirstOccurrenceOrder(types);
    forall t ensures t in types <==> exists n :: n in nodes && n.nodeType == t {
      if t in types {
        var i :| 0 <= i < |types| && types[i] == t;
        assert nodes[i] in nodes;
      }
      if exists n :: n in nodes && n.nodeType == t {
        var n :| n in nodes && n.nodeType == t;
        var i :| 0 <= i < |nodes| && nodes[i] == n;
        assert types[i] == t;
      }
    }
  }

  /** The counts in the prompt are the node and edge counts of the graph it
      carries, and the types line is the distinct node types joined by ", ". */
  lemma PromptSummarisesGraph(problemStatement: string, graph: LogicalGraph)
    ensures BuildPrompt(problemStatement, graph).graph == graph
    ensures BuildPrompt(problemStatement, graph).totalComponents == |graph.nodes|
    ensures BuildPrompt(problemStatement, graph).totalConnections == |graph.edges|
    ensures BuildPrompt(problemStatement, graph).componentTypes == Join(DistinctTypes(graph.nodes), ", ")
    ensures |DistinctTypes(graph.nodes)| <= |graph.nodes|
  {
  }

  // ---------------------------------------------------------------------
  // The action

  const RateLimitMessage := "Rate limit exceeded. You've used all 5 grades this hour."
  const NoComponentsMessage := "No components found on the board. Add some system design shapes first."
  const GradingFailedMessage := "Grading failed. Please try again."

  /** `GradeResult`. */
  datatype GradeResult =
    | Graded(result: GradeResponse, remaining: int)
    | NotGraded(error: string, resetAt: Option<int>)

  /** One run of the action: how it completed, whether the backend's
      `limit(userId)` was called, and the prompt sent to the service, if any. */
  datatype GradeRun = GradeRun(outcome: Completion<GradeResult>, backendCalled: bool, prompt: Option<Prompt>)

  /** The admission check answered and let the request through. */
  predicate Admitted(limiter: Limiter, userId: string, now: int, limit: string -> Completion<LimitResponse>) {
    var a := CheckRateLimit(limiter, userId, now, limit);
    a.Normal? && a.value.success
  }

  /** `gradeDiagram(boardSnapshot, problemStatement)` for the signed-in user
      `userId`. `oracle` is the generation service: it is given the prompt
      and produces an object or throws. */
  function GradeDiagram(limiter: Limiter, userId: string, now: int,
                        limit: string -> Completion<LimitResponse>,
                        snapshot: Snapshot, problemStatement: string,
                        oracle: Prompt -> Completion<Value>): (run: GradeRun)
    // The admission check comes first, and reaches the backend exactly when
    // the limiter is enabled, whatever the board holds.
    ensures run.backendCalled == limiter.Enabled?
    // Only a failing admission check escapes as an exception.
    ensures run.outcome.Throw? <==> CheckRateLimit(limiter, userId, now, limit).Throw?
    // A rejected check returns the quota message with the reset time and
    // sends nothing to the service.
    ensures CheckRateLimit(limiter, userId, now, limit).Normal? && !CheckRateLimit(limiter, userId, now, limit).value.success
      ==> run.outcome == Normal(NotGraded(RateLimitMessage, Some(CheckRateLimit(limiter, userId, now, limit).value.reset)))
          && run.prompt.None?
    // A reset time is reported only for a rejected check.
    ensures run.outcome.Normal? && run.outcome.value.NotGraded? && run.outcome.value.resetAt.Some?
      ==> !Admitted(limiter, userId, now, limit)
    // A board without components is refused without consulting the service.
    ensures Admitted(limiter, userId, now, limit) && ExtractGraph(snapshot).Normal? && ExtractGraph(snapshot).value.nodes == []
      ==> run.outcome == Normal(NotGraded(NoComponentsMessage, None)) && run.prompt.None?
    // The service is consulted only after admission, and only with the
    // prompt built from a graph with at least one node.
    ensures run.prompt.Some? ==> (Admitted(limiter, userId, now, limit)
      && ExtractGraph(snapshot).Normal? && |ExtractGraph(snapshot).value.nodes| >= 1
      && run.prompt.value == BuildPrompt(problemStatement, ExtractGraph(snapshot).value))
    // ... and it is always consulted then.
    ensures run.prompt.Some? <==> (Admitted(limiter, userId, now, limit)
      && ExtractGraph(snapshot).Normal? && |ExtractGraph(snapshot).value.nodes| >= 1)
    // A service answer that validates is returned as the grade, with the
    // remaining quota of the admission check.
    ensures Admitted(limiter, userId, now, limit)
      && ExtractGraph(snapshot).Normal? && |ExtractGraph(snapshot).value.nodes| >= 1
      && oracle(BuildPrompt(problemStatement, ExtractGraph(snapshot).value)).Normal?
      && ParseGradeResponse(oracle(BuildPrompt(problemStatement, ExtractGraph(snapshot).value)).value).Some?
      ==> run.outcome == Normal(Graded(
            ParseGradeResponse(oracle(BuildPrompt(problemStatement, ExtractGraph(snapshot).value)).value).value,
            CheckRateLimit(limiter, userId, now, limit).value.remaining))
    // A grade is the validated object together with the remaining quota of
    // the one admission check.
    ensures run.outcome.Normal? && run.outcome.value.Graded? ==>
      Admitted(limiter, userId, now, limit)
      && run.outcome.value.remaining == CheckRateLimit(limiter, userId, now, limit).value.remaining
      && run.prompt.Some? && oracle(run.prompt.value).Normal?
      && ParseGradeResponse(oracle(run.prompt.value).value) == Some(run.outcome.value.result)
      && InSchema(run.outcome.value.result)
    // Every failure after admission other than an empty board is the one
    // generic message.
    ensures run.outcome == Normal(NotGraded(GradingFailedMessage, None)) <==>
      Admitted(limiter, userId, now, limit)
      && (ExtractGraph(snapshot).Throw?
          || (|ExtractGraph(snapshot).value.nodes| >= 1
              && (oracle(BuildPrompt(problemStatement, ExtractGraph(snapshot).value)).Throw?
                  || ParseGradeResponse(oracle(BuildPrompt(problemStatement, ExtractGraph(snapshot).value)).value).None?)))
  {
    var admission := CheckRateLimit(limiter, userId, now, limit);
    var called := limiter.Enabled?;
    if admission.Throw? then GradeRun(Throw, called, None)
    else if !admission.value.success then
      GradeRun(Normal(NotGraded(RateLimitMessage, Some(admission.value.reset))), called, None)
    else
      match ExtractGraph(snapshot)
      case Throw => GradeRun(Normal(NotGraded(GradingFailedMessage, None)), called, None)
      case Normal(graph) =>
        if |graph.nodes| == 0 then GradeRun(Normal(NotGraded(NoComponentsMessage, None)), called, None)
        else
          var prompt := BuildPrompt(problemStatement, graph);
          match oracle(prompt)
          case Throw => GradeRun(Normal(NotGraded(GradingFailedMessage, None)), called, Some(prompt))
          case Normal(obj) =>
            match ParseGradeResponse(obj)
            case None => GradeRun(Normal(NotGraded(GradingFailedMessage, None)), called, Some(prompt))
            case Some(verdict) => GradeRun(Normal(Graded(verdict, admission.value.remaining)), called, Some(prompt))
  }

  /** A run that sent no prompt does not depend on the service at all: the
      service is never consulted when the request is rejected or the board
      is empty. */
  lemma OracleUnusedWithoutPrompt(limiter: Limiter, userId: string, now: int,
                                  limit: string -> Completion<LimitResponse>,
                                  snapshot: Snapshot, problemStatement: string,
                                  oracle: Prompt -> Completion<Value>, other: Prompt -> Completion<Value>)
    requires GradeDiagram(limiter, userId, now, limit, snapshot, problemStatement, oracle).prompt.None?
    ensures GradeDiagram(limiter, userId, now, limit, snapshot, problemStatement, oracle)
         == GradeDiagram(limiter, userId, now, limit, snapshot, problemStatement, other)
  {
  }

  /** The service sees the diagram only through the prompt: two services
      that answer that prompt alike produce the same run. */
  lemma OracleSeesOnlyPrompt(limiter: Limiter, userId: string, now: int,
                             limit: string -> Completion<LimitResponse>,
                             snapshot: Snapshot, problemStatement: string,
                             oracle: Prompt -> Completion<Value>, other: Prompt -> Completion<Value>)
    requires var run := GradeDiagram(limiter, userId, now, limit, snapshot, problemStatement, oracle);
      run.prompt.Some? ==> oracle(run.prompt.value) == other(run.prompt.value)
    ensures GradeDiagram(limiter, userId, now, limit, snapshot, problemStatement, oracle)
         == GradeDiagram(limiter, userId, now, limit, snapshot, problemStatement, other)
  {
  }

  /** With the limiter disabled the quota never refuses a request. */
  lemma DisabledNeverRateLimited(userId: string, now: int,
                                 limit: string -> Completion<LimitResponse>,
                                 snapshot: Snapshot, problemStatement: string,
                                 oracle: Prompt -> Completion<Value>)
    ensures var o := GradeDiagram(Disabled, userId, now, limit, snapshot, problemStatement, oracle).outcome;
      o.Normal? && (o.value.NotGraded? ==> o.value.error != RateLimitMessage && o.value.resetAt.None?)
    ensures !GradeDiagram(Disabled, userId, now, limit, snapshot, problemStatement, oracle).backendCalled
  {
  }
}
