# System-design whiteboard grader: a Dafny model

The application lets a user draw a system-design diagram on a tldraw canvas
and asks a language-model service to grade it against a stated problem. This
project models the grading pipeline and the custom shapes that feed it, and
proves properties about them:

- **The graph extractor** (`my-app/src/lib/graph-converter.ts`). It turns a
  tldraw store snapshot into a logical graph.
  - Non-arrow shapes become nodes. Each node keeps only the semantic props;
    12 visual keys are stripped.
  - Arrow bindings are folded into a per-arrow start/end table.
  - An edge is emitted for each arrow whose start and end are both bound.
  - The node pipeline is modelled with functions. The prop-filtering loop
    and the binding loop are methods (`ExtractSemanticProps`,
    `ConvertTldrawToGraph`), each proved equal to a specification function.
- **The rate limiter wrapper** (`my-app/src/lib/ratelimit.ts`).
  - `createRatelimit` decides once whether the limiter is `Disabled` or
    `Enabled`.
  - `checkRateLimit` either fails open with fixed values or copies the
    backend's answer.
- **The grading action** (`gradeDiagram`, `GradeResponseSchema` and
  `GradeResult` in `my-app/src/app/grade-actions.ts`). `my-app/src/app/actions.ts`
  lines 188-272 contain the same code, modelled by the same members.
  - The steps, in order: admission check, graph extraction, empty-board
    check, prompt, service call, schema validation.
  - The result is one of three outcomes: a grade, a typed failure, or an
    escaping exception.
- **The five custom shapes** (`my-app/src/components/whiteboard/shapes/*ShapeUtil.tsx`).
  - Their props and defaults.
  - The `dbType` and `clientType` literal enums and their style tables.
  - The `onEditEnd` label clean-up. This is modelled as a `ShapeUtil`
    method that updates an `Editor` class. The editor holds the shape store
    as a map from shape id to props.

Modules:
- `Outcomes`: `Option`, and `Completion`, a normal value or a thrown
  exception.
- `JsonValues`: JavaScript values and object entries.
- `Collections`: `Array.prototype.filter`, and de-duplication in
  `Set`/`Map` insertion order.
- `Text`: `String.prototype.trim` over the ECMAScript whitespace set,
  `startsWith` and `join`.
- `GraphConverter`, `RateLimit`, `Grading` and `Shapes`.
- `Scenarios`: whole boards run through the extractor.

Inputs that come from outside the process are parameters of the functions:
- the environment variables `UPSTASH_REDIS_REST_URL` and `UPSTASH_REDIS_REST_TOKEN`;
- whether constructing the backend client throws;
- `Date.now()`;
- the signed-in user's id;
- the backend's answer to `limit(userId)`;
- the generation service, a function from the prompt to a generated
  object or a thrown exception.

Three behaviours of the code are easy to miss:
- **Extraction can throw.** `convertTldrawToGraph` reads `r.typeName` on
  every store value (`graph-converter.ts:40`), so a `null` value in the store
  throws. The `catch` of `gradeDiagram` (`grade-actions.ts:98-104`) turns
  that into the generic "Grading failed" result. `ExtractGraph` returns
  `Throw` exactly then.
- **The limiter fails open only when it is disabled.** `checkRateLimit`
  answers without the backend only when the credentials are unusable or the
  constructor threw (`ratelimit.ts:10-26`, `39-41`). A throwing
  `limit(userId)` call (`ratelimit.ts:43`) sits before the `try` of
  `gradeDiagram` (`grade-actions.ts:43`), so its exception escapes the
  action. `GradeDiagram` reports that as `outcome == Throw`.
- **The score need not be an integer.** The schema is
  `z.number().min(1).max(10)` (`grade-actions.ts:22`), which also accepts
  fractions. The model uses a `real` in [1, 10].

## Model

| member | source | states |
|---|---|---|
| GraphConverter.ExtractSemanticProps | my-app/src/lib/graph-converter.ts:84-99 | the loop that fills `semantic` returns exactly the specification `SemanticProps(props)` (the input entries with a non-visual key and a defined value, in order) |
| GraphConverter.SemanticPropsExact | my-app/src/lib/graph-converter.ts:86-97 | an entry is kept iff it is in the input, its key is not one of the 12 visual keys and its value is not undefined; filtering distributes over concatenation (order kept) and is idempotent |
| GraphConverter.SemanticPropsLookup | my-app/src/lib/graph-converter.ts:93-96 | for objects with distinct keys, reading a key of the result gives the input's value, or nothing when the key is visual or its value undefined |
| GraphConverter.NodeType | my-app/src/lib/graph-converter.ts:48 | a node's type is never empty; it is the record's type when that is a non-empty string, and otherwise "unknown" |
| GraphConverter.NodesAreNodeRecords | my-app/src/lib/graph-converter.ts:40-45 | filtering shapes and then non-arrows equals one filter by "shape that is not an arrow" (a shape with no type is kept) |
| GraphConverter.NodesExact | my-app/src/lib/graph-converter.ts:39-50 | a node is in the result iff it is the node of some shape record whose type is not "arrow" |
| GraphConverter.NodesInStoreOrder | my-app/src/lib/graph-converter.ts:39-50 | the nodes of a concatenated store are the concatenation of the nodes: store order is kept |
| GraphConverter.NodesAreSemantic | my-app/src/lib/graph-converter.ts:46-50 | every node has a non-empty type and no visual or undefined prop |
| GraphConverter.BindingTableOrder | my-app/src/lib/graph-converter.ts:54-66 | the per-arrow map's keys are the distinct arrow ids of bindings with both ids set, in first-seen order |
| GraphConverter.BindingTableEnds | my-app/src/lib/graph-converter.ts:56-69 | each arrow's start and end are the targets of the last binding giving that arrow that terminal (last write wins) |
| GraphConverter.LastTargetRecorded | my-app/src/lib/graph-converter.ts:61-68 | a terminal is recorded only by a binding whose arrow id is recorded and whose target id is non-empty |
| GraphConverter.EdgesOf | my-app/src/lib/graph-converter.ts:71-76 | at most one edge per map entry |
| GraphConverter.EdgesOfMembers | my-app/src/lib/graph-converter.ts:71-76 | an edge (s, e) is emitted iff some arrow in the map has start s and end e, both non-empty |
| GraphConverter.EdgeIffBothTerminals | my-app/src/lib/graph-converter.ts:54-76 | the edge (s, e) exists iff some arrow's last start binding targets s and its last end binding targets e; from is always the start, never swapped |
| GraphConverter.EdgeCountBound | my-app/src/lib/graph-converter.ts:54-76 | edges ≤ distinct arrow ids ≤ bindings |
| GraphConverter.InertBindingAddsNoEdge | my-app/src/lib/graph-converter.ts:57-68 | a binding with a missing or empty id, or with a terminal other than "start" and "end", leaves the edges unchanged |
| GraphConverter.ExtractGraphCases | my-app/src/lib/graph-converter.ts:34-41 | no store, or an empty store, gives the empty graph; extraction throws iff some store value is null |
| GraphConverter.GraphOfIgnoresOther | my-app/src/lib/graph-converter.ts:40-41 | a record that is neither shape nor binding contributes no node and no binding |
| GraphConverter.OtherRecordsIgnored | my-app/src/lib/graph-converter.ts:39-41 | inserting such a record anywhere in the store leaves the extracted graph unchanged |
| GraphConverter.ConvertTldrawToGraph | my-app/src/lib/graph-converter.ts:34-79 | the imperative conversion, with the binding loop over a map and its insertion order, returns exactly `ExtractGraph(snapshot)` |
| Shapes.ShapeBecomesNode | my-app/src/lib/graph-converter.ts:44-50 | each custom shape in the store becomes a node of its own type whose props are its enum and label, never its size |
| Scenarios.BoardRecords | my-app/src/lib/graph-converter.ts:35-41 | a store without null values is read record by record, in order |
| Scenarios.PairNodes | my-app/src/lib/graph-converter.ts:40-50 | two components, an arrow and its bindings give the two components as nodes and the bindings to the edge pass |
| Scenarios.StartThenEnd | my-app/src/lib/graph-converter.ts:56-76 | an arrow bound at start to s and at end to e gives exactly the edge (s, e) |
| Scenarios.StartOnly | my-app/src/lib/graph-converter.ts:72 | an arrow bound only at its start gives no edge |
| Scenarios.ClientToDatabase | my-app/src/lib/graph-converter.ts:34-79 | client s1, database s2 and arrow a1 bound start→s1, end→s2 give nodes [s1, s2] and the one edge s1→s2 |
| Shapes.SemanticPropsOf | my-app/src/lib/graph-converter.ts:49 | stripping the visual props of a custom shape leaves exactly its enum and label, in that order |
| Scenarios.EndUnbound | my-app/src/lib/graph-converter.ts:71-76 | the same board without the end binding gives the same nodes and no edge |
| Scenarios.EndTargetUnchecked | my-app/src/lib/graph-converter.ts:71-76 | the client's arrow yields the edge s1→t for every non-empty end target t, whether or not a node has that id: endpoints are not checked against the nodes |
| Scenarios.DefaultShapeNodes | my-app/src/components/whiteboard/shapes/DatabaseShapeUtil.tsx:39-46 | default client and database shapes become nodes whose props are `clientType: "web"`/`dbType: "postgres"` and their labels |
| Collections.FilterMembers | my-app/src/lib/graph-converter.ts:40-41 | an element is in the filtered list iff it is in the list and passes |
| Collections.FilterAppend | my-app/src/lib/graph-converter.ts:44-45 | filtering keeps order: it distributes over concatenation |
| JsonValues.LookupSpec | my-app/src/lib/graph-converter.ts:59 | reading a key finds a value iff an entry has that key, and the value found is that entry's |
| RateLimit.CreateRatelimit | my-app/src/lib/ratelimit.ts:5-27 | the limiter is enabled iff the URL and token are present and non-empty, the URL starts with "https://" and the constructor did not throw; it then carries the credentials and the policy of 5 requests per 3 600 000 ms |
| RateLimit.PlainHttpDisables | my-app/src/lib/ratelimit.ts:10-15 | a URL that does not start with "https://" disables the limiter whatever the token |
| RateLimit.CheckRateLimit | my-app/src/lib/ratelimit.ts:37-49 | disabled: success, remaining 999, reset = now; enabled: throws iff the backend call throws, and otherwise success, remaining and reset are the backend's |
| RateLimit.FailOpenForEveryCall | my-app/src/lib/ratelimit.ts:39-41 | a disabled limiter admits every call of any sequence of calls |
| RateLimit.EnabledCopiesBackend | my-app/src/lib/ratelimit.ts:43-48 | an enabled limiter's answer depends only on the backend's answer for that user id |
| Grading.ParseGradeResponse | my-app/src/app/grade-actions.ts:21-28 | a validated verdict has a score in [1, 10] and each field is the object's field of that name and type |
| Grading.ParseFromFields | my-app/src/app/actions.ts:188-195 | given the six fields with their types, validation accepts exactly when the score is in [1, 10] |
| Grading.StringListRoundTrip | my-app/src/app/grade-actions.ts:24-27 | an array of strings validates as `z.array(z.string())` to the same list |
| Grading.ResponseRoundTrip | my-app/src/app/actions.ts:188-195 | a verdict written out as an object validates back to itself iff its score is in [1, 10] |
| Grading.ScoreOutOfRangeRejected | my-app/src/app/grade-actions.ts:22 | an object whose score is below 1 or above 10 is rejected, whatever its other fields |
| Grading.ComponentTypesLine | my-app/src/app/actions.ts:247 | the types line has no duplicates, names exactly the node types present, and lists them in first-occurrence order |
| Grading.PromptSummarisesGraph | my-app/src/app/grade-actions.ts:78-82 | the prompt carries the graph, "Total components" = node count, "Total connections" = edge count, and the distinct types joined by ", " |
| Grading.GradeDiagram | my-app/src/app/grade-actions.ts:36-105 | the check is made first and reaches the backend iff the limiter is enabled; a rejection gives the quota message with `resetAt` = reset and no prompt; an empty board gives "No components found…" without the service; a prompt, the one built from the graph, is sent iff the request is admitted and extraction gives a graph with ≥ 1 node; when the service's answer then validates, the result is the grade of that verdict with the remaining count of the one check, and every grade is such a validated, in-schema verdict; the generic failure occurs iff admitted and extraction threw, the service threw, or validation failed; only a throwing check escapes |
| Grading.OracleUnusedWithoutPrompt | my-app/src/app/actions.ts:210-228 | when no prompt is sent (rejected, empty board, extraction failure) the run is the same for every service |
| Grading.OracleSeesOnlyPrompt | my-app/src/app/grade-actions.ts:63-91 | two services that answer the sent prompt alike give the same run: the diagram reaches the service only through the prompt |
| Grading.DisabledNeverRateLimited | my-app/src/app/actions.ts:209-217 | with the limiter disabled the action never throws, never calls the backend, and never answers with the quota message or a reset time |
| Collections.DedupFirstOccurrenceOrder | my-app/src/app/grade-actions.ts:80 | `[...new Set(xs)]` lists its elements in the order of their first occurrence |
| Collections.DedupNoDup | my-app/src/app/grade-actions.ts:80 | `[...new Set(xs)]` has no duplicates |
| Collections.DedupMembers | my-app/src/app/grade-actions.ts:80 | `[...new Set(xs)]` has exactly the elements of xs |
| Shapes.ParseDbType | my-app/src/components/whiteboard/shapes/DatabaseShapeUtil.tsx:35 | the literal enum accepts exactly the four database type names, each as its own type |
| Shapes.ParseClientType | my-app/src/components/whiteboard/shapes/ClientShapeUtil.tsx:33 | the literal enum accepts exactly "mobile" and "web", each as its own type |
| Shapes.DbStyle | my-app/src/components/whiteboard/shapes/DatabaseShapeUtil.tsx:22-27 | every database type has an entry in the style table, with a non-empty icon and colours |
| Shapes.ClientStyle | my-app/src/components/whiteboard/shapes/ClientShapeUtil.tsx:22-25 | every client type has an entry in the style table, with a non-empty icon and colours |
| Shapes.StyleTablesMatchEnums | my-app/src/components/whiteboard/shapes/DatabaseShapeUtil.tsx:17-27 | the style tables' keys are exactly the strings their enums accept |
| Shapes.StylesDistinguishTypes | my-app/src/components/whiteboard/shapes/ClientShapeUtil.tsx:22-25 | different types have different icons |
| Shapes.TypeNamesDistinct | my-app/src/components/whiteboard/shapes/ServerShapeUtil.tsx:22 | the five shape type names are distinct |
| Shapes.DefaultLabel | my-app/src/components/whiteboard/shapes/CacheShapeUtil.tsx:60 | every fallback label is non-empty and already trimmed |
| Shapes.DatabaseDefaults | my-app/src/components/whiteboard/shapes/DatabaseShapeUtil.tsx:39-46 | w 120, h 100, dbType postgres, label "Database" |
| Shapes.ClientDefaults | my-app/src/components/whiteboard/shapes/ClientShapeUtil.tsx:37-44 | w 100, h 100, clientType web, label "Client" |
| Shapes.LoadBalancerDefaults | my-app/src/components/whiteboard/shapes/LoadBalancerShapeUtil.tsx:30-36 | w 120, h 100, label "Load Balancer" |
| Shapes.ServerDefaults | my-app/src/components/whiteboard/shapes/ServerShapeUtil.tsx:30-36 | w 120, h 100, label "Server" |
| Shapes.CacheDefaults | my-app/src/components/whiteboard/shapes/CacheShapeUtil.tsx:30-36 | w 120, h 100, label "Cache" |
| Shapes.DefaultProps | my-app/src/components/whiteboard/shapes/LoadBalancerShapeUtil.tsx:30-36 | each kind's defaults are of that kind, with a positive size and the kind's fallback label |
| Shapes.ShapeUtil.GetDefaultProps | my-app/src/components/whiteboard/shapes/ServerShapeUtil.tsx:30-36 | a util's defaults are of its own kind with its fallback label |
| Shapes.EditEndUpdate | my-app/src/components/whiteboard/shapes/DatabaseShapeUtil.tsx:64-73 | no update iff the label is already trimmed (the empty label included); otherwise an update for that id and the shape's own type, whose label is non-empty and trimmed, equal to the trimmed label or, for a whitespace-only label, the fallback |
| Shapes.ApplyUpdate | my-app/src/components/whiteboard/shapes/DatabaseShapeUtil.tsx:67-71 | the update changes only the label of that id: same ids, same kind, size and enum, every other shape unchanged; an unknown id changes nothing |
| Shapes.Editor.UpdateShape | my-app/src/components/whiteboard/shapes/ClientShapeUtil.tsx:65-69 | the store afterwards is the old store with the update applied |
| Shapes.ShapeUtil.OnEditEnd | my-app/src/components/whiteboard/shapes/ClientShapeUtil.tsx:62-71 | the util's method leaves the editor's store exactly as `EditEnd` of the old store |
| Shapes.EditEndOnlyRelabels | my-app/src/components/whiteboard/shapes/LoadBalancerShapeUtil.tsx:57-61 | after the edit ends, only the label of the edited shape may differ, and only from an untrimmed label to a trimmed non-empty one |
| Shapes.TrimmedLabelUnchanged | my-app/src/components/whiteboard/shapes/ServerShapeUtil.tsx:55-56 | a label equal to its trim leaves the store unchanged |
| Shapes.EmptyLabelKept | my-app/src/components/whiteboard/shapes/CacheShapeUtil.tsx:55-56 | an empty label asks for no update and stays empty |
| Shapes.UntrimmedLabelCleaned | my-app/src/components/whiteboard/shapes/LoadBalancerShapeUtil.tsx:55-61 | an untrimmed label becomes its trim, or the fallback label when the trim is empty |
| Shapes.EditEndSettles | my-app/src/components/whiteboard/shapes/ServerShapeUtil.tsx:54-63 | a second `onEditEnd` on the shape as the first left it makes no further change |
| Shapes.DefaultsAreStable | my-app/src/components/whiteboard/shapes/CacheShapeUtil.tsx:30-63 | a freshly created shape's label is never rewritten when editing ends |
| Text.TrimFixedPoints | my-app/src/components/whiteboard/shapes/DatabaseShapeUtil.tsx:65-66 | `trim(s) == s` iff s has no whitespace at either end |
| Text.TrimEmpty | my-app/src/components/whiteboard/shapes/DatabaseShapeUtil.tsx:70 | `trim(s)` is empty iff s is whitespace only |
| Text.TrimIdempotent | my-app/src/components/whiteboard/shapes/ClientShapeUtil.tsx:63 | trimming twice is trimming once |
| Text.TrimShape | my-app/src/components/whiteboard/shapes/CacheShapeUtil.tsx:55 | `trim(s)` is trimmed and is s with whitespace-only runs removed from both ends |

## Left out

- The sliding-window algorithm and the Redis client (`@upstash/ratelimit`, `@upstash/redis`) are foreign libraries. Their answer to `limit(userId)` is a parameter, so the model does not say when the sixth request of an hour is rejected.
- The environment reads, the `NODE_ENV` check and the `console.warn`/`console.error` logging of `ratelimit.ts` and `gradeDiagram` are left out. The environment values are parameters, and logging has no effect on results.
- The generation service (`generateObject` with the Gemini model) is a parameter. The zod runtime is modelled only as the validation it performs. The prompt's prose, and the exact text `JSON.stringify` produces for the graph, are not modelled: the prompt datatype records the problem statement, the graph itself, the types line and the two counts.
- Authentication (`getAuthenticatedUser`, `redirect`) is left out. The signed-in user's id is a parameter. The Supabase board operations in `actions.ts` are I/O and are not modelled.
- React rendering (`component`, `indicator`), `getGeometry`, `onResize`/`resizeBox`, the text input's `onChange` and the `canEdit`/`canResize` flags are left out: they are user-interface behaviour. The inline icons and colours of the server, load balancer and cache shapes belong to rendering and are left out too.
- The shape tools, `index.ts`, `types.ts`, `ui-overrides.tsx`, the pages and `next.config.ts` are not part of this model. They hold UI wiring and configuration.
- Serialised stores and objects are modelled as ordered entry lists. JavaScript's key-ordering rules (integer-like keys first) are not modelled, and keys of an object are assumed distinct where a lemma needs it (`SemanticPropsLookup`).
- Numbers are modelled as mathematical reals: `NaN`, infinities and floating-point rounding are not represented.
- Store values are records of the declared shape or `null`/`undefined` (`None`). A store value that is a number, string or boolean is skipped by the code: its `typeName` is `undefined`, which matches neither filter (`graph-converter.ts:40-41`), and the rest of the board is still extracted. The model represents such a value as a record of another `typeName`, which `OtherRecordsIgnored` shows is ignored. An ill-typed snapshot or store, and a snapshot that is itself `null`, are represented by `store == None`, which behaves the same way: `!snapshot?.store` gives the empty graph.
- Shapes.ApplyUpdate: tldraw's `updateShape` on an id that is not in the store is modelled as a no-op. The update's `type` field is recorded, and proven equal to the shape's own type, but it is not checked against the stored shape.
- Shapes.ShapeUtil.OnEditEnd: the util receives the shape as tldraw hands it over; the model does not require that value to match the store's current entry.
