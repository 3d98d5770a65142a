/** The five custom shapes of the whiteboard, my-app/src/components/whiteboard/shapes/
    (DatabaseShapeUtil.tsx, ClientShapeUtil.tsx, LoadBalancerShapeUtil.tsx,
    ServerShapeUtil.tsx, CacheShapeUtil.tsx): their property records, their
    defaults, the two literal enums with their style tables, and the label
    clean-up each shape performs when text editing ends. */
module Shapes {
  import opened Outcomes
  import opened JsonValues
  import opened Text
  import opened Collections
  import opened GraphConverter

  // ---------------------------------------------------------------------
  // The literal enums and their style tables

  /** `dbType: 'postgres' | 'mysql' | 'mongodb' | 'redis'`. */
  datatype DbType = Postgres | Mysql | Mongodb | Redis

  /** `clientType: 'mobile' | 'web'`. */
  datatype ClientType = Mobile | Web

  function DbTypeName(t: DbType): string {
    match t
    case Postgres => "postgres"
    case Mysql => "mysql"
    case Mongodb => "mongodb"
    case Redis => "redis"
  }

  function ClientTypeName(t: ClientType): string {
    match t
    case Mobile => "mobile"
    case Web => "web"
  }

  /** `T.literalEnum('postgres', 'mysql', 'mongodb', 'redis')`: the stored
      string is accepted only when it is one of the four names. */
  function ParseDbType(s: string): (r: Option<DbType>)
    ensures r.Some? ==> DbTypeName(r.value) == s
    ensures forall t :: DbTypeName(t) == s ==> r == Some(t)
  {
    if s == "postgres" then Some(Postgres)
    else if s == "mysql" then Some(Mysql)
    else if s == "mongodb" then Some(Mongodb)
    else if s == "redis" then Some(Redis)
    else None
  }

  /** `T.literalEnum('mobile', 'web')`. */
  function ParseClientType(s: string): (r: Option<ClientType>)
    ensures r.Some? ==> ClientTypeName(r.value) == s
    ensures forall t :: ClientTypeName(t) == s ==> r == Some(t)
  {
    if s == "mobile" then Some(Mobile)
    else if s == "web" then Some(Web)
    else None
  }

  /** One entry of a style table: the icon and the two colours. */
  datatype Style = Style(icon: string, color: string, border: string)

  /** `DB_STYLES`. */
  const DbStyles: map<string, Style> := map[
    "postgres" := Style("\U{1F418}", "#e0f2fe", "#0284c7"),
    "mysql" := Style("\U{1F42C}", "#fef3c7", "#f59e0b"),
    "mongodb" := Style("\U{1F343}", "#d1fae5", "#10b981"),
    "redis" := Style("\U{1F534}", "#fee2e2", "#ef4444")]

  /** `CLIENT_STYLES`. */
  const ClientStyles: map<string, Style> := map[
    "mobile" := Style("\U{1F4F1}", "#e0e7ff", "#6366f1"),
    "web" := Style("\U{1F310}", "#dbeafe", "#3b82f6")]

  /** `DB_STYLES[shape.props.dbType]`: the table has an entry for every
      database type, so the lookup never misses. */
  function DbStyle(t: DbType): (s: Style)
    ensures DbTypeName(t) in DbStyles && s == DbStyles[DbTypeName(t)]
    ensures s.icon != [] && s.color != [] && s.border != []
  {
    DbStyles[DbTypeName(t)]
  }

  /** `CLIENT_STYLES[shape.props.clientType]`, total in the same way. */
  function ClientStyle(t: ClientType): (s: Style)
    ensures ClientTypeName(t) in ClientStyles && s == ClientStyles[ClientTypeName(t)]
    ensures s.icon != [] && s.color != [] && s.border != []
  {
    ClientStyles[ClientTypeName(t)]
  }

  /** The style tables are keyed by exactly the names their enums accept:
      no enum value lacks a style and no style is unreachable. */
  lemma StyleTablesMatchEnums(k: string)
    ensures k in DbStyles <==> ParseDbType(k).Some?
    ensures k in ClientStyles <==> ParseClientType(k).Some?
  {
  }

  /** Each style belongs to one type: the four database icons differ, and so
      do the two client icons. */
  lemma StylesDistinguishTypes(a: DbType, b: DbType, c: ClientType, d: ClientType)
    ensures DbStyle(a).icon == DbStyle(b).icon ==> a == b
    ensures ClientStyle(c).icon == ClientStyle(d).icon ==> c == d
  {
  }

  // ---------------------------------------------------------------------
  // The shapes

  datatype Kind = Database | Client | LoadBalancer | Server | Cache

  /** The props of a shape; every kind has a size and a label, the database
      and the client also their enum. Sizes are JavaScript numbers; `text`
      is the `label` prop (`label` is a keyword of Dafny). */
  datatype ShapeProps =
    | DatabaseProps(w: real, h: real, dbType: DbType, text: string)
    | ClientProps(w: real, h: real, clientType: ClientType, text: string)
    | LoadBalancerProps(w: real, h: real, text: string)
    | ServerProps(w: real, h: real, text: string)
    | CacheProps(w: real, h: real, text: string)

  function KindOf(p: ShapeProps): Kind {
    match p
    case DatabaseProps(_, _, _, _) => Database
    case ClientProps(_, _, _, _) => Client
    case LoadBalancerProps(_, _, _) => LoadBalancer
    case ServerProps(_, _, _) => Server
    case CacheProps(_, _, _) => Cache
  }

  /** The `static type` of each shape util, the shape's `type` in the store. */
  function TypeName(k: Kind): string {
    match k
    case Database => "database"
    case Client => "client"
    case LoadBalancer => "loadBalancer"
    case Server => "server"
    case Cache => "cache"
  }

  /** The label a shape starts with and falls back to. */
  function DefaultLabel(k: Kind): (text: string)
    ensures text != [] && IsTrimmed(text)
  {
    match k
    case Database => "Database"
    case Client => "Client"
    case LoadBalancer => "Load Balancer"
    case Server => "Server"
    case Cache => "Cache"
  }

  /** The five type names are distinct, so a stored `type` names one kind. */
  lemma TypeNamesDistinct(a: Kind, b: Kind)
    ensures TypeName(a) == TypeName(b) ==> a == b
  {
  }

  /** `DatabaseShapeUtil.getDefaultProps`. */
  function DatabaseDefaults(): (p: ShapeProps)
    ensures p.DatabaseProps? && p.w == 120.0 && p.h == 100.0
    ensures p.dbType == Postgres && p.text == DefaultLabel(Database)
  {
    DatabaseProps(120.0, 100.0, Postgres, "Database")
  }

  /** `ClientShapeUtil.getDefaultProps`. */
  function ClientDefaults(): (p: ShapeProps)
    ensures p.ClientProps? && p.w == 100.0 && p.h == 100.0
    ensures p.clientType == Web && p.text == DefaultLabel(Client)
  {
    ClientProps(100.0, 100.0, Web, "Client")
  }

  /** `LoadBalancerShapeUtil.getDefaultProps`. */
  function LoadBalancerDefaults(): (p: ShapeProps)
    ensures p.LoadBalancerProps? && p.w == 120.0 && p.h == 100.0
    ensures p.text == DefaultLabel(LoadBalancer)
  {
    LoadBalancerProps(120.0, 100.0, "Load Balancer")
  }

  /** `ServerShapeUtil.getDefaultProps`. */
  function ServerDefaults(): (p: ShapeProps)
    ensures p.ServerProps? && p.w == 120.0 && p.h == 100.0
    ensures p.text == DefaultLabel(Server)
  {
    ServerProps(120.0, 100.0, "Server")
  }

  /** `CacheShapeUtil.getDefaultProps`. */
  function CacheDefaults(): (p: ShapeProps)
    ensures p.CacheProps? && p.w == 120.0 && p.h == 100.0
    ensures p.text == DefaultLabel(Cache)
  {
    CacheProps(120.0, 100.0, "Cache")
  }

  /** The defaults of the shape util for `k`. */
  function DefaultProps(k: Kind): (p: ShapeProps)
    ensures KindOf(p) == k && p.text == DefaultLabel(k)
    ensures p.w > 0.0 && p.h > 0.0
  {
    match k
    case Database => DatabaseDefaults()
    case Client => ClientDefaults()
    case LoadBalancer => LoadBalancerDefaults()
    case Server => ServerDefaults()
    case Cache => CacheDefaults()
  }

  /** A shape as its util's callbacks receive it. */
  datatype Shape = Shape(id: string, props: ShapeProps)

  // ---------------------------------------------------------------------
  // Ending a text edit

  /** The partial shape handed to `editor.updateShape`: the id, the type and
      the one prop it sets. */
  datatype LabelUpdate = LabelUpdate(id: string, typeName: string, text: string)

  /** The update `onEditEnd` asks for: none when the label is already
      trimmed, otherwise the trimmed label, or the kind's default label when
      nothing but whitespace was typed. */
  function EditEndUpdate(s: Shape): (u: Option<LabelUpdate>)
    ensures u.None? <==> IsTrimmed(s.props.text)
    ensures u.Some? ==> u.value.id == s.id && u.value.typeName == TypeName(KindOf(s.props))
    ensures u.Some? ==> u.value.text != [] && IsTrimmed(u.value.text)
    ensures u.Some? && !AllWhitespace(s.props.text) ==> u.value.text == Trim(s.props.text)
    ensures u.Some? && AllWhitespace(s.props.text) ==> u.value.text == DefaultLabel(KindOf(s.props))
  {
    var trimmed := Trim(s.props.text);
    TrimFixedPoints(s.props.text);
    TrimEmpty(s.props.text);
    TrimShape(s.props.text);
    if trimmed == s.props.text then None
    else
      var text := if trimmed == "" then DefaultLabel(KindOf(s.props)) else trimmed;
      Some(LabelUpdate(s.id, TypeName(KindOf(s.props)), text))
  }

  /** tldraw's `updateShape` on the store: the shape with that id gets the
      new label and keeps everything else; an id not in the store is
      ignored. */
  function ApplyUpdate(shapes: map<string, ShapeProps>, u: LabelUpdate): (r: map<string, ShapeProps>)
    ensures r.Keys == shapes.Keys
    ensures forall id :: id in shapes && id != u.id ==> r[id] == shapes[id]
    ensures u.id in shapes ==> (KindOf(r[u.id]) == KindOf(shapes[u.id])
      && r[u.id].w == shapes[u.id].w && r[u.id].h == shapes[u.id].h
      && r[u.id].text == u.text)
    ensures u.id in shapes && shapes[u.id].DatabaseProps? ==> r[u.id].dbType == shapes[u.id].dbType
    ensures u.id in shapes && shapes[u.id].ClientProps? ==> r[u.id].clientType == shapes[u.id].clientType
  {
    if u.id in shapes then shapes[u.id := shapes[u.id].(text := u.text)] else shapes
  }

  /** The whole effect of `onEditEnd(s)` on the store. */
  function EditEnd(shapes: map<string, ShapeProps>, s: Shape): map<string, ShapeProps> {
    match EditEndUpdate(s)
    case None => shapes
    case Some(u) => ApplyUpdate(shapes, u)
  }

  /** The editor's shape store, keyed by shape id. */
  class Editor {
    var shapes: map<string, ShapeProps>

    constructor(initial: map<string, ShapeProps>)
      ensures shapes == initial
    {
      shapes := initial;
    }

    /** `editor.updateShape`. */
    method UpdateShape(u: LabelUpdate)
      modifies this
      ensures shapes == ApplyUpdate(old(shapes), u)
    {
      if u.id in shapes {
        shapes := shapes[u.id := shapes[u.id].(text := u.text)];
      }
    }
  }

  /** A shape util of one kind, bound to its editor. */
  class ShapeUtil {
    const kind: Kind
    const editor: Editor

    constructor(kind: Kind, editor: Editor)
      ensures this.kind == kind && this.editor == editor
    {
      this.kind := kind;
      this.editor := editor;
    }

    /** `getDefaultProps`. */
    function GetDefaultProps(): (p: ShapeProps)
      ensures KindOf(p) == kind && p.text == DefaultLabel(kind)
    {
      DefaultProps(kind)
    }

    /** `onEditEnd`: the util is typed by its shape, so it only sees shapes
        of its own kind. */
    method OnEditEnd(shape: Shape)
      requires KindOf(shape.props) == kind
      modifies editor
      ensures editor.shapes == EditEnd(old(editor.shapes), shape)
    {
      var trimmed := Trim(shape.props.text);
      if trimmed != shape.props.text {
        var text := if trimmed == "" then DefaultLabel(kind) else trimmed;
        editor.UpdateShape(LabelUpdate(shape.id, TypeName(kind), text));
      }
    }
  }

  // ---------------------------------------------------------------------
  // Properties of ending an edit

  /** Ending an edit changes at most the label of the edited shape, and then
      to a trimmed, non-empty label; every other shape and every other prop
      stays as it was. */
  lemma EditEndOnlyRelabels(shapes: map<string, ShapeProps>, s: Shape)
    ensures EditEnd(shapes, s).Keys == shapes.Keys
    ensures forall id :: id in shapes && id != s.id ==> EditEnd(shapes, s)[id] == shapes[id]
    ensures s.id in shapes ==>
      EditEnd(shapes, s)[s.id] == shapes[s.id].(text := EditEnd(shapes, s)[s.id].text)
    ensures s.id in shapes && EditEnd(shapes, s)[s.id] != shapes[s.id] ==>
      !IsTrimmed(s.props.text) && EditEnd(shapes, s)[s.id].text != []
      && IsTrimmed(EditEnd(shapes, s)[s.id].text)
  {
  }

  /** A label that is already trimmed, the empty label included, is left
      alone. */
  lemma TrimmedLabelUnchanged(shapes: map<string, ShapeProps>, s: Shape)
    requires Trim(s.props.text) == s.props.text
    ensures EditEnd(shapes, s) == shapes
  {
    TrimFixedPoints(s.props.text);
  }

  /** In particular an empty label stays empty: it is not replaced by the
      default. */
  lemma EmptyLabelKept(shapes: map<string, ShapeProps>, s: Shape)
    requires s.props.text == []
    ensures EditEndUpdate(s) == None && EditEnd(shapes, s) == shapes
  {
  }

  /** A label with whitespace at an end becomes its trimmed form, or the
      kind's default label when it was whitespace only. */
  lemma UntrimmedLabelCleaned(shapes: map<string, ShapeProps>, s: Shape)
    requires s.id in shapes && Trim(s.props.text) != s.props.text
    ensures EditEnd(shapes, s)[s.id].text ==
      if Trim(s.props.text) == [] then DefaultLabel(KindOf(s.props)) else Trim(s.props.text)
  {
    TrimFixedPoints(s.props.text);
    TrimEmpty(s.props.text);
  }

  /** Ending the edit again on the shape as the first call left it changes
      nothing more. */
  lemma EditEndSettles(shapes: map<string, ShapeProps>, s: Shape)
    requires s.id in shapes
    ensures EditEndUpdate(s).Some? ==> EditEndUpdate(Shape(s.id, EditEnd(shapes, s)[s.id])).None?
    ensures shapes[s.id] == s.props ==>
      EditEnd(EditEnd(shapes, s), Shape(s.id, EditEnd(shapes, s)[s.id])) == EditEnd(shapes, s)
  {
    var r := EditEnd(shapes, s);
    if EditEndUpdate(s).Some? {
      assert IsTrimmed(r[s.id].text);
    } else {
      assert r == shapes;
    }
  }

  /** A freshly created shape already has a clean label. */
  lemma DefaultsAreStable(shapes: map<string, ShapeProps>, id: string, k: Kind)
    ensures EditEndUpdate(Shape(id, DefaultProps(k))).None?
    ensures EditEnd(shapes, Shape(id, DefaultProps(k))) == shapes
  {
  }

  // ---------------------------------------------------------------------
  // Shapes as the extractor sees them

  /** The props of a shape as the store's property bag, in declaration
      order. */
  function PropsOf(p: ShapeProps): (r: Props)
    ensures |r| >= 2 && r[0] == ("w", Num(p.w)) && r[1] == ("h", Num(p.h))
    ensures r[|r| - 1] == ("label", Str(p.text))
  {
    match p
    case DatabaseProps(w, h, t, text) =>
      [("w", Num(w)), ("h", Num(h)), ("dbType", Str(DbTypeName(t))), ("label", Str(text))]
    case ClientProps(w, h, t, text) =>
      [("w", Num(w)), ("h", Num(h)), ("clientType", Str(ClientTypeName(t))), ("label", Str(text))]
    case LoadBalancerProps(w, h, text) => [("w", Num(w)), ("h", Num(h)), ("label", Str(text))]
    case ServerProps(w, h, text) => [("w", Num(w)), ("h", Num(h)), ("label", Str(text))]
    case CacheProps(w, h, text) => [("w", Num(w)), ("h", Num(h)), ("label", Str(text))]
  }

  /** A shape in the store: a `shape` record whose `type` is its util's. */
  function RecordOf(s: Shape): StoreRecord {
    StoreRecord(s.id, "shape", Some(TypeName(KindOf(s.props))), Some(PropsOf(s.props)), None, None)
  }

  /** The size entries are visual and the rest are not. */
  lemma SizeIsVisual(p: ShapeProps)
    ensures forall e :: e in PropsOf(p)[..2] ==> !IsSemantic(e)
    ensures forall e :: e in PropsOf(p)[2..] ==> IsSemantic(e)
  {
    assert "w" in VisualProps && "h" in VisualProps;
    assert "label" !in VisualProps && "dbType" !in VisualProps && "clientType" !in VisualProps;
  }

  /** Stripping the visual props of a shape leaves its enum and label. */
  lemma SemanticPropsOf(p: ShapeProps)
    ensures SemanticProps(PropsOf(p)) == PropsOf(p)[2..]
  {
    var props := PropsOf(p);
    assert props == props[..2] + props[2..];
    SizeIsVisual(p);
    FilterAppend(IsSemantic, props[..2], props[2..]);
    FilterAllOrNone(IsSemantic, props[..2]);
    FilterAllOrNone(IsSemantic, props[2..]);
  }

  /** Every custom shape becomes a node of its own type whose props are its
      label and, for a database or a client, its enum, but never its size. */
  lemma ShapeBecomesNode(s: Shape)
    ensures IsNodeRecord(RecordOf(s))
    ensures NodeOf(RecordOf(s)) == GraphNode(s.id, TypeName(KindOf(s.props)), PropsOf(s.props)[2..])
  {
    SemanticPropsOf(s.props);
  }
}
