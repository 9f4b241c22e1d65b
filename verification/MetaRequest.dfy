/** The requests the swath, grid and point interfaces make, the strings they
    pass to EHinsertmeta when none of their own buffers cuts them (MetaCallers has
    the buffers), and what each request means on the tree. */
module MetaRequest {
  import opened CText
  import opened ListText
  import opened OdlLines
  import opened MetaTree
  import opened MetaEdit

  datatype Request =
    | Create(kind: Kind, id: int, name: string, params: seq<Attr>)
    | AddParams(kind: Kind, name: string, params: seq<Attr>)
    | AddEntry(kind: Kind, name: string, entry: Entry)
    | AddPointField(name: string, level: string, field: PField)

  // ------------------------------------------------------ the caller's strings

  /** The compression and tiling text of a field: each line starts with its newline. */
  function ExtraText(xs: seq<Attr>): string {
    if xs == [] then "" else "\n\t\t\t\t" + xs[0].key + "=" + xs[0].val + ExtraText(xs[1..])
  }

  function FieldHead(name: string, dims: seq<string>): string { name + ":" + Join(dims, ',') }

  function ExtraPart(xs: seq<Attr>): string { if xs == [] then "" else ":" + ExtraText(xs) }

  function FieldMeta(name: string, dims: seq<string>, extra: seq<Attr>): string { FieldHead(name, dims) + ExtraPart(extra) }

  function EmptyGroup(g: string): string {
    Row("\t\tGROUP=", g) + Row("\t\tEND_GROUP=", g)
  }

  function EmptyGroups(gs: seq<string>): string {
    if gs == [] then "" else EmptyGroup(gs[0]) + EmptyGroups(gs[1..])
  }

  /** The text SWcreate, GDcreate and PTcreate build for a new structure. */
  function CreateText(r: Request): string
    requires r.Create?
  {
    match r.kind
    case Swath =>
      Row("\tGROUP=SWATH_", Dec(r.id)) + Row("\t\tSwathName=\"", r.name + "\"") + Text(AttrLines(2, r.params))
      + EmptyGroups(["Dimension", "DimensionMap", "IndexDimensionMap", "GeoField", "DataField", "MergedFields"])
      + Row("\tEND_GROUP=SWATH_", Dec(r.id))
    case Grid =>
      Row("\tGROUP=GRID_", Dec(r.id)) + Row("\t\tGridName=\"", r.name + "\"") + Text(AttrLines(2, r.params))
      + EmptyGroups(["Dimension", "DataField", "MergedFields"])
      + Row("\tEND_GROUP=GRID_", Dec(r.id))
    case Point =>
      Row("\tGROUP=POINT_", Dec(r.id)) + Row("\t\tPointName=\"", r.name + "\"") + Text(AttrLines(2, r.params))
      + EmptyGroups(["Level", "LevelLink"])
      + Row("\tEND_GROUP=POINT_", Dec(r.id))
  }

  function EntryCall(k: Kind, s: string, e: Entry): Call {
    match e
    case Dimension(n, z) => Call(s, k, 0, n, [z])
    case DimensionMap(g, d, o, i) => Call(s, k, 1, g + "/" + d, [o, i])
    case IndexMap(g, d) => Call(s, k, 2, g + "/" + d, [])
    case GeoField(n, t, ds, x) => Call(s, k, 3, FieldMeta(n, ds, x), [t])
    case DataField(n, t, ds, x) => Call(s, k, 4, FieldMeta(n, ds, x), [t])
    case Merged(n, ms) => Call(s, k, 6, n + ":" + Join(ms, ','), [])
    case Level(n, _) => Call(s, k, 10, n, [])
    case LevelLink(p, c, l) => Call(s, k, 12, p + "/" + c + ":" + l, [])
  }

  function CallOf(r: Request): Call {
    match r
    case Create(k, _, _, _) =>
      Call("", k, match k case Swath => 1001 case Grid => 1002 case Point => 1003, CreateText(r), [])
    case AddParams(k, s, ps) => Call(s, k, 101, Text(AttrLines(2, ps)), [])
    case AddEntry(k, s, e) => EntryCall(k, s, e)
    case AddPointField(s, l, p) => Call(s, Point, 11, p.name + ":" + l, [p.ntype, p.order])
  }

  /** The documented limit on the length of a name. */
  const MAX_NAME: nat := 64

  /** A name that can be looked for; a closing parenthesis alone could be taken for
      the end of a list. */
  predicate SearchName(n: string) { NameOk(n) && |n| <= MAX_NAME && n != ")" }

  /** A request with names the format can carry; a level is created empty. */
  predicate RequestOk(r: Request) {
    match r
    case Create(k, _, n, ps) => NameOk(n) && AttrsOk(ps)
    case AddParams(k, n, ps) => SearchName(n) && AttrsOk(ps) && k != Point
    case AddEntry(k, n, e) => SearchName(n) && EntryOk(e) && GroupOf(e) in Schema(k) && (e.Level? ==> e.fields == [])
    case AddPointField(n, l, p) => SearchName(n) && SearchName(l) && PFieldOk(p)
  }

  // ------------------------------------------------------------ on the tree

  function NewStruct(r: Request): Struct
    requires r.Create?
  {
    Struct(r.id, r.name, r.params, seq(|Schema(r.kind)|, _ => []))
  }

  function FirstLevel(es: seq<Entry>, level: string): (r: Ptr)
    ensures r.At? ==> r.pos < |es| && es[r.pos].Level? && level <= es[r.pos].name
    ensures r.At? ==> forall j | 0 <= j < r.pos :: es[j].Level? ==> !(level <= es[j].name)
    ensures r.Null? ==> forall e <- es :: e.Level? ==> !(level <= e.name)
  {
    if es == [] then Null
    else if es[0].Level? && level <= es[0].name then At(0)
    else match FirstLevel(es[1..], level) case Null => Null case At(i) => At(i + 1)
  }

  /** The structure with the request carried out; None when it has no place. */
  function EditStruct(s: Struct, r: Request): Option<Struct>
    requires !r.Create?
    requires r.AddEntry? ==> |s.groups| == |Schema(r.kind)|
  {
    match r
    case AddParams(_, _, ps) => Some(s.(params := s.params + ps))
    case AddEntry(k, _, e) =>
      (match GroupIndex(Schema(k), GroupOf(e))
       case Null => None
       case At(g) => Some(AppendEntry(s, g, e)))
    case AddPointField(_, l, p) =>
      if s.groups == [] then None else
      match FirstLevel(s.groups[0], l)
      case Null => None
      case At(j) => Some(s.(groups := s.groups[0 := AddField(s.groups[0], j, p)]))
  }

  function AddField(es: seq<Entry>, j: nat, p: PField): seq<Entry>
    requires j < |es| && es[j].Level?
  {
    es[j := es[j].(fields := es[j].fields + [p])]
  }

  function KindOf(r: Request): Kind {
    if r.AddPointField? then Point else r.kind
  }

  /** Append the new element as the last child of its parent; the parent is the
      first whose name starts with the requested one. */
  function Apply(f: MetaFile, r: Request): Option<MetaFile>
    requires WellShaped(f)
  {
    var k := KindOf(r);
    assert Schematic(k, f.Of(k));
    if r.Create? then Some(f.With(k, f.Of(k) + [NewStruct(r)]))
    else match FirstStruct(f.Of(k), r.name)
      case Null => None
      case At(i) =>
        match EditStruct(f.Of(k)[i], r)
        case None => None
        case Some(s) => Some(f.With(k, f.Of(k)[i := s]))
  }
}
