/** The active catalog as it sits in memory: a struct whose maps and slices are shared by reference, and
    the deep copies `Active` takes and hands out. */
module ActiveCatalog {
  import opened Json
  import opened ObjectFiles
  import Records

  /** A map[string]any. */
  class JsonObject {
    var fields: map<string, Any>

    constructor ()
      ensures fields == map[]
    {
      fields := map[];
    }
  }

  /** Go's `any`, as `json.Unmarshal` fills it. */
  datatype Any = Nil | Truth(b: bool) | Number(x: real) | Text(s: string) | List(a: array<Any>) | Dict(m: JsonObject)

  /** The value is the decoded tree `t`, built from the objects in `fp`. */
  ghost predicate Represents(v: Any, t: Value, fp: set<object>)
    reads fp
    decreases t
  {
    match t
    case Null => v == Nil
    case Bool(b) => v == Truth(b)
    case Float(x) => v == Number(x)
    case Str(s) => v == Text(s)
    case Arr(items) =>
      && v.List? && v.a in fp && v.a.Length == |items|
      && forall i | 0 <= i < |items| :: Represents(v.a[i], items[i], fp)
    case Obj(fields) =>
      && v.Dict? && v.m in fp && v.m.fields.Keys == fields.Keys
      && forall k | k in fields :: Represents(v.m.fields[k], fields[k], fp)
    case _ => false
  }

  lemma {:induction false} Widen(v: Any, t: Value, fp: set<object>, wider: set<object>)
    requires Represents(v, t, fp) && fp <= wider
    ensures Represents(v, t, wider)
    decreases t
  {
    match t
    case Arr(items) =>
      forall i | 0 <= i < |items| ensures Represents(v.a[i], items[i], wider) {
        Widen(v.a[i], items[i], fp, wider);
      }
    case Obj(fields) =>
      forall k | k in fields ensures Represents(v.m.fields[k], fields[k], wider) {
        Widen(v.m.fields[k], fields[k], fp, wider);
      }
    case _ =>
  }

  /** A graph represents one tree only, so equal trees mean structurally equal graphs. */
  lemma {:induction false} TreeIsUnique(v: Any, t: Value, u: Value, fp: set<object>, fp': set<object>)
    requires Represents(v, t, fp) && Represents(v, u, fp')
    ensures t == u
    decreases t
  {
    match t
    case Arr(items) =>
      forall i | 0 <= i < |items| ensures items[i] == u.items[i] {
        TreeIsUnique(v.a[i], items[i], u.items[i], fp, fp');
      }
    case Obj(fields) =>
      forall k | k in fields ensures fields[k] == u.fields[k] {
        TreeIsUnique(v.m.fields[k], fields[k], u.fields[k], fp, fp');
      }
    case _ =>
  }

  // ---------------------------------------------------------------- cloning values

  /** `cloneJSONValue`: the same tree out of new objects. */
  method CloneValue(v: Any, ghost t: Value, ghost fp: set<object>) returns (out: Any, ghost mine: set<object>)
    requires Represents(v, t, fp)
    ensures fresh(mine) && Represents(out, t, mine)
    decreases t, 1
  {
    match v {
      case Dict(m) =>
        var copy;
        copy, mine := CloneMap(m, t, fp);
        out := Dict(copy);
      case List(a) =>
        var copy;
        copy, mine := CloneList(a, t, fp);
        out := List(copy);
      case _ =>
        out, mine := v, {};
    }
  }

  method CloneList(a: array<Any>, ghost t: Value, ghost fp: set<object>)
    returns (out: array<Any>, ghost mine: set<object>)
    requires t.Arr? && Represents(List(a), t, fp)
    ensures fresh(mine) && Represents(List(out), t, mine)
    decreases t, 0
  {
    out := new Any[a.Length](_ => Nil);
    ghost var kids: set<object> := {};
    for i := 0 to a.Length
      invariant fresh(kids) && out !in kids && fresh(out)
      invariant forall j | 0 <= j < i :: Represents(out[j], t.items[j], kids)
    {
      var e, more := CloneValue(a[i], t.items[i], fp);
      forall j | 0 <= j < i ensures Represents(out[j], t.items[j], kids + more) {
        Widen(out[j], t.items[j], kids, kids + more);
      }
      Widen(e, t.items[i], more, kids + more);
      kids := kids + more;
      out[i] := e;
    }
    mine := kids + {out};
    forall j | 0 <= j < |t.items| ensures Represents(out[j], t.items[j], mine) {
      Widen(out[j], t.items[j], kids, mine);
    }
  }

  /** `cloneJSONMap` of a map that is there. */
  method CloneMap(m: JsonObject, ghost t: Value, ghost fp: set<object>)
    returns (out: JsonObject, ghost mine: set<object>)
    requires t.Obj? && Represents(Dict(m), t, fp)
    ensures fresh(mine) && Represents(Dict(out), t, mine)
    decreases t, 0
  {
    out := new JsonObject();
    ghost var kids: set<object> := {};
    var todo := m.fields.Keys;
    while todo != {}
      invariant todo <= m.fields.Keys && fresh(kids) && out !in kids && fresh(out)
      invariant out.fields.Keys == m.fields.Keys - todo
      invariant forall k | k in out.fields :: Represents(out.fields[k], t.fields[k], kids)
      decreases |todo|
    {
      var k :| k in todo;
      todo := todo - {k};
      var e, more := CloneValue(m.fields[k], t.fields[k], fp);
      forall j | j in out.fields ensures Represents(out.fields[j], t.fields[j], kids + more) {
        Widen(out.fields[j], t.fields[j], kids, kids + more);
      }
      Widen(e, t.fields[k], more, kids + more);
      kids := kids + more;
      out.fields := out.fields[k := e];
    }
    mine := kids + {out};
    forall k | k in t.fields ensures Represents(out.fields[k], t.fields[k], mine) {
      Widen(out.fields[k], t.fields[k], kids, mine);
    }
  }

  // ---------------------------------------------------------------- cloning catalogs

  /** `schema` is nil for a command without one. */
  datatype HeapCommand = HeapCommand(typ: string, displayName: string, description: string, schema: JsonObject?)

  class TypeIndex {
    var commands: map<string, HeapCommand>

    constructor ()
      ensures commands == map[]
    {
      commands := map[];
    }
  }

  /** The Catalog struct; its four reference fields may be nil. */
  datatype HeapCatalog = HeapCatalog(catalogId: string, version: string, contentHash: string, objectId: string,
                                     commands: array?<HeapCommand>, metadata: JsonObject?, raw: array?<Byte>,
                                     byType: TypeIndex?)

  /** All that can be read out of a catalog. */
  datatype CatalogContent = CatalogContent(catalogId: string, version: string, contentHash: string, objectId: string,
                                           commands: Option<seq<Records.Command>>, metadata: Option<JsonMap>,
                                           raw: Option<Bytes>, byType: Option<map<string, Records.Command>>)

  ghost predicate MapHolds(m: JsonObject?, content: Option<JsonMap>, fp: set<object>)
    reads fp
  {
    match content
    case None => m == null
    case Some(fields) => m != null && Represents(Dict(m), Obj(fields), fp)
  }

  ghost predicate CommandHolds(c: HeapCommand, content: Records.Command, fp: set<object>)
    reads fp
  {
    && c.typ == content.typ && c.displayName == content.displayName && c.description == content.description
    && MapHolds(c.schema, content.schema, fp)
  }

  ghost predicate CommandsHold(a: array?<HeapCommand>, content: Option<seq<Records.Command>>, fp: set<object>)
    reads fp
  {
    match content
    case None => a == null
    case Some(commands) =>
      && a != null && a in fp && a.Length == |commands|
      && forall i | 0 <= i < |commands| :: CommandHolds(a[i], commands[i], fp)
  }

  ghost predicate RawHolds(a: array?<Byte>, content: Option<Bytes>, fp: set<object>)
    reads fp
  {
    match content
    case None => a == null
    case Some(raw) => a != null && a in fp && a[..] == raw
  }

  ghost predicate IndexHolds(x: TypeIndex?, content: Option<map<string, Records.Command>>, fp: set<object>)
    reads fp
  {
    match content
    case None => x == null
    case Some(byType) =>
      && x != null && x in fp && x.commands.Keys == byType.Keys
      && EntriesHold(x.commands, byType, fp)
  }

  /** The catalog has this content, and all its maps and slices are in `fp`. */
  ghost predicate Holds(c: HeapCatalog, content: CatalogContent, fp: set<object>)
    reads fp
  {
    && c.catalogId == content.catalogId && c.version == content.version
    && c.contentHash == content.contentHash && c.objectId == content.objectId
    && CommandsHold(c.commands, content.commands, fp) && MapHolds(c.metadata, content.metadata, fp)
    && RawHolds(c.raw, content.raw, fp) && IndexHolds(c.byType, content.byType, fp)
  }

  lemma WidenMap(m: JsonObject?, content: Option<JsonMap>, fp: set<object>, wider: set<object>)
    requires MapHolds(m, content, fp) && fp <= wider
    ensures MapHolds(m, content, wider)
  {
    if content.Some? {
      Widen(Dict(m), Obj(content.value), fp, wider);
    }
  }

  lemma WidenCommand(c: HeapCommand, content: Records.Command, fp: set<object>, wider: set<object>)
    requires CommandHolds(c, content, fp) && fp <= wider
    ensures CommandHolds(c, content, wider)
  {
    WidenMap(c.schema, content.schema, fp, wider);
  }

  ghost predicate EntriesHold(m: map<string, HeapCommand>, content: map<string, Records.Command>, fp: set<object>)
    requires m.Keys <= content.Keys
    reads fp
  {
    forall k | k in m :: CommandHolds(m[k], content[k], fp)
  }

  ghost predicate PrefixHolds(s: seq<HeapCommand>, content: seq<Records.Command>, fp: set<object>)
    requires |s| <= |content|
    reads fp
  {
    forall i | 0 <= i < |s| :: CommandHolds(s[i], content[i], fp)
  }

  lemma OneMoreCommand(s: seq<HeapCommand>, content: seq<Records.Command>, fp: set<object>, c: HeapCommand, more: set<object>)
    requires |s| < |content| && PrefixHolds(s, content, fp) && CommandHolds(c, content[|s|], more)
    ensures PrefixHolds(s + [c], content, fp + more)
  {
    forall j | 0 <= j < |s| ensures CommandHolds(s[j], content[j], fp + more) {
      WidenCommand(s[j], content[j], fp, fp + more);
    }
    WidenCommand(c, content[|s|], more, fp + more);
  }

  lemma OneMoreEntry(m: map<string, HeapCommand>, content: map<string, Records.Command>, fp: set<object>,
                     k: string, c: HeapCommand, more: set<object>)
    requires m.Keys <= content.Keys && EntriesHold(m, content, fp)
    requires k in content && CommandHolds(c, content[k], more)
    ensures EntriesHold(m[k := c], content, fp + more)
  {
    forall j | j in m ensures CommandHolds(m[j], content[j], fp + more) {
      WidenCommand(m[j], content[j], fp, fp + more);
    }
    WidenCommand(c, content[k], more, fp + more);
  }

  method CloneNullableMap(m: JsonObject?, ghost content: Option<JsonMap>, ghost fp: set<object>)
    returns (out: JsonObject?, ghost mine: set<object>)
    requires MapHolds(m, content, fp)
    ensures fresh(mine) && MapHolds(out, content, mine)
  {
    if m == null {
      return null, {};
    }
    out, mine := CloneMap(m, Obj(content.value), fp);
  }

  method CloneCommand(c: HeapCommand, ghost content: Records.Command, ghost fp: set<object>)
    returns (out: HeapCommand, ghost mine: set<object>)
    requires CommandHolds(c, content, fp)
    ensures fresh(mine) && CommandHolds(out, content, mine)
  {
    var schema;
    schema, mine := CloneNullableMap(c.schema, content.schema, fp);
    out := c.(schema := schema);
  }

  method CloneCommands(a: array?<HeapCommand>, ghost content: Option<seq<Records.Command>>, ghost fp: set<object>)
    returns (out: array?<HeapCommand>, ghost mine: set<object>)
    requires CommandsHold(a, content, fp)
    ensures fresh(mine) && CommandsHold(out, content, mine)
  {
    if a == null {
      return null, {};
    }
    var copy := new HeapCommand[a.Length](_ => HeapCommand("", "", "", null));
    ghost var kids: set<object> := {};
    for i := 0 to a.Length
      invariant fresh(kids) && copy !in kids && fresh(copy)
      invariant PrefixHolds(copy[..i], content.value, kids)
    {
      var c, more := CloneCommand(a[i], content.value[i], fp);
      OneMoreCommand(copy[..i], content.value, kids, c, more);
      kids := kids + more;
      ghost var taken := copy[..i];
      copy[i] := c;
      assert copy[..i + 1] == taken + [c];
    }
    assert copy[..] == copy[..a.Length];
    out, mine := copy, kids + {copy};
    forall j | 0 <= j < |content.value| ensures CommandHolds(copy[j], content.value[j], mine) {
      WidenCommand(copy[j], content.value[j], kids, mine);
    }
  }

  lemma WidenEntries(m: map<string, HeapCommand>, content: map<string, Records.Command>, fp: set<object>, wider: set<object>)
    requires m.Keys <= content.Keys && EntriesHold(m, content, fp) && fp <= wider
    ensures EntriesHold(m, content, wider)
  {
    forall k | k in m ensures CommandHolds(m[k], content[k], wider) {
      WidenCommand(m[k], content[k], fp, wider);
    }
  }

  method CloneIndex(x: TypeIndex?, ghost content: Option<map<string, Records.Command>>, ghost fp: set<object>)
    returns (out: TypeIndex?, ghost mine: set<object>)
    requires IndexHolds(x, content, fp)
    ensures fresh(mine) && IndexHolds(out, content, mine)
  {
    if x == null {
      return null, {};
    }
    var copy := new TypeIndex();
    ghost var kids: set<object> := {};
    var todo := x.commands.Keys;
    while todo != {}
      invariant todo <= x.commands.Keys && fresh(kids) && copy !in kids && fresh(copy)
      invariant copy.commands.Keys == x.commands.Keys - todo
      invariant EntriesHold(copy.commands, content.value, kids)
      decreases |todo|
    {
      var k :| k in todo;
      todo := todo - {k};
      var c, more := CloneCommand(x.commands[k], content.value[k], fp);
      OneMoreEntry(copy.commands, content.value, kids, k, c, more);
      kids := kids + more;
      copy.commands := copy.commands[k := c];
    }
    out, mine := copy, kids + {copy};
    WidenEntries(copy.commands, content.value, kids, mine);
  }

  method CloneRaw(a: array?<Byte>, ghost content: Option<Bytes>, ghost fp: set<object>)
    returns (out: array?<Byte>, ghost mine: set<object>)
    requires RawHolds(a, content, fp)
    ensures fresh(mine) && RawHolds(out, content, mine)
  {
    if a == null {
      return null, {};
    }
    var copy := new Byte[a.Length](_ => 0);
    for i := 0 to a.Length
      invariant copy[..i] == a[..i]
    {
      copy[i] := a[i];
    }
    assert copy[..] == a[..];
    out, mine := copy, {copy};
  }

  lemma WidenCatalog(c: HeapCatalog, content: CatalogContent, f1: set<object>, f2: set<object>, f3: set<object>, f4: set<object>)
    requires c.catalogId == content.catalogId && c.version == content.version
    requires c.contentHash == content.contentHash && c.objectId == content.objectId
    requires CommandsHold(c.commands, content.commands, f1) && MapHolds(c.metadata, content.metadata, f2)
    requires RawHolds(c.raw, content.raw, f3) && IndexHolds(c.byType, content.byType, f4)
    ensures Holds(c, content, f1 + f2 + f3 + f4)
  {
    var fp := f1 + f2 + f3 + f4;
    if content.commands.Some? {
      forall i | 0 <= i < |content.commands.value| ensures CommandHolds(c.commands[i], content.commands.value[i], fp) {
        WidenCommand(c.commands[i], content.commands.value[i], f1, fp);
      }
    }
    WidenMap(c.metadata, content.metadata, f2, fp);
    if content.byType.Some? {
      forall k | k in content.byType.value ensures CommandHolds(c.byType.commands[k], content.byType.value[k], fp) {
        WidenCommand(c.byType.commands[k], content.byType.value[k], f4, fp);
      }
    }
  }

  /** `Clone`: the same content, sharing no map and no slice with the original. */
  method Clone(c: HeapCatalog, ghost content: CatalogContent, ghost fp: set<object>)
    returns (out: HeapCatalog, ghost mine: set<object>)
    requires Holds(c, content, fp)
    ensures fresh(mine) && Holds(out, content, mine)
  {
    var commands, f1 := CloneCommands(c.commands, content.commands, fp);
    var metadata, f2 := CloneNullableMap(c.metadata, content.metadata, fp);
    var raw, f3 := CloneRaw(c.raw, content.raw, fp);
    var byType, f4 := CloneIndex(c.byType, content.byType, fp);
    out := c.(commands := commands, metadata := metadata, raw := raw, byType := byType);
    mine := f1 + f2 + f3 + f4;
    WidenCatalog(out, content, f1, f2, f3, f4);
  }

  // ---------------------------------------------------------------- the active catalog

  class Active {
    var ready: bool
    var catalog: HeapCatalog
    ghost var content: CatalogContent
    ghost var footprint: set<object>

    constructor ()
      ensures !ready && Valid() && footprint == {}
    {
      ready := false;
      catalog := HeapCatalog("", "", "", "", null, null, null, null);
      content := CatalogContent("", "", "", "", None, None, None, None);
      footprint := {};
    }

    ghost predicate Valid()
      reads this, footprint
    {
      this !in footprint && Holds(catalog, content, footprint)
    }

    method Keep(c: HeapCatalog, ghost content: CatalogContent, ghost fp: set<object>)
      requires Holds(c, content, fp) && this !in fp
      modifies this
      ensures Valid() && ready && this.content == content && footprint == fp
    {
      catalog, ready, this.content, footprint := c, true, content, fp;
      assert Holds(c, content, fp);
    }

    /** `Set` keeps a copy of its own. */
    method Set(c: HeapCatalog, ghost content: CatalogContent, ghost fp: set<object>)
      requires Holds(c, content, fp)
      modifies this
      ensures Valid() && ready && this.content == content && fresh(footprint)
    {
      var copy, mine := Clone(c, content, fp);
      Keep(copy, content, mine);
    }

    method Clear()
      modifies this
      ensures Valid() && !ready && footprint == {}
    {
      ready, catalog := false, HeapCatalog("", "", "", "", null, null, null, null);
      content, footprint := CatalogContent("", "", "", "", None, None, None, None), {};
    }

    /** `Get` hands out a copy. */
    method Get() returns (c: HeapCatalog, ok: bool, ghost mine: set<object>)
      requires Valid()
      ensures ok == ready && fresh(mine)
      ensures ok ==> Holds(c, content, mine)
    {
      if !ready {
        return HeapCatalog("", "", "", "", null, null, null, null), false, {};
      }
      c, mine := Clone(catalog, content, footprint);
      ok := true;
    }
  }

  /** Whatever the owner of a catalog does to it after `Set`, a later `Get` shows the content that was set. */
  method WritesAfterSetStayOut(active: Active, c: HeapCatalog, ghost content: CatalogContent, ghost fp: set<object>)
    returns (got: HeapCatalog, ghost mine: set<object>)
    requires active.Valid() && Holds(c, content, fp) && active !in fp
    modifies active, fp
    ensures active.Valid() && active.content == content && Holds(got, content, mine)
  {
    active.Set(c, content, fp);
    modify fp;
    var ok;
    got, ok, mine := active.Get();
  }

  /** Whatever one caller of `Get` does to its copy, another's copy and later calls are as before. */
  method WritesAfterGetStayOut(active: Active)
    returns (second: HeapCatalog, third: HeapCatalog, ghost f2: set<object>, ghost f3: set<object>)
    requires active.Valid() && active.ready
    ensures Holds(second, active.content, f2) && Holds(third, active.content, f3) && f2 !! f3
  {
    var first, ok, f1 := active.Get();
    second, ok, f2 := active.Get();
    modify f1;
    third, ok, f3 := active.Get();
  }
}
