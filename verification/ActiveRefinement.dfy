/** The holder of shared maps and slices and the holder of values that the service runs on: to their callers
    they are the same, because of the copies. */
module ActiveRefinement {
  import opened Json
  import opened ActiveCatalog
  import Records
  import Service

  /** The catalog as a value, with what the service reads of it. */
  function ValueOf(content: CatalogContent): Records.Catalog {
    Records.Catalog(content.catalogId, content.version,
                    if content.commands.Some? then content.commands.value else [],
                    if content.raw.Some? then content.raw.value else [],
                    content.contentHash, content.objectId)
  }

  /** The type index is that of the commands, as `Load` makes it. */
  predicate IsIndexed(content: CatalogContent) {
    content.byType == Some(Records.ByType(ValueOf(content).commands))
  }

  /** Both hold the same catalog, or none; commands are looked up in its index. */
  ghost predicate Agree(held: Active, value: Service.Active)
    reads held, held.footprint, value
  {
    && held.Valid()
    && value.Get() == (if held.ready then Some(ValueOf(held.content)) else None)
    && (held.ready ==> IsIndexed(held.content))
  }

  method Fresh() returns (held: Active, value: Service.Active)
    ensures Agree(held, value) && fresh(held) && fresh(value) && held.footprint == {}
  {
    held := new Active();
    value := new Service.Active();
  }

  /** Setting keeps them agreed, whatever the owner of the catalog writes to it afterwards. */
  method Set(held: Active, value: Service.Active, c: HeapCatalog, catalog: Records.Catalog,
             ghost content: CatalogContent, ghost fp: set<object>)
    requires Agree(held, value) && Holds(c, content, fp) && catalog == ValueOf(content) && IsIndexed(content)
    requires held !in fp && value !in fp
    modifies held, value, fp
    ensures Agree(held, value) && value.Get() == Some(catalog) && fresh(held.footprint)
  {
    held.Set(c, content, fp);
    value.Set(catalog);
    modify fp;
  }

  method Clear(held: Active, value: Service.Active)
    requires Agree(held, value)
    modifies held, value
    ensures Agree(held, value) && value.Get() == None
  {
    held.Clear();
    value.Clear();
  }

  /** What `Get` hands out is what the value holder has, whatever a former receiver wrote to its own copy. */
  method Get(held: Active, value: Service.Active)
    returns (c: HeapCatalog, ok: bool, ghost content: CatalogContent, ghost mine: set<object>)
    requires Agree(held, value)
    ensures Agree(held, value) && fresh(mine)
    ensures value.Get() == if ok then Some(ValueOf(content)) else None
    ensures ok ==> Holds(c, content, mine) && IsIndexed(content)
  {
    var former, there, f := held.Get();
    modify f;
    c, ok, mine := held.Get();
    content := held.content;
  }
}
