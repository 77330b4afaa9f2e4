/** The merges applied to stored JSON: the shallow merge of named sections, and the merge a task
    gets once it has left pending, which may only touch progress, result and error. */
module TaskJson {
  import opened Json

  const REPORTABLE: set<string> := {"progress", "result", "error"}

  datatype MergeResult = Merged(json: JsonMap) | Immutable | InvalidType

  // ---------------------------------------------------------------- MergeNamedSections

  /** A patched key takes the patch's value, or goes away if that is null; others stay. */
  function WithSections(base: JsonMap, patch: JsonMap): JsonMap {
    map k | k in base.Keys + patch.Keys && (k in patch ==> patch[k] != Null) ::
      if k in patch then patch[k] else base[k]
  }

  /** Key by key: what the patch names has its value, or is gone if that is null; the rest is as it was. */
  ghost predicate IsPatched(base: JsonMap, patch: JsonMap, out: JsonMap) {
    && (forall k | k in patch && patch[k] != Null :: k in out && out[k] == patch[k])
    && (forall k | k in patch && patch[k] == Null :: k !in out)
    && (forall k | k !in patch :: (k in out <==> k in base) && (k in base ==> out[k] == base[k]))
  }

  lemma SectionsArePatched(base: JsonMap, patch: JsonMap, out: JsonMap)
    ensures IsPatched(base, patch, out) <==> out == WithSections(base, patch)
  {
    if IsPatched(base, patch, out) {
      var all := WithSections(base, patch);
      assert forall k :: k in out <==> k in all;
      assert out.Keys == all.Keys;
    }
  }

  method MergeNamedSections(base: JsonMap, patch: JsonMap) returns (out: JsonMap)
    ensures out == WithSections(base, patch) && IsPatched(base, patch, out)
  {
    out := base;
    var todo := patch.Keys;
    while todo != {}
      invariant todo <= patch.Keys
      invariant out == WithSections(base, map k | k in patch && k !in todo :: patch[k])
    {
      var key :| key in todo;
      todo := todo - {key};
      if patch[key] == Null {
        out := out - {key};
      } else {
        out := out[key := patch[key]];
      }
    }
    assert patch == map k | k in patch && k !in todo :: patch[k];
    SectionsArePatched(base, patch, out);
  }

  /** A later patch overrides an earlier one, deletions included; so repeating one changes nothing. */
  lemma SectionsCompose(base: JsonMap, p: JsonMap, q: JsonMap)
    ensures WithSections(WithSections(base, p), q) == WithSections(base, p + q)
    ensures WithSections(WithSections(base, p), p) == WithSections(base, p)
  {
  }

  // ---------------------------------------------------------------- the restricted merge

  function ComponentsOf(json: JsonMap): Option<JsonMap> {
    if Lookup(json, "components").Obj? then Some(json["components"].fields) else None
  }

  /** `mergeTaskComponentsOnlyProgressResultError` and the empty-patch test before it. */
  function Restricted(current: JsonMap, patch: JsonMap): MergeResult {
    if patch == map[] then Merged(current)
    else if patch.Keys != {"components"} then Immutable
    else if !patch["components"].Obj? then InvalidType
    else if Lookup(current, "components") != Null && ComponentsOf(current).None? then InvalidType
    else if !(patch["components"].fields.Keys <= REPORTABLE) then Immutable
    else Merged(current["components" := Obj(ComponentsOf(current).GetOr(map[]) + patch["components"].fields)])
  }

  /** The patches a task takes out of pending: none, or one that names components only, and of them only the
      three reports; and the task's own components, if it has any, are an object. */
  predicate ReportsOnly(current: JsonMap, patch: JsonMap) {
    patch == map[]
    || (&& (forall k | k in patch :: k == "components") && "components" in patch && patch["components"].Obj?
        && (forall k | k in patch["components"].fields :: k == "progress" || k == "result" || k == "error")
        && ("components" in current ==> current["components"].Obj? || current["components"].Null?))
  }

  function ComponentsIn(json: JsonMap): JsonMap {
    if "components" in json && json["components"].Obj? then json["components"].fields else map[]
  }

  /** What is left then: each reported component has the patch's value, each other one is as it was, and so is
      all else; without a patch nothing changes. */
  ghost predicate StoresReports(current: JsonMap, patch: JsonMap, out: JsonMap) {
    if patch == map[] then out == current
    else
      && "components" in out && out["components"].Obj?
      && (forall k | k in ComponentsIn(patch) ::
            k in out["components"].fields && out["components"].fields[k] == ComponentsIn(patch)[k])
      && (forall k | k !in ComponentsIn(patch) ::
            && (k in out["components"].fields <==> k in ComponentsIn(current))
            && (k in ComponentsIn(current) ==> out["components"].fields[k] == ComponentsIn(current)[k]))
      && (forall k | k != "components" :: (k in out <==> k in current) && (k in current ==> out[k] == current[k]))
  }

  lemma ReportsAreMerged(current: JsonMap, patch: JsonMap)
    ensures Restricted(current, patch).Merged? <==> ReportsOnly(current, patch)
  {
    if ReportsOnly(current, patch) && patch != map[] {
      assert patch.Keys == {"components"};
    }
    if Restricted(current, patch).Merged? && patch != map[] {
      assert forall k | k in patch :: k in patch.Keys;
    }
  }

  lemma ReportsAreStored(current: JsonMap, patch: JsonMap, out: JsonMap)
    requires Restricted(current, patch).Merged?
    ensures StoresReports(current, patch, out) <==> out == Restricted(current, patch).json
  {
    if patch != map[] && StoresReports(current, patch, out) {
      var merged := Restricted(current, patch).json;
      assert ComponentsIn(patch) == patch["components"].fields;
      assert ComponentsIn(current) == ComponentsOf(current).GetOr(map[]);
      assert out["components"].fields == merged["components"].fields;
      assert out == merged;
    }
  }

  /** The loop over the patched components. */
  method MergeReports(original: JsonMap, reports: JsonMap) returns (ok: bool, merged: JsonMap)
    ensures ok <==> reports.Keys <= REPORTABLE
    ensures ok ==> merged == original + reports
  {
    merged := original;
    var todo := reports.Keys;
    while todo != {}
      invariant todo <= reports.Keys && reports.Keys - todo <= REPORTABLE
      invariant merged == original + map k | k in reports && k !in todo :: reports[k]
    {
      var k :| k in todo;
      todo := todo - {k};
      if k !in REPORTABLE {
        return false, merged;
      }
      merged := merged[k := reports[k]];
    }
    assert reports == map k | k in reports && k !in todo :: reports[k];
    ok := true;
  }

  /** The merge a task gets out of pending. */
  method MergeReportable(current: JsonMap, patch: JsonMap) returns (r: MergeResult)
    ensures r == Restricted(current, patch)
    ensures r.Merged? <==> ReportsOnly(current, patch)
    ensures r.Merged? ==> StoresReports(current, patch, r.json)
  {
    ReportsAreMerged(current, patch);
    if patch == map[] {
      return Merged(current);
    }
    var keys := patch.Keys;
    while keys != {}
      invariant keys <= patch.Keys && patch.Keys - keys <= {"components"}
    {
      var k :| k in keys;
      if k != "components" {
        return Immutable;
      }
      keys := keys - {k};
    }
    assert patch.Keys == {"components"} by {
      assert patch.Keys <= {"components"} && patch.Keys != {};
    }
    if !patch["components"].Obj? {
      return InvalidType;
    }
    var reports := patch["components"].fields;
    var original := Lookup(current, "components");
    if !original.Obj? && original != Null {
      return InvalidType;
    }
    var ok, merged := MergeReports(if original.Obj? then original.fields else map[], reports);
    if !ok {
      return Immutable;
    }
    r := Merged(current["components" := Obj(merged)]);
    ReportsAreStored(current, patch, r.json);
  }

  function ParametersOf(components: JsonMap): Value {
    if Lookup(components, "parameters") == Null then Obj(map[]) else components["parameters"]
  }

  /** `taskCommandAndParametersEqual`. */
  predicate SameCommand(a: JsonMap, b: JsonMap) {
    match (ComponentsOf(a), ComponentsOf(b))
    case (None, None) => true
    case (Some(c1), Some(c2)) =>
      Lookup(c1, "command") == Lookup(c2, "command") && ParametersOf(c1) == ParametersOf(c2)
    case _ => false
  }

  /** A restricted merge changes nothing but progress, result and error. */
  lemma RestrictedIsConfined(current: JsonMap, patch: JsonMap, merged: JsonMap)
    requires Restricted(current, patch) == Merged(merged)
    ensures forall k | k != "components" :: (k in merged <==> k in current) && (k in current ==> merged[k] == current[k])
    ensures var c, c' := ComponentsOf(current).GetOr(map[]), ComponentsOf(merged).GetOr(map[]);
            forall k | k !in REPORTABLE :: (k in c' <==> k in c) && (k in c ==> c'[k] == c[k])
  {
  }

  /** The equality guard that follows a restricted merge fires exactly when the task had no components
      and the patch was not empty. */
  lemma GuardFiresIff(current: JsonMap, patch: JsonMap, merged: JsonMap)
    requires Restricted(current, patch) == Merged(merged)
    ensures !SameCommand(current, merged) <==> patch != map[] && ComponentsOf(current).None?
  {
    if patch != map[] && ComponentsOf(current).Some? {
      RestrictedIsConfined(current, patch, merged);
      assert "command" !in REPORTABLE && "parameters" !in REPORTABLE;
    }
  }

  /** The patch that two restricted patches, one after the other, amount to. */
  function Overriding(p: JsonMap, q: JsonMap): JsonMap {
    if p == map[] then q
    else if q == map[] then p
    else map["components" := Obj(ComponentsOf(p).GetOr(map[]) + ComponentsOf(q).GetOr(map[]))]
  }

  /** Two restricted patches go through one after the other exactly when each would alone, and then
      amount to their right-biased override; repeating one changes nothing. */
  lemma RestrictedCompose(current: JsonMap, p: JsonMap, q: JsonMap, first: JsonMap)
    requires Restricted(current, p) == Merged(first)
    ensures Restricted(first, q).Merged? <==> Restricted(current, q).Merged?
    ensures Restricted(first, q).Merged? ==> Restricted(current, Overriding(p, q)) == Restricted(first, q)
    ensures Restricted(first, p) == Merged(first)
  {
    if p != map[] {
      var pc := p["components"].fields;
      var c := ComponentsOf(current).GetOr(map[]);
      assert first["components"].fields == c + pc;
      assert (c + pc) + pc == c + pc;
      assert first["components" := first["components"]] == first;
      if q != map[] && Restricted(first, q).Merged? {
        var qc := q["components"].fields;
        assert (c + pc) + qc == c + (pc + qc);
        var o := Overriding(p, q);
        assert o.Keys == {"components"} && o["components"].fields == pc + qc;
        assert (pc + qc).Keys <= REPORTABLE;
        assert Restricted(first, q).json == first["components" := Obj((c + pc) + qc)];
        assert first["components" := Obj(c + (pc + qc))] == current["components" := Obj(c + (pc + qc))];
      }
    }
  }
}
