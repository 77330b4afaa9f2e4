/** What the check of a task's command amounts to: some command of the catalog has the type the task names, and
    the task's parameters conform to that command's schema. */
module TaskCommands {
  import opened Json
  import opened ObjectFiles
  import opened Paths
  import opened Records
  import opened Schema
  import opened SchemaMeaning
  import opened SchemaShape

  /** The string at components.command.type, not empty. */
  predicate Names(json: JsonMap, typ: string) {
    && typ != ""
    && "components" in json && json["components"].Obj?
    && "command" in json["components"].fields && json["components"].fields["command"].Obj?
    && "type" in json["components"].fields["command"].fields
    && json["components"].fields["command"].fields["type"] == Str(typ)
  }

  /** The value at components.parameters, or an empty object. */
  function ParametersIn(json: JsonMap): Value {
    if "components" in json && json["components"].Obj? && "parameters" in json["components"].fields
    then json["components"].fields["parameters"] else Obj(map[])
  }

  /** The task asks for this command, in the way its schema wants. */
  ghost predicate Asks(env: Env, json: JsonMap, c: Command) {
    Names(json, c.typ) && c.schema.Some? && Conforms(env.rx, c.schema.value, ParametersIn(json), true)
  }

  ghost predicate AsksForOne(env: Env, json: JsonMap, commands: seq<Command>) {
    exists i :: 0 <= i < |commands| && Asks(env, json, commands[i])
  }

  ghost predicate IsChecked(env: Env, c: Command) {
    && IsValidId(c.typ) && env.isSnakeCase(c.typ) && c.displayName != "" && c.description != ""
    && c.schema.Some? && IsWellFormedThroughout(Obj(c.schema.value))
  }

  lemma CheckedIff(env: Env, c: Command)
    ensures CommandOk(env, c) <==> IsChecked(env, c)
  {
    if c.schema.Some? {
      AcceptedIff(Obj(c.schema.value));
    }
  }

  /** What validation leaves of a catalog's commands. */
  ghost predicate AreChecked(env: Env, commands: seq<Command>) {
    && (forall i | 0 <= i < |commands| :: IsChecked(env, commands[i]))
    && (forall i, j | 0 <= i < j < |commands| :: commands[i].typ != commands[j].typ)
  }

  /** Their numbers are ones Go can hold. */
  ghost predicate AreOfGo(commands: seq<Command>) {
    forall i | 0 <= i < |commands| && commands[i].schema.Some? :: AllRepresentable(Obj(commands[i].schema.value))
  }

  lemma {:induction false} IndexHolds(commands: seq<Command>, typ: string)
    ensures typ in ByType(commands) <==> exists i :: 0 <= i < |commands| && commands[i].typ == typ
    ensures typ in ByType(commands) ==>
              exists i :: 0 <= i < |commands| && commands[i].typ == typ && ByType(commands)[typ] == commands[i]
  {
    if commands != [] {
      var n := |commands| - 1;
      IndexHolds(commands[..n], typ);
      if commands[n].typ != typ && typ in ByType(commands) {
        var i :| 0 <= i < n && commands[..n][i].typ == typ && ByType(commands[..n])[typ] == commands[..n][i];
        assert commands[i].typ == typ && ByType(commands)[typ] == commands[i];
      }
      if i :| 0 <= i < n && commands[i].typ == typ {
        assert commands[..n][i].typ == typ;
      }
    }
  }

  /** With distinct types the index finds the command itself. */
  lemma IndexFinds(commands: seq<Command>, i: nat)
    requires i < |commands| && forall j, k | 0 <= j < k < |commands| :: commands[j].typ != commands[k].typ
    ensures commands[i].typ in ByType(commands) && ByType(commands)[commands[i].typ] == commands[i]
  {
    IndexHolds(commands, commands[i].typ);
    var j :| 0 <= j < |commands| && commands[j].typ == commands[i].typ && ByType(commands)[commands[i].typ] == commands[j];
    assert j == i;
  }

  lemma NamedIsFound(env: Env, json: JsonMap, commands: seq<Command>, i: nat)
    requires i < |commands| && AreChecked(env, commands) && AreOfGo(commands) && AllRepresentable(ParametersIn(json))
    requires Names(json, commands[i].typ)
    ensures TaskCommandOk(env, json, commands) <==> Asks(env, json, commands[i])
  {
    IndexFinds(commands, i);
    var c := commands[i];
    CheckedIff(env, c);
    assert AllRepresentable(Obj(c.schema.value));
    AcceptedMeaning(env.rx, c.schema.value, ParametersIn(json));
  }

  /** Over checked commands the task command check passes exactly if the task asks for one of them. */
  lemma TaskCommandOkIff(env: Env, json: JsonMap, commands: seq<Command>)
    requires AreChecked(env, commands) && AreOfGo(commands) && AllRepresentable(ParametersIn(json))
    ensures TaskCommandOk(env, json, commands) <==> AsksForOne(env, json, commands)
  {
    if TaskCommandOk(env, json, commands) {
      var typ := CommandTypeOf(json);
      IndexHolds(commands, typ);
      var i :| 0 <= i < |commands| && commands[i].typ == typ;
      assert Names(json, commands[i].typ);
      NamedIsFound(env, json, commands, i);
    }
    if i :| 0 <= i < |commands| && Asks(env, json, commands[i]) {
      NamedIsFound(env, json, commands, i);
    }
  }

  // ---------------------------------------------------------------- loaded catalogs

  /** Whatever a catalog file holds, its numbers are ones Go can hold. */
  ghost predicate ParsesToGo(env: Env) {
    forall raw | env.parse(raw).Some? :: AreOfGo(env.parse(raw).value.commands)
  }

  /** A catalog loads exactly if it has an ID, a version and checked commands. */
  lemma LoadsIff(env: Env, raw: Bytes)
    ensures LoadCatalog(env, raw).Some? <==>
            && env.parse(raw).Some? && env.parse(raw).value.catalogId != "" && env.parse(raw).value.version != ""
            && AreChecked(env, env.parse(raw).value.commands)
    ensures LoadCatalog(env, raw).Some? ==>
            && LoadCatalog(env, raw).value.commands == env.parse(raw).value.commands
            && LoadCatalog(env, raw).value.raw == raw && LoadCatalog(env, raw).value.contentHash == env.hash(raw)
            && LoadCatalog(env, raw).value.objectId == "command-catalog-" + env.hash(raw)
  {
    if env.parse(raw).Some? {
      var commands := env.parse(raw).value.commands;
      forall i | 0 <= i < |commands| ensures CommandOk(env, commands[i]) <==> IsChecked(env, commands[i]) {
        CheckedIff(env, commands[i]);
      }
    }
  }

  /** A loaded catalog lets a task through exactly if the task asks for one of its commands. */
  lemma LoadedTaskCommandOkIff(env: Env, json: JsonMap, raw: Bytes)
    requires ParsesToGo(env) && LoadCatalog(env, raw).Some? && AllRepresentable(ParametersIn(json))
    ensures TaskCommandOk(env, json, LoadCatalog(env, raw).value.commands)
       <==> AsksForOne(env, json, LoadCatalog(env, raw).value.commands)
  {
    LoadsIff(env, raw);
    TaskCommandOkIff(env, json, LoadCatalog(env, raw).value.commands);
  }
}
