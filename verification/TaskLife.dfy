/** The life of a task over any run of calls: its status, what stays fixed, what its command is
    checked against, and how patches combine. */
module TaskLife {
  import opened Integrity
  import opened Json
  import opened ObjectFiles
  import opened Records
  import opened SchemaMeaning
  import opened ServiceSpec
  import opened TaskCommands
  import opened TaskJson

  /** What a status can have become, any number of steps later. */
  predicate Follows(from: string, to: string) {
    || from == to
    || (from == "pending" && to in {"acknowledged", "completed", "failed"})
    || (from == "acknowledged" && to in {"completed", "failed"})
  }

  /** Nothing outside `components`, and no component but progress, result and error, differs. */
  ghost predicate OnlyReportsDiffer(a: JsonMap, b: JsonMap) {
    && SameCommand(a, b)
    && (forall k | k != "components" :: (k in b <==> k in a) && (k in a ==> b[k] == a[k]))
    && var c, c' := ComponentsOf(a).GetOr(map[]), ComponentsOf(b).GetOr(map[]);
       forall k | k !in REPORTABLE :: (k in c' <==> k in c) && (k in c ==> c'[k] == c[k])
  }

  /** What the later state of a task owes to the earlier one. */
  ghost predicate Continues(t: Task, t': Task) {
    && t'.id == t.id && t'.assetId == t.assetId && t'.pin == t.pin && t'.createdAt == t.createdAt
    && Follows(t.status, t'.status)
    && (t.status != "pending" ==> OnlyReportsDiffer(t.json, t'.json))
  }

  /** One step of a task's life takes at most one edge; one that ends out of pending changes only the reports. */
  ghost predicate MovesOn(t: Task, t': Task) {
    && Continues(t, t') && (t'.status == t.status || AllowedTransition(t.status, t'.status))
    && (t'.status != "pending" ==> OnlyReportsDiffer(t.json, t'.json))
  }

  lemma ReportsCompose(a: JsonMap, b: JsonMap, c: JsonMap)
    requires OnlyReportsDiffer(a, b) && OnlyReportsDiffer(b, c)
    ensures OnlyReportsDiffer(a, c)
  {
  }

  lemma ContinuesCompose(t: Task, t1: Task, t2: Task)
    requires Continues(t, t1) && Continues(t1, t2)
    ensures Continues(t, t2)
  {
    if t.status != "pending" {
      ReportsCompose(t.json, t1.json, t2.json);
    }
  }

  // ---------------------------------------------------------------- one step

  function Saved(t: Task, json: JsonMap, now: int): Task {
    t.(json := json, updatedAt := now)
  }

  function WithTask(s: Sys, id: string, t: Task): Sys {
    s.(store := s.store.(tasks := s.store.tasks[id := t]))
  }

  lemma PatchSaves(env: Env, s: Sys, id: string, p: Option<JsonMap>, now: int)
    requires CanPatchTask(env, s, id, p)
    ensures Apply(env, s, Op.PatchTask(id, p, now)) ==
            WithTask(s, id, Saved(s.store.tasks[id], PatchedJson(s.store.tasks[id], p).json, now))
  {
  }

  lemma TransitionSaves(env: Env, s: Sys, id: string, status: string, p: Option<JsonMap>, now: int)
    requires CanTransition(env, s, id, status, p)
    ensures var t := s.store.tasks[id];
            Apply(env, s, Op.Transition(id, status, p, now)) ==
            WithTask(s, id, Saved(t, Restricted(t.json, Normal(p)).json, now).(status := status))
  {
  }

  /** An accepted restricted patch or transition, seen from the task. */
  lemma RestrictedStep(t: Task, patch: JsonMap, merged: JsonMap)
    requires Restricted(t.json, patch) == MergeResult.Merged(merged) && SameCommand(t.json, merged)
    ensures OnlyReportsDiffer(t.json, merged)
  {
    RestrictedIsConfined(t.json, patch, merged);
  }

  lemma PatchMovesOn(env: Env, s: Sys, id: string, patch: Option<JsonMap>, now: int)
    requires CanPatchTask(env, s, id, patch)
    ensures var t := s.store.tasks[id]; MovesOn(t, Saved(t, PatchedJson(t, patch).json, now))
  {
    var t := s.store.tasks[id];
    if t.status != "pending" {
      RestrictedStep(t, Normal(patch), PatchedJson(t, patch).json);
    }
  }

  lemma TransitionMovesOn(env: Env, s: Sys, id: string, status: string, patch: Option<JsonMap>, now: int)
    requires CanTransition(env, s, id, status, patch)
    ensures var t := s.store.tasks[id];
            MovesOn(t, Saved(t, Restricted(t.json, Normal(patch)).json, now).(status := status))
  {
    var t := s.store.tasks[id];
    RestrictedStep(t, Normal(patch), Restricted(t.json, Normal(patch)).json);
  }

  lemma StayingMovesOn(t: Task)
    ensures MovesOn(t, t)
  {
  }

  lemma TaskCallsLeaveOthers(env: Env, s: Sys, op: Op, id: string)
    requires IsTaskCall(op) && id in s.store.tasks && (op.id != id || op.CreateTask?)
    ensures id in Apply(env, s, op).store.tasks && Apply(env, s, op).store.tasks[id] == s.store.tasks[id]
  {
  }

  lemma RefusedTaskCall(env: Env, s: Sys, op: Op)
    requires (op.PatchTask? && !CanPatchTask(env, s, op.id, op.json))
          || (op.Transition? && !CanTransition(env, s, op.id, op.status, op.json))
    ensures Apply(env, s, op) == s
  {
  }

  lemma TaskCallMovesOn(env: Env, s: Sys, op: Op, id: string)
    requires (op.PatchTask? || op.Transition?) && op.id == id && id in s.store.tasks
    ensures id in Apply(env, s, op).store.tasks && MovesOn(s.store.tasks[id], Apply(env, s, op).store.tasks[id])
  {
    StayingMovesOn(s.store.tasks[id]);
    if op.PatchTask? && CanPatchTask(env, s, id, op.json) {
      PatchSaves(env, s, id, op.json, op.now);
      PatchMovesOn(env, s, id, op.json, op.now);
    } else if op.Transition? && CanTransition(env, s, id, op.status, op.json) {
      TransitionSaves(env, s, id, op.status, op.json, op.now);
      TransitionMovesOn(env, s, id, op.status, op.json, op.now);
    } else {
      RefusedTaskCall(env, s, op);
    }
  }

  /** In one call a task moves along its life line; and a call that ends with the task out of pending
      changes only its reports. */
  lemma StepMovesOn(env: Env, s: Sys, op: Op, id: string)
    requires id in s.store.tasks && op != Op.DeleteTask(id)
    ensures id in Apply(env, s, op).store.tasks && MovesOn(s.store.tasks[id], Apply(env, s, op).store.tasks[id])
  {
    StayingMovesOn(s.store.tasks[id]);
    if !IsTaskCall(op) {
      TasksStay(env, s, op);
    } else if op.id != id || op.CreateTask? {
      TaskCallsLeaveOthers(env, s, op, id);
    } else {
      TaskCallMovesOn(env, s, op, id);
    }
  }

  predicate Keeps(ops: seq<Op>, id: string) {
    forall i | 0 <= i < |ops| :: ops[i] != Op.DeleteTask(id)
  }

  /** Over any run that does not delete it: the status only moves forward, the asset, the pin and the
      creation time never change, and out of pending only the reports do. */
  lemma {:induction false} RunContinues(env: Env, s: Sys, ops: seq<Op>, id: string)
    requires id in s.store.tasks && Keeps(ops, id)
    ensures id in Run(env, s, ops).store.tasks
    ensures Continues(s.store.tasks[id], Run(env, s, ops).store.tasks[id])
    decreases |ops|
  {
    if ops != [] {
      var s' := Apply(env, s, ops[0]);
      assert ops[0] != Op.DeleteTask(id);
      StepMovesOn(env, s, ops[0], id);
      RunContinues(env, s', ops[1..], id);
      ContinuesCompose(s.store.tasks[id], s'.store.tasks[id], Run(env, s', ops[1..]).store.tasks[id]);
    }
  }

  /** No run takes a pending task to completed or failed without a time at which it is acknowledged. */
  lemma {:induction false} AcknowledgedInBetween(env: Env, s: Sys, ops: seq<Op>, id: string) returns (n: nat)
    requires id in s.store.tasks && Keeps(ops, id) && s.store.tasks[id].status == "pending"
    requires id in Run(env, s, ops).store.tasks && Run(env, s, ops).store.tasks[id].status in {"completed", "failed"}
    ensures 0 < n < |ops|
    ensures id in Run(env, s, ops[..n]).store.tasks && Run(env, s, ops[..n]).store.tasks[id].status == "acknowledged"
    decreases |ops|
  {
    assert ops[0] != Op.DeleteTask(id);
    var s' := Apply(env, s, ops[0]);
    StepMovesOn(env, s, ops[0], id);
    if s'.store.tasks[id].status == "acknowledged" {
      n := 1;
      assert ops[..1][1..] == [];
    } else {
      var later := AcknowledgedInBetween(env, s', ops[1..], id);
      n := later + 1;
      assert ops[..n][1..] == ops[1..][..later];
    }
  }

  /** The command and parameters a task had when it left pending are the ones it has ever after. */
  lemma FrozenOnLeavingPending(env: Env, s: Sys, op: Op, ops: seq<Op>, id: string)
    requires id in s.store.tasks && op != Op.DeleteTask(id) && Keeps(ops, id)
    requires id in Apply(env, s, op).store.tasks && Apply(env, s, op).store.tasks[id].status != "pending"
    ensures id in Run(env, Apply(env, s, op), ops).store.tasks
    ensures OnlyReportsDiffer(s.store.tasks[id].json, Run(env, Apply(env, s, op), ops).store.tasks[id].json)
  {
    StepMovesOn(env, s, op, id);
    RunContinues(env, Apply(env, s, op), ops, id);
    ReportsCompose(s.store.tasks[id].json, Apply(env, s, op).store.tasks[id].json,
                   Run(env, Apply(env, s, op), ops).store.tasks[id].json);
  }

  // ---------------------------------------------------------------- the pinned catalog

  /** The catalog in `raw` carries the pinned ID, defines the task's command, and accepts its parameters. */
  ghost predicate DefinedBy(env: Env, t: Task, raw: Bytes) {
    && LoadCatalog(env, raw).Some? && LoadCatalog(env, raw).value.objectId == t.pin
    && TaskCommandOk(env, t.json, LoadCatalog(env, raw).value.commands)
  }

  ghost predicate IsDefined(env: Env, t: Task) {
    exists raw :: DefinedBy(env, t, raw)
  }

  /** In plain terms: the catalog in `raw` has the pinned ID, and the task asks for one of its commands. */
  ghost predicate AsksThrough(env: Env, t: Task, raw: Bytes) {
    && LoadCatalog(env, raw).Some? && LoadCatalog(env, raw).value.objectId == t.pin
    && AsksForOne(env, t.json, LoadCatalog(env, raw).value.commands)
  }

  lemma DefinedIff(env: Env, t: Task, raw: Bytes)
    requires ParsesToGo(env) && AllRepresentable(ParametersIn(t.json))
    ensures DefinedBy(env, t, raw) <==> AsksThrough(env, t, raw)
  {
    if LoadCatalog(env, raw).Some? {
      LoadedTaskCommandOkIff(env, t.json, raw);
    }
  }

  /** The active catalog is what its own bytes load as. */
  ghost predicate FromLoad(env: Env, s: Sys) {
    s.active.Some? ==> s.active == LoadCatalog(env, s.active.value.raw)
  }

  ghost predicate Commanded(env: Env, s: Sys) {
    && FromLoad(env, s)
    && forall t | t in s.store.tasks :: IsDefined(env, s.store.tasks[t])
  }

  ghost predicate CollisionFree(env: Env) {
    forall a, b | env.hash(a) == env.hash(b) :: a == b
  }

  /** Whatever catalog a pinned ID is resolved to, it was loaded from bytes with that ID. */
  lemma PinnedIsLoaded(env: Env, s: Sys, id: string) returns (raw: Bytes)
    requires FromLoad(env, s)
    requires LoadPinned(env, s, id).Some?
    ensures LoadPinned(env, s, id) == LoadCatalog(env, raw) && LoadPinned(env, s, id).value.objectId == id
  {
    if s.active.Some? && s.active.value.objectId == id {
      raw := s.active.value.raw;
    } else {
      raw := s.store.bytes[Key(id, CATALOG_FILE)];
    }
  }

  lemma SavedTaskIsDefined(env: Env, s: Sys, t: Task, saved: Task)
    requires FromLoad(env, s)
    requires PinnedCommandOk(env, s, t, saved.json) && saved.pin == t.pin
    ensures IsDefined(env, saved)
  {
    var raw := PinnedIsLoaded(env, s, t.pin);
    assert DefinedBy(env, saved, raw);
  }

  /** The one task a call may save is defined. */
  lemma SavingKeepsCommanded(env: Env, s: Sys, op: Op)
    requires Commanded(env, s) && Accepts(env, s, op) && (op.CreateTask? || op.PatchTask? || op.Transition?)
    ensures op.id in Effect(env, s, op).tasks && IsDefined(env, Effect(env, s, op).tasks[op.id])
  {
    match op
    case CreateTask(id, _, _, _) => assert DefinedBy(env, Effect(env, s, op).tasks[id], s.active.value.raw);
    case PatchTask(id, _, _) => SavedTaskIsDefined(env, s, s.store.tasks[id], Effect(env, s, op).tasks[id]);
    case Transition(id, status, _, _) =>
      if s.store.tasks[id].status != status {
        SavedTaskIsDefined(env, s, s.store.tasks[id], Effect(env, s, op).tasks[id]);
      }
    case _ =>
  }

  lemma OtherTasksStay(env: Env, s: Sys, op: Op, id: string)
    requires id in Apply(env, s, op).store.tasks
    requires !((op.CreateTask? || op.PatchTask? || op.Transition?) && op.id == id)
    ensures id in s.store.tasks && Apply(env, s, op).store.tasks[id] == s.store.tasks[id]
  {
    if !IsTaskCall(op) {
      TasksStay(env, s, op);
    }
  }

  lemma StepKeepsFromLoad(env: Env, s: Sys, op: Op)
    requires FromLoad(env, s)
    ensures FromLoad(env, Apply(env, s, op))
  {
  }

  lemma StepKeepsCommanded(env: Env, s: Sys, op: Op)
    requires Commanded(env, s)
    ensures Commanded(env, Apply(env, s, op))
  {
    StepKeepsFromLoad(env, s, op);
    var s' := Apply(env, s, op);
    forall id | id in s'.store.tasks ensures IsDefined(env, s'.store.tasks[id]) {
      if (op.CreateTask? || op.PatchTask? || op.Transition?) && op.id == id {
        if Accepts(env, s, op) {
          SavingKeepsCommanded(env, s, op);
        }
      } else {
        OtherTasksStay(env, s, op, id);
      }
    }
  }

  /** In every reachable state each task's command is defined, and its parameters are accepted, by a
      catalog with the pinned ID. */
  lemma {:induction false} RunKeepsCommanded(env: Env, s: Sys, ops: seq<Op>)
    requires Commanded(env, s)
    ensures Commanded(env, Run(env, s, ops))
    decreases |ops|
  {
    if ops != [] {
      StepKeepsCommanded(env, s, ops[0]);
      RunKeepsCommanded(env, Apply(env, s, ops[0]), ops[1..]);
    }
  }

  /** So from the empty store on, each task of every run asks for a command of a catalog with its pinned ID:
      there is a command of the type it names, and its parameters conform to that command's schema. */
  lemma EveryTaskAsks(env: Env, ops: seq<Op>, id: string) returns (raw: Bytes)
    requires ParsesToGo(env)
    requires var s := Run(env, Sys(StoreState(map[], map[], map[], map[], map[], map[]), None), ops);
             id in s.store.tasks && AllRepresentable(ParametersIn(s.store.tasks[id].json))
    ensures var s := Run(env, Sys(StoreState(map[], map[], map[], map[], map[], map[]), None), ops);
            AsksThrough(env, s.store.tasks[id], raw)
  {
    var start := Sys(StoreState(map[], map[], map[], map[], map[], map[]), None);
    RunKeepsCommanded(env, start, ops);
    var t := Run(env, start, ops).store.tasks[id];
    assert IsDefined(env, t);
    raw :| DefinedBy(env, t, raw);
    DefinedIff(env, t, raw);
  }

  lemma PinFixesCatalog(env: Env, t: Task, t': Task, raw: Bytes)
    requires CollisionFree(env) && DefinedBy(env, t, raw) && IsDefined(env, t') && t'.pin == t.pin
    ensures DefinedBy(env, t', raw)
  {
    var raw' :| DefinedBy(env, t', raw');
    ObjectIdInjective(env.hash(raw'), env.hash(raw));
  }

  lemma CreatedIsDefined(env: Env, s: Sys, create: Op)
    requires Commanded(env, s) && create.CreateTask? && Accepts(env, s, create)
    ensures var s' := Apply(env, s, create);
            create.id in s'.store.tasks && DefinedBy(env, s'.store.tasks[create.id], s.active.value.raw)
  {
  }

  /** With a collision-free hash that catalog is the very one the task was created under, whatever has
      been activated since. */
  lemma PinnedCatalogDefinesTask(env: Env, s: Sys, create: Op, ops: seq<Op>)
    requires Commanded(env, s) && CollisionFree(env)
    requires create.CreateTask? && Accepts(env, s, create) && Keeps(ops, create.id)
    ensures var s' := Run(env, Apply(env, s, create), ops);
            create.id in s'.store.tasks && DefinedBy(env, s'.store.tasks[create.id], s.active.value.raw)
    ensures var t := Run(env, Apply(env, s, create), ops).store.tasks[create.id];
            ParsesToGo(env) && AllRepresentable(ParametersIn(t.json)) ==>
              t.pin == s.active.value.objectId && AsksForOne(env, t.json, s.active.value.commands)
  {
    var s1 := Apply(env, s, create);
    CreatedIsDefined(env, s, create);
    StepKeepsCommanded(env, s, create);
    StaysDefined(env, s1, create.id, s.active.value.raw, ops);
    var t := Run(env, s1, ops).store.tasks[create.id];
    if ParsesToGo(env) && AllRepresentable(ParametersIn(t.json)) {
      DefinedIff(env, t, s.active.value.raw);
    }
  }

  lemma StaysDefined(env: Env, s: Sys, id: string, raw: Bytes, ops: seq<Op>)
    requires Commanded(env, s) && CollisionFree(env)
    requires id in s.store.tasks && DefinedBy(env, s.store.tasks[id], raw) && Keeps(ops, id)
    ensures id in Run(env, s, ops).store.tasks && DefinedBy(env, Run(env, s, ops).store.tasks[id], raw)
  {
    RunContinues(env, s, ops, id);
    RunKeepsCommanded(env, s, ops);
    PinFixesCatalog(env, s.store.tasks[id], Run(env, s, ops).store.tasks[id], raw);
  }

  /** On reachable tasks the equality guard behind a restricted merge never fires. */
  lemma GuardNeverFires(env: Env, s: Sys, ops: seq<Op>, id: string, patch: JsonMap)
    requires Commanded(env, s)
    requires var s' := Run(env, s, ops); id in s'.store.tasks && Restricted(s'.store.tasks[id].json, patch).Merged?
    ensures var t := Run(env, s, ops).store.tasks[id]; SameCommand(t.json, Restricted(t.json, patch).json)
  {
    RunKeepsCommanded(env, s, ops);
    var t := Run(env, s, ops).store.tasks[id];
    assert IsDefined(env, t);
    GuardFiresIff(t.json, patch, Restricted(t.json, patch).json);
  }

  // ---------------------------------------------------------------- patches

  /** Tasks are resolved against the active catalog, the files and the entities only. */
  lemma TaskMapIsIrrelevant(env: Env, s: Sys, s': Sys, t: Task, json: JsonMap)
    requires s' == s.(store := s.store.(tasks := s'.store.tasks))
    ensures PinnedCommandOk(env, s, t, json) <==> PinnedCommandOk(env, s', t, json)
  {
    assert LoadPinned(env, s, t.pin) == LoadPinned(env, s', t.pin);
  }

  /** The one patch that two in a row amount to. */
  function BothPatches(t: Task, p: JsonMap, q: JsonMap): JsonMap {
    if t.status == "pending" then p + q else Overriding(p, q)
  }

  lemma PatchedTwice(t: Task, p: Option<JsonMap>, q: Option<JsonMap>, first: Task)
    requires PatchedJson(t, p) == MergeResult.Merged(first.json) && first.status == t.status
    requires PatchedJson(first, q).Merged?
    ensures PatchedJson(t, Some(BothPatches(t, Normal(p), Normal(q)))) == PatchedJson(first, q)
  {
    if t.status == "pending" {
      SectionsCompose(t.json, Normal(p), Normal(q));
    } else {
      RestrictedCompose(t.json, Normal(p), Normal(q), first.json);
    }
  }

  lemma CombinedIsAccepted(env: Env, s: Sys, id: string, p: Option<JsonMap>, q: Option<JsonMap>, now: int)
    requires CanPatchTask(env, s, id, p)
    requires CanPatchTask(env, WithTask(s, id, Saved(s.store.tasks[id], PatchedJson(s.store.tasks[id], p).json, now)), id, q)
    ensures var t := s.store.tasks[id]; var t1 := Saved(t, PatchedJson(t, p).json, now);
            var both := Some(BothPatches(t, Normal(p), Normal(q)));
            PatchedJson(t, both) == PatchedJson(t1, q) && CanPatchTask(env, s, id, both)
  {
    var t := s.store.tasks[id];
    var t1 := Saved(t, PatchedJson(t, p).json, now);
    var s1 := WithTask(s, id, t1);
    PatchedTwice(t, p, q, t1);
    TaskMapIsIrrelevant(env, s, s1, t, PatchedJson(t1, q).json);
  }

  lemma PatchedAgain(t: Task, p: Option<JsonMap>, now: int)
    requires PatchedJson(t, p).Merged?
    ensures var t' := Saved(t, PatchedJson(t, p).json, now); PatchedJson(t', p) == PatchedJson(t, p)
  {
    SectionsCompose(t.json, Normal(p), Normal(p));
    if t.status != "pending" {
      RestrictedCompose(t.json, Normal(p), Normal(p), PatchedJson(t, p).json);
    }
  }

  lemma RepeatIsAccepted(env: Env, s: Sys, id: string, p: Option<JsonMap>, now: int)
    requires CanPatchTask(env, s, id, p)
    ensures var t' := Saved(s.store.tasks[id], PatchedJson(s.store.tasks[id], p).json, now);
            CanPatchTask(env, WithTask(s, id, t'), id, p)
  {
    var t := s.store.tasks[id];
    var t' := Saved(t, PatchedJson(t, p).json, now);
    PatchedAgain(t, p, now);
    TaskMapIsIrrelevant(env, s, WithTask(s, id, t'), t, t'.json);
  }

  lemma TwoPatchesSave(env: Env, s: Sys, id: string, p: Option<JsonMap>, q: Option<JsonMap>, now1: int, now2: int)
    requires CanPatchTask(env, s, id, p)
    requires CanPatchTask(env, WithTask(s, id, Saved(s.store.tasks[id], PatchedJson(s.store.tasks[id], p).json, now1)), id, q)
    ensures var t1 := Saved(s.store.tasks[id], PatchedJson(s.store.tasks[id], p).json, now1);
            && Apply(env, s, Op.PatchTask(id, p, now1)) == WithTask(s, id, t1)
            && Apply(env, WithTask(s, id, t1), Op.PatchTask(id, q, now2)) ==
               WithTask(s, id, Saved(t1, PatchedJson(t1, q).json, now2))
  {
    var t1 := Saved(s.store.tasks[id], PatchedJson(s.store.tasks[id], p).json, now1);
    PatchSaves(env, s, id, p, now1);
    PatchSaves(env, WithTask(s, id, t1), id, q, now2);
    SavedTwice(s, id, t1, Saved(t1, PatchedJson(t1, q).json, now2));
  }

  lemma SavedTwice(s: Sys, id: string, t1: Task, t2: Task)
    ensures WithTask(WithTask(s, id, t1), id, t2) == WithTask(s, id, t2)
  {
    assert s.store.tasks[id := t1][id := t2] == s.store.tasks[id := t2];
  }

  /** An accepted patch is accepted again, at any reading of the clock, and the repeat leaves what
      the patch alone would have left then: only the update time tells them apart. */
  lemma RepeatedTaskPatch(env: Env, s: Sys, id: string, p: Option<JsonMap>, now1: int, now2: int)
    requires CanPatchTask(env, s, id, p)
    ensures var s1 := Apply(env, s, Op.PatchTask(id, p, now1));
            && CanPatchTask(env, s1, id, p)
            && Apply(env, s1, Op.PatchTask(id, p, now2)) == Apply(env, s, Op.PatchTask(id, p, now2))
  {
    var t := s.store.tasks[id];
    var t1 := Saved(t, PatchedJson(t, p).json, now1);
    RepeatIsAccepted(env, s, id, p, now1);
    TwoPatchesSave(env, s, id, p, p, now1, now2);
    PatchSaves(env, s, id, p, now2);
    PatchedAgain(t, p, now1);
  }

  /** Two accepted patches in a row leave what their right-biased override leaves on its own. */
  lemma SuccessiveTaskPatches(env: Env, s: Sys, id: string, p: Option<JsonMap>, q: Option<JsonMap>, now1: int, now2: int)
    requires CanPatchTask(env, s, id, p)
    requires CanPatchTask(env, Apply(env, s, Op.PatchTask(id, p, now1)), id, q)
    ensures var both := Some(BothPatches(s.store.tasks[id], Normal(p), Normal(q)));
            && CanPatchTask(env, s, id, both)
            && Apply(env, s, Op.PatchTask(id, both, now2)) ==
               Apply(env, Apply(env, s, Op.PatchTask(id, p, now1)), Op.PatchTask(id, q, now2))
  {
    var t := s.store.tasks[id];
    var t1 := Saved(t, PatchedJson(t, p).json, now1);
    PatchSaves(env, s, id, p, now1);
    TwoPatchesSave(env, s, id, p, q, now1, now2);
    CombinedIsAccepted(env, s, id, p, q, now1);
    PatchSaves(env, s, id, Some(BothPatches(t, Normal(p), Normal(q))), now2);
  }
}
