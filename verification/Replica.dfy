/** The service and its event hub together: a subscriber that took a snapshot when it subscribed, and
    absorbs the events it is handed, holds the current entities, observations and tasks. */
module Replica {
  import opened EventHub
  import opened Records
  import opened ServiceSpec

  /** The part of the store that the events keep a replica of. */
  datatype View = View(entities: map<string, Entity>, observations: map<string, Observation>, tasks: map<string, Task>)

  function ViewOf(s: Sys): View {
    View(s.store.entities, s.store.observations, s.store.tasks)
  }

  /** What a subscriber does with an event. */
  function Absorb(v: View, e: Event): View {
    match e
    case EntitySaved(_, x) => v.(entities := v.entities[x.id := x])
    case EntityDeleted(id) => v.(entities := v.entities - {id})
    case ObservationSaved(_, x) => v.(observations := v.observations[x.id := x])
    case ObservationDeleted(id) => v.(observations := v.observations - {id})
    case TaskSaved(_, x) => v.(tasks := v.tasks[x.id := x])
    case TaskDeleted(id) => v.(tasks := v.tasks - {id})
    case ObjectSaved(_, _) => v
    case ObjectDeleted(_) => v
  }

  function AbsorbAll(v: View, events: seq<Event>): View {
    if events == [] then v else Absorb(AbsorbAll(v, events[..|events| - 1]), events[|events| - 1])
  }

  lemma {:induction false} AbsorbInParts(v: View, a: seq<Event>, b: seq<Event>)
    ensures AbsorbAll(AbsorbAll(v, a), b) == AbsorbAll(v, a + b)
  {
    if b == [] {
      assert a + b == a;
    } else {
      AbsorbInParts(v, a, b[..|b| - 1]);
      assert (a + b)[..|a + b| - 1] == a + b[..|b| - 1];
    }
  }

  /** Records are stored under their own IDs. */
  ghost predicate Keyed(v: View) {
    && (forall id | id in v.entities :: v.entities[id].id == id)
    && (forall id | id in v.observations :: v.observations[id].id == id)
    && (forall id | id in v.tasks :: v.tasks[id].id == id)
  }

  // ---------------------------------------------------------------- one call

  lemma EntityEventsTell(env: Env, s: Sys, op: Op)
    requires Keyed(ViewOf(s)) && IsEntityCall(op)
    ensures AbsorbAll(ViewOf(s), Emits(env, s, op)) == ViewOf(Apply(env, s, op)) && Keyed(ViewOf(Apply(env, s, op)))
  {
    EntityCallsStayThere(env, s, op);
  }

  lemma ObservationEventsTell(env: Env, s: Sys, op: Op)
    requires Keyed(ViewOf(s)) && IsObservationCall(op)
    ensures AbsorbAll(ViewOf(s), Emits(env, s, op)) == ViewOf(Apply(env, s, op)) && Keyed(ViewOf(Apply(env, s, op)))
  {
    ObservationCallsStayThere(env, s, op);
  }

  /** The events save or delete one task under its own ID, or there are none. */
  ghost predicate SaveOne(tasks: map<string, Task>, events: seq<Event>, id: string, tasks': map<string, Task>) {
    if events == [] then tasks' == tasks
    else
      && |events| == 1
      && (events[0] == TaskDeleted(id) ==> tasks' == tasks - {id})
      && (events[0] != TaskDeleted(id) ==>
            events[0].TaskSaved? && events[0].task.id == id && tasks' == tasks[id := events[0].task])
  }

  lemma TaskCallsSaveOne(env: Env, s: Sys, op: Op)
    requires Keyed(ViewOf(s)) && IsTaskCall(op)
    ensures SaveOne(s.store.tasks, Emits(env, s, op), op.id, Apply(env, s, op).store.tasks)
  {
  }

  lemma SavedTaskIsTold(v: View, events: seq<Event>, id: string, tasks': map<string, Task>)
    requires Keyed(v) && SaveOne(v.tasks, events, id, tasks')
    ensures AbsorbAll(v, events) == v.(tasks := tasks') && Keyed(v.(tasks := tasks'))
  {
    if events != [] {
      assert events[..0] == [];
    }
  }

  lemma TaskEventsTell(env: Env, s: Sys, op: Op)
    requires Keyed(ViewOf(s)) && IsTaskCall(op)
    ensures AbsorbAll(ViewOf(s), Emits(env, s, op)) == ViewOf(Apply(env, s, op)) && Keyed(ViewOf(Apply(env, s, op)))
  {
    TaskCallsStayThere(env, s, op);
    TaskCallsSaveOne(env, s, op);
    SavedTaskIsTold(ViewOf(s), Emits(env, s, op), op.id, Apply(env, s, op).store.tasks);
  }

  lemma OtherEventsTell(env: Env, s: Sys, op: Op)
    requires !IsEntityCall(op) && !IsObservationCall(op) && !IsTaskCall(op)
    ensures forall e | e in Emits(env, s, op) :: e.ObjectSaved? || e.ObjectDeleted?
    ensures |Emits(env, s, op)| <= 1
  {
  }

  /** Absorbing what a call publishes is what the call did to the view. */
  lemma EventsTell(env: Env, s: Sys, op: Op)
    requires Keyed(ViewOf(s))
    ensures AbsorbAll(ViewOf(s), Emits(env, s, op)) == ViewOf(Apply(env, s, op)) && Keyed(ViewOf(Apply(env, s, op)))
  {
    if IsEntityCall(op) {
      EntityEventsTell(env, s, op);
    } else if IsObservationCall(op) {
      ObservationEventsTell(env, s, op);
    } else if IsTaskCall(op) {
      TaskEventsTell(env, s, op);
    } else {
      OtherEventsTell(env, s, op);
      if IsObjectCall(op) {
        ObjectCallsStayThere(env, s, op);
      } else if IsFileCall(op) {
        FileCallsStayThere(env, s, op);
      } else {
        ActivationsStayThere(env, s, op);
      }
    }
  }

  /** A refused call and a transition to the current status publish nothing and change nothing. */
  lemma QuietCallsChangeNothing(env: Env, s: Sys, op: Op)
    requires (!Accepts(env, s, op) && !op.Activate?)
          || (op.Transition? && op.id in s.store.tasks && s.store.tasks[op.id].status == op.status)
    ensures Emits(env, s, op) == [] && Apply(env, s, op) == s
  {
  }

  // ---------------------------------------------------------------- service and hub together

  datatype Whole<Id(==)> = Whole(sys: Sys, hub: HubState<Id, Event>)

  datatype Move<Id> = Call(op: Op) | Deliver(id: Id) | Drop(id: Id) | Join(id: Id) | Leave(id: Id) | Take(id: Id)

  /** A call changes the records and begins to publish in one step; its deliveries follow one by one, and
      receives may fall in between. Subscribers come and go while no publishing is under way. */
  ghost predicate Goes<Id>(env: Env, w: Whole<Id>, m: Move<Id>, w': Whole<Id>) {
    match m
    case Call(op) =>
      && w'.sys == Apply(env, w.sys, op)
      && var events := Emits(env, w.sys, op);
      && if events == [] then w'.hub == w.hub else |events| == 1 && Next(w.hub, Publish(events[0]), w'.hub)
    case Deliver(id) => w'.sys == w.sys && Next(w.hub, Offer(id), w'.hub)
    case Drop(id) => w'.sys == w.sys && Next(w.hub, Evict(id), w'.hub)
    case Join(id) => w'.sys == w.sys && Next(w.hub, Subscribe(id), w'.hub)
    case Leave(id) => w'.sys == w.sys && Next(w.hub, Cancel(id), w'.hub)
    case Take(id) => w'.sys == w.sys && Next(w.hub, Receive(id), w'.hub)
  }

  ghost predicate Sound<Id>(w: Whole<Id>) {
    Inv(w.hub) && Keyed(ViewOf(w.sys))
  }

  /** What was published since, absorbed into the old view, gives the new one. */
  ghost predicate Told<Id>(w: Whole<Id>, w': Whole<Id>) {
    && w.hub.published <= w'.hub.published
    && AbsorbAll(ViewOf(w.sys), w'.hub.published[|w.hub.published|..]) == ViewOf(w'.sys)
  }

  ghost predicate SameChannels<Id>(h: HubState<Id, Event>, h': HubState<Id, Event>) {
    forall id | id in h.channels :: id in h'.channels && h'.channels[id].since == h.channels[id].since
  }

  lemma HubStep<Id>(h: HubState<Id, Event>, step: EventHub.Step<Id, Event>, h': HubState<Id, Event>)
    requires Inv(h) && Next(h, step, h')
    ensures Inv(h') && SameChannels(h, h')
    ensures h'.published == if step.Publish? then h.published + [step.e] else h.published
  {
    StepKeepsInv(h, step, h');
    forall id | id in h.channels ensures id in h'.channels && h'.channels[id].since == h.channels[id].since {
      LeavesOnlyWhenFull(h, step, h', id);
    }
  }

  lemma MoveTells<Id>(env: Env, w: Whole<Id>, m: Move<Id>, w': Whole<Id>)
    requires Sound(w) && Goes(env, w, m, w')
    ensures Sound(w') && SameChannels(w.hub, w'.hub) && Told(w, w')
    ensures |w'.hub.published| <= |w.hub.published| + 1
  {
    match m
    case Call(op) =>
      EventsTell(env, w.sys, op);
      var events := Emits(env, w.sys, op);
      if events != [] {
        HubStep(w.hub, Publish(events[0]), w'.hub);
        assert w'.hub.published[|w.hub.published|..] == events;
      }
    case Deliver(id) => HubStep(w.hub, Offer(id), w'.hub);
    case Drop(id) => HubStep(w.hub, Evict(id), w'.hub);
    case Join(id) => HubStep(w.hub, Subscribe(id), w'.hub);
    case Leave(id) => HubStep(w.hub, Cancel(id), w'.hub);
    case Take(id) => HubStep(w.hub, Receive(id), w'.hub);
  }

  lemma ToldInParts<Id>(w: Whole<Id>, w1: Whole<Id>, w2: Whole<Id>)
    requires Told(w, w1) && Told(w1, w2)
    ensures Told(w, w2)
  {
    var p, p1, p2 := w.hub.published, w1.hub.published, w2.hub.published;
    AbsorbInParts(ViewOf(w.sys), p1[|p|..], p2[|p1|..]);
    assert p1[|p|..] + p2[|p1|..] == p2[|p|..];
  }

  ghost predicate IsRun<Id>(env: Env, worlds: seq<Whole<Id>>, moves: seq<Move<Id>>) {
    && |worlds| == |moves| + 1
    && forall i | 0 <= i < |moves| :: MoveAt(env, worlds, moves, i)
  }

  ghost predicate MoveAt<Id>(env: Env, worlds: seq<Whole<Id>>, moves: seq<Move<Id>>, i: int)
    requires 0 <= i < |moves| < |worlds|
  {
    Goes(env, worlds[i], moves[i], worlds[i + 1])
  }

  lemma {:induction false} RunTells<Id>(env: Env, worlds: seq<Whole<Id>>, moves: seq<Move<Id>>, i: nat, n: nat)
    requires IsRun(env, worlds, moves) && i <= n <= |moves| && Sound(worlds[i])
    ensures Sound(worlds[n]) && SameChannels(worlds[i].hub, worlds[n].hub) && Told(worlds[i], worlds[n])
    decreases n
  {
    if i < n {
      RunTells(env, worlds, moves, i, n - 1);
      assert MoveAt(env, worlds, moves, n - 1);
      MoveTells(env, worlds[n - 1], moves[n - 1], worlds[n]);
      ToldInParts(worlds[i], worlds[n - 1], worlds[n]);
    }
  }

  lemma OneMoveBack<Id>(env: Env, worlds: seq<Whole<Id>>, moves: seq<Move<Id>>, i: nat, n: nat)
    requires IsRun(env, worlds, moves) && i < n <= |moves| && Sound(worlds[i])
    ensures |worlds[i].hub.published| <= |worlds[n - 1].hub.published|
    ensures |worlds[n].hub.published| <= |worlds[n - 1].hub.published| + 1
  {
    RunTells(env, worlds, moves, i, n - 1);
    assert MoveAt(env, worlds, moves, n - 1);
    MoveTells(env, worlds[n - 1], moves[n - 1], worlds[n]);
  }

  /** Events are published one at a time, so every number of them was reached at some point. */
  lemma {:induction false} PointOf<Id>(env: Env, worlds: seq<Whole<Id>>, moves: seq<Move<Id>>, i: nat, n: nat, published: nat)
    returns (j: nat)
    requires IsRun(env, worlds, moves) && i <= n <= |moves| && Sound(worlds[i])
    requires |worlds[i].hub.published| <= published <= |worlds[n].hub.published|
    ensures i <= j <= n && |worlds[j].hub.published| == published
    decreases n
  {
    if published == |worlds[n].hub.published| {
      j := n;
    } else {
      assert n > i;
      OneMoveBack(env, worlds, moves, i, n);
      j := PointOf(env, worlds, moves, i, n - 1, published);
    }
  }

  lemma SinceJoining<Id>(env: Env, worlds: seq<Whole<Id>>, moves: seq<Move<Id>>, i: nat, n: nat, id: Id)
    requires IsRun(env, worlds, moves) && i < n <= |moves| && Sound(worlds[i]) && moves[i] == Join(id)
    ensures Sound(worlds[n]) && Told(worlds[i], worlds[n])
    ensures id in worlds[n].hub.channels && worlds[n].hub.channels[id].since == |worlds[i].hub.published|
  {
    assert MoveAt(env, worlds, moves, i);
    RunTells(env, worlds, moves, i, n);
    MoveTells(env, worlds[i], moves[i], worlds[i + 1]);
    RunTells(env, worlds, moves, i + 1, n);
  }

  /** Whatever happened since it subscribed, a subscriber still registered that absorbs what it has
      consumed and what is buffered for it holds the current entities, observations and tasks, unless the
      event of the latest change is just now on its way to it. */
  lemma ReplicaIsCurrent<Id>(env: Env, worlds: seq<Whole<Id>>, moves: seq<Move<Id>>, i: nat, n: nat, id: Id)
    requires IsRun(env, worlds, moves) && i < n <= |moves| && Sound(worlds[i]) && moves[i] == Join(id)
    ensures id in worlds[n].hub.channels
    ensures id in worlds[n].hub.subscribers - worlds[n].hub.todo - worlds[n].hub.slow ==>
              AbsorbAll(ViewOf(worlds[i].sys), Delivered(worlds[n].hub.channels[id])) == ViewOf(worlds[n].sys)
  {
    SinceJoining(env, worlds, moves, i, n, id);
    var h := worlds[n].hub;
    var c := h.channels[id];
    assert InStep(c, h.published);
    if id in h.subscribers - h.todo - h.slow {
      assert InArrears(h, id);
      assert Delivered(c) == h.published[c.since..];
    }
  }

  lemma PartOfDelivered(c: ChannelState<Event>, published: seq<Event>, earlier: seq<Event>, read: nat)
    requires InStep(c, published) && read <= |Delivered(c)| && earlier <= published && |earlier| == c.since + read
    ensures earlier[c.since..] == Delivered(c)[..read]
  {
    assert earlier == published[..c.since + read];
  }

  /** One that was dropped, or that has not read its buffer yet, holds a state the service did pass
      through: any number of the delivered events, absorbed in order, gives the view at some point. */
  lemma ReplicaIsNeverTorn<Id>(env: Env, worlds: seq<Whole<Id>>, moves: seq<Move<Id>>, i: nat, n: nat, id: Id, read: nat)
    returns (j: nat)
    requires IsRun(env, worlds, moves) && i < n <= |moves| && Sound(worlds[i]) && moves[i] == Join(id)
    requires id in worlds[n].hub.channels && read <= |Delivered(worlds[n].hub.channels[id])|
    ensures i <= j <= n
    ensures AbsorbAll(ViewOf(worlds[i].sys), Delivered(worlds[n].hub.channels[id])[..read]) == ViewOf(worlds[j].sys)
  {
    SinceJoining(env, worlds, moves, i, n, id);
    var c, p := worlds[n].hub.channels[id], worlds[n].hub.published;
    assert InStep(c, p);
    j := PointOf(env, worlds, moves, i, n, c.since + read);
    RunTells(env, worlds, moves, i, j);
    RunTells(env, worlds, moves, j, n);
    PartOfDelivered(c, p, worlds[j].hub.published, read);
  }

  // ---------------------------------------------------------------- a call served at once

  /** A call with all of its publishing, and no receive in between. */
  ghost predicate Served<Id>(env: Env, w: Whole<Id>, op: Op, w': Whole<Id>)
    requires w.hub.subscribers <= w.hub.channels.Keys
  {
    && w'.sys == Apply(env, w.sys, op)
    && var events := Emits(env, w.sys, op);
       if events == [] then w'.hub == w.hub else |events| == 1 && w'.hub == Published(w.hub, events[0])
  }

  function MoveOf<Id>(s: EventHub.Step<Id, Event>): Move<Id>
    requires s.Offer? || s.Evict?
  {
    if s.Offer? then Deliver(s.id) else Drop(s.id)
  }

  /** The hub's own part of a run, while the records stay. */
  lemma DeliveriesAreMoves<Id>(env: Env, sys: Sys, states: seq<HubState<Id, Event>>, steps: seq<EventHub.Step<Id, Event>>)
    returns (worlds: seq<Whole<Id>>, moves: seq<Move<Id>>)
    requires EventHub.IsRun(states, steps) && OnlyPublishing(steps)
    ensures IsRun(env, worlds, moves) && |moves| == |steps|
    ensures worlds[0] == Whole(sys, states[0]) && worlds[|moves|] == Whole(sys, states[|steps|])
    ensures forall i | 0 <= i < |moves| :: moves[i].Deliver? || moves[i].Drop?
  {
    worlds := seq(|states|, i requires 0 <= i < |states| => Whole(sys, states[i]));
    moves := seq(|steps|, i requires 0 <= i < |steps| => MoveOf(steps[i]));
    forall i | 0 <= i < |moves| ensures MoveAt(env, worlds, moves, i) {
      assert EventHub.StepAt(states, steps, i);
    }
  }

  lemma RunFromCall<Id>(env: Env, w: Whole<Id>, op: Op, worlds: seq<Whole<Id>>, moves: seq<Move<Id>>)
    requires IsRun(env, worlds, moves) && Goes(env, w, Call(op), worlds[0])
    ensures IsRun(env, [w] + worlds, [Call(op)] + moves)
  {
    var worlds', moves' := [w] + worlds, [Call(op)] + moves;
    forall i | 0 <= i < |moves'| ensures MoveAt(env, worlds', moves', i) {
      if i > 0 {
        assert MoveAt(env, worlds, moves, i - 1);
        assert worlds'[i] == worlds[i - 1] && worlds'[i + 1] == worlds[i] && moves'[i] == moves[i - 1];
      }
    }
  }

  lemma HubRunAfter<Id>(states: seq<HubState<Id, Event>>, steps: seq<EventHub.Step<Id, Event>>)
    requires EventHub.IsRun(states, steps) && steps != []
    ensures EventHub.IsRun(states[1..], steps[1..]) && Next(states[0], steps[0], states[1])
  {
    assert EventHub.StepAt(states, steps, 0);
    forall i | 0 <= i < |steps| - 1 ensures EventHub.StepAt(states[1..], steps[1..], i) {
      assert EventHub.StepAt(states, steps, i + 1);
    }
  }

  /** Such a call is a run of the machine: the call, then deliveries and evictions. */
  lemma ServedIsARun<Id>(env: Env, w: Whole<Id>, op: Op, w': Whole<Id>)
    returns (worlds: seq<Whole<Id>>, moves: seq<Move<Id>>)
    requires w.hub.subscribers <= w.hub.channels.Keys && IsIdle(w.hub) && Served(env, w, op, w')
    ensures IsRun(env, worlds, moves) && worlds[0] == w && worlds[|moves|] == w'
    ensures moves != [] && moves[0] == Call(op)
    ensures forall i | 1 <= i < |moves| :: moves[i].Deliver? || moves[i].Drop?
  {
    var events := Emits(env, w.sys, op);
    if events == [] {
      worlds, moves := [w'], [];
    } else {
      var states, steps := PublishedIsARun(w.hub, events[0]);
      HubRunAfter(states, steps);
      worlds, moves := DeliveriesAreMoves(env, w'.sys, states[1..], steps[1..]);
    }
    RunFromCall(env, w, op, worlds, moves);
    worlds, moves := [w] + worlds, [Call(op)] + moves;
  }

  // ---------------------------------------------------------------- why objects are left out

  function AbsorbObject(objects: map<string, Object>, e: Event): map<string, Object> {
    match e
    case ObjectSaved(_, o) => objects[o.id := o]
    case ObjectDeleted(id) => objects - {id}
    case _ => objects
  }

  function AbsorbObjects(objects: map<string, Object>, events: seq<Event>): map<string, Object> {
    if events == [] then objects
    else AbsorbObject(AbsorbObjects(objects, events[..|events| - 1]), events[|events| - 1])
  }

  /** Object events fall short in exactly two calls: a cascade, and the creation of a catalog's object. */
  ghost predicate ChangesObjectsSilently(env: Env, s: Sys, op: Op) {
    || (op.DeleteObservation? && op.id in s.store.observations && ObjectsOfObservation(s.store, op.id) != {})
    || (op.Activate? && LoadCatalog(env, op.raw).Some? && LoadCatalog(env, op.raw).value.objectId !in s.store.objects)
  }

  lemma CascadeIsUntold(env: Env, s: Sys, op: Op)
    requires IsObservationCall(op)
    ensures AbsorbObjects(s.store.objects, Emits(env, s, op)) == s.store.objects
    ensures Apply(env, s, op).store.objects == s.store.objects <==> !ChangesObjectsSilently(env, s, op)
  {
    if op.DeleteObservation? && op.id in s.store.observations {
      var owned := ObjectsOfObservation(s.store, op.id);
      if x :| x in owned {
        assert x in s.store.objects && x !in s.store.objects - owned;
      }
    }
  }

  /** What an object call publishes is what it did to the objects. */
  lemma ObjectCallsSaveOne(env: Env, s: Sys, op: Op)
    requires forall id | id in s.store.objects :: s.store.objects[id].id == id
    requires IsObjectCall(op)
    ensures var objects, events := Apply(env, s, op).store.objects, Emits(env, s, op);
            if events == [] then objects == s.store.objects
            else |events| == 1 && objects == AbsorbObject(s.store.objects, events[0])
  {
  }

  lemma ObjectCallsAreTold(env: Env, s: Sys, op: Op)
    requires forall id | id in s.store.objects :: s.store.objects[id].id == id
    requires IsObjectCall(op)
    ensures AbsorbObjects(s.store.objects, Emits(env, s, op)) == Apply(env, s, op).store.objects
  {
    ObjectCallsSaveOne(env, s, op);
    OneObjectEvent(s.store.objects, Emits(env, s, op));
  }

  lemma OneObjectEvent(objects: map<string, Object>, events: seq<Event>)
    requires |events| <= 1
    ensures AbsorbObjects(objects, events) == if events == [] then objects else AbsorbObject(objects, events[0])
  {
    if events != [] {
      assert events[..0] == [];
    }
  }

  lemma FileCallsAreTold(env: Env, s: Sys, op: Op)
    requires forall id | id in s.store.objects :: s.store.objects[id].id == id
    requires IsFileCall(op)
    ensures AbsorbObjects(s.store.objects, Emits(env, s, op)) == Apply(env, s, op).store.objects
  {
    FileCallsStayThere(env, s, op);
  }

  lemma ActivationIsUntold(env: Env, s: Sys, op: Op)
    requires op.Activate? || op.Deactivate?
    ensures Emits(env, s, op) == []
    ensures Apply(env, s, op).store.objects == s.store.objects <==> !ChangesObjectsSilently(env, s, op)
  {
    if op.Activate? && LoadCatalog(env, op.raw).Some? {
      MaterializingStaysThere(s.store, LoadCatalog(env, op.raw).value, op.now);
    }
  }

  lemma ObjectsToldIff(env: Env, s: Sys, op: Op)
    requires forall id | id in s.store.objects :: s.store.objects[id].id == id
    ensures AbsorbObjects(s.store.objects, Emits(env, s, op)) == Apply(env, s, op).store.objects
       <==> !ChangesObjectsSilently(env, s, op)
  {
    if IsEntityCall(op) {
      EntityCallsStayThere(env, s, op);
    } else if IsTaskCall(op) {
      TaskCallsStayThere(env, s, op);
    } else if IsObservationCall(op) {
      CascadeIsUntold(env, s, op);
    } else if IsObjectCall(op) {
      ObjectCallsAreTold(env, s, op);
    } else if IsFileCall(op) {
      FileCallsAreTold(env, s, op);
    } else {
      ActivationIsUntold(env, s, op);
    }
  }
}
