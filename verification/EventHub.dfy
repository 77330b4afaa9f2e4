/** The event hub: bounded channels, eviction of subscribers that cannot keep up, and a cancel
    that may be called any number of times. Publish, Subscribe and cancel run under one mutex; a receive
    does not take it, so it may fall between the sends and closes of one Publish, each of which is a step
    of its own here. */
module EventHub {

  const CAPACITY: nat := 32

  // ---------------------------------------------------------------- as values

  /** `received` and `since` are history: what the subscriber took out, and how much had been
      published when it subscribed. */
  datatype ChannelState<+E> = ChannelState(buffer: seq<E>, closed: bool, received: seq<E>, since: nat)

  /** `todo` are the subscribers the last event has not been offered to yet, `slow` those found full and
      still to be evicted. Both are empty while the mutex is free. */
  datatype HubState<Id(==), +E> = HubState(subscribers: set<Id>, channels: map<Id, ChannelState<E>>, published: seq<E>,
                                           todo: set<Id>, slow: set<Id>)

  function Delivered<E>(c: ChannelState<E>): seq<E> {
    c.received + c.buffer
  }

  predicate IsIdle<Id, E>(h: HubState<Id, E>) {
    h.todo == {} && h.slow == {}
  }

  function Begun<Id, E>(h: HubState<Id, E>, e: E): HubState<Id, E> {
    h.(published := h.published + [e], todo := h.subscribers)
  }

  /** `select { case ch <- event: default: }` for one subscriber. */
  function Offered<Id, E>(h: HubState<Id, E>, id: Id): HubState<Id, E>
    requires id in h.channels && h.published != []
  {
    var c := h.channels[id];
    if |c.buffer| < CAPACITY then
      h.(channels := h.channels[id := c.(buffer := c.buffer + [h.published[|h.published| - 1]])], todo := h.todo - {id})
    else h.(todo := h.todo - {id}, slow := h.slow + {id})
  }

  function Evicted<Id, E>(h: HubState<Id, E>, id: Id): HubState<Id, E>
    requires id in h.channels
  {
    h.(subscribers := h.subscribers - {id}, channels := h.channels[id := h.channels[id].(closed := true)],
       slow := h.slow - {id})
  }

  /** All of a Publish with no receive in between: the full subscribers are closed and dropped. */
  function Published<Id, E>(h: HubState<Id, E>, e: E): HubState<Id, E>
    requires h.subscribers <= h.channels.Keys
  {
    HubState(
      set id | id in h.subscribers && |h.channels[id].buffer| < CAPACITY,
      map id | id in h.channels ::
        var c := h.channels[id];
        if id !in h.subscribers then c
        else if |c.buffer| < CAPACITY then c.(buffer := c.buffer + [e])
        else c.(closed := true),
      h.published + [e], {}, {})
  }

  function Subscribed<Id, E>(h: HubState<Id, E>, id: Id): HubState<Id, E> {
    h.(subscribers := h.subscribers + {id}, channels := h.channels[id := ChannelState([], false, [], |h.published|)])
  }

  function Cancelled<Id, E>(h: HubState<Id, E>, id: Id): HubState<Id, E>
    requires h.subscribers <= h.channels.Keys
  {
    if id in h.subscribers then
      h.(subscribers := h.subscribers - {id}, channels := h.channels[id := h.channels[id].(closed := true)])
    else h
  }

  function Received<Id, E>(h: HubState<Id, E>, id: Id): HubState<Id, E>
    requires id in h.channels
  {
    var c := h.channels[id];
    if c.buffer == [] then h
    else h.(channels := h.channels[id := c.(buffer := c.buffer[1..], received := c.received + [c.buffer[0]])])
  }

  /** What was delivered is a gap-free, in-order run of what was published since the subscription. */
  ghost predicate InStep<E>(c: ChannelState<E>, published: seq<E>) {
    && |c.buffer| <= CAPACITY
    && c.since + |Delivered(c)| <= |published|
    && Delivered(c) == published[c.since..c.since + |Delivered(c)|]
  }

  /** A registered subscriber has all of it, but for the event it is still to be offered or did not get. */
  ghost predicate InArrears<Id, E>(h: HubState<Id, E>, id: Id)
    requires id in h.channels
  {
    var c := h.channels[id];
    c.since + |Delivered(c)| + (if id in h.todo + h.slow then 1 else 0) == |h.published|
  }

  ghost predicate Inv<Id, E>(h: HubState<Id, E>) {
    && h.subscribers <= h.channels.Keys && h.todo + h.slow <= h.subscribers && h.todo !! h.slow
    && (forall id | id in h.channels :: InStep(h.channels[id], h.published))
    && (forall id | id in h.channels :: h.channels[id].closed <==> id !in h.subscribers)
    && (forall id | id in h.subscribers :: InArrears(h, id))
  }

  datatype Step<Id, E> = Publish(e: E) | Offer(id: Id) | Evict(id: Id) | Subscribe(id: Id) | Cancel(id: Id) | Receive(id: Id)

  /** One step. The mutex keeps the others out of a Publish under way, all but receives; a subscriber's
      channel is new, and only known channels are received from. */
  ghost predicate Next<Id, E>(h: HubState<Id, E>, s: Step<Id, E>, h': HubState<Id, E>) {
    && h.subscribers <= h.channels.Keys && h.todo + h.slow <= h.subscribers
    && match s
       case Publish(e) => IsIdle(h) && h' == Begun(h, e)
       case Offer(id) => id in h.todo && h.published != [] && h' == Offered(h, id)
       case Evict(id) => h.todo == {} && id in h.slow && h' == Evicted(h, id)
       case Subscribe(id) => IsIdle(h) && id !in h.channels && h' == Subscribed(h, id)
       case Cancel(id) => IsIdle(h) && h' == Cancelled(h, id)
       case Receive(id) => id in h.channels && h' == Received(h, id)
  }

  lemma InStepAfterPublish<E>(c: ChannelState<E>, published: seq<E>, e: E)
    requires InStep(c, published)
    ensures InStep(c, published + [e])
  {
    assert (published + [e])[c.since..c.since + |Delivered(c)|] == published[c.since..c.since + |Delivered(c)|];
  }

  lemma InStepAfterOffer<E>(c: ChannelState<E>, published: seq<E>)
    requires InStep(c, published) && c.since + |Delivered(c)| + 1 == |published| && |c.buffer| < CAPACITY
    ensures var c' := c.(buffer := c.buffer + [published[|published| - 1]]);
            InStep(c', published) && |Delivered(c')| == |Delivered(c)| + 1
  {
    var c' := c.(buffer := c.buffer + [published[|published| - 1]]);
    assert Delivered(c') == Delivered(c) + [published[|published| - 1]];
    assert published[c.since..|published|] == published[c.since..|published| - 1] + [published[|published| - 1]];
  }

  lemma ReceiveKeepsDelivered<E>(c: ChannelState<E>)
    requires c.buffer != []
    ensures Delivered(c.(buffer := c.buffer[1..], received := c.received + [c.buffer[0]])) == Delivered(c)
  {
  }

  lemma BeginKeepsInv<Id, E>(h: HubState<Id, E>, e: E)
    requires Inv(h) && IsIdle(h)
    ensures Inv(Begun(h, e))
  {
    forall id | id in h.channels ensures InStep(h.channels[id], h.published + [e]) {
      InStepAfterPublish(h.channels[id], h.published, e);
    }
    forall id | id in h.subscribers ensures InArrears(Begun(h, e), id) {
      assert InArrears(h, id);
    }
  }

  lemma OfferKeepsInv<Id, E>(h: HubState<Id, E>, id: Id)
    requires Inv(h) && id in h.todo && h.published != []
    ensures Inv(Offered(h, id))
  {
    assert InArrears(h, id);
    if |h.channels[id].buffer| < CAPACITY {
      InStepAfterOffer(h.channels[id], h.published);
    }
    forall other | other in Offered(h, id).subscribers ensures InArrears(Offered(h, id), other) {
      assert InArrears(h, other);
    }
  }

  lemma EvictKeepsInv<Id, E>(h: HubState<Id, E>, id: Id)
    requires Inv(h) && id in h.slow
    ensures Inv(Evicted(h, id))
  {
    forall other | other in Evicted(h, id).subscribers ensures InArrears(Evicted(h, id), other) {
      assert InArrears(h, other);
    }
  }

  lemma ReceiveKeepsInv<Id, E>(h: HubState<Id, E>, id: Id)
    requires Inv(h) && id in h.channels
    ensures Inv(Received(h, id))
  {
    if h.channels[id].buffer != [] {
      ReceiveKeepsDelivered(h.channels[id]);
      assert InStep(Received(h, id).channels[id], h.published);
      forall other | other in h.subscribers ensures InArrears(Received(h, id), other) {
        assert InArrears(h, other);
      }
    }
  }

  lemma MembershipKeepsInv<Id, E>(h: HubState<Id, E>, s: Step<Id, E>, h': HubState<Id, E>)
    requires Inv(h) && Next(h, s, h') && (s.Subscribe? || s.Cancel?)
    ensures Inv(h')
  {
    forall other | other in h'.subscribers ensures InArrears(h', other) {
      assert other in h.subscribers ==> InArrears(h, other);
    }
  }

  lemma StepKeepsInv<Id, E>(h: HubState<Id, E>, s: Step<Id, E>, h': HubState<Id, E>)
    requires Inv(h) && Next(h, s, h')
    ensures Inv(h')
  {
    match s
    case Publish(e) => BeginKeepsInv(h, e);
    case Offer(id) => OfferKeepsInv(h, id);
    case Evict(id) => EvictKeepsInv(h, id);
    case Receive(id) => ReceiveKeepsInv(h, id);
    case _ => MembershipKeepsInv(h, s, h');
  }

  /** A subscriber leaves the hub in a step only by its own cancel or by its eviction, and it is chosen for
      that only by an offer that found 32 undelivered events; no closed channel ever opens or gains an event. */
  lemma LeavesOnlyWhenFull<Id, E>(h: HubState<Id, E>, s: Step<Id, E>, h': HubState<Id, E>, id: Id)
    requires Inv(h) && Next(h, s, h') && id in h.channels
    ensures id in h.subscribers && id !in h'.subscribers <==>
            id in h.subscribers && (s == Cancel(id) || s == Evict(id))
    ensures id !in h.slow && id in h'.slow <==> s == Offer(id) && |h.channels[id].buffer| == CAPACITY
    ensures id in h'.channels && h'.channels[id].since == h.channels[id].since
    ensures h.channels[id].closed ==> h'.channels[id].closed && Delivered(h'.channels[id]) == Delivered(h.channels[id])
    ensures Delivered(h.channels[id]) <= Delivered(h'.channels[id])
  {
    var c := h.channels[id];
    if s == Receive(id) && c.buffer != [] {
      ReceiveKeepsDelivered(c);
    }
    if s == Offer(id) && |c.buffer| < CAPACITY {
      var e := h.published[|h.published| - 1];
      assert Delivered(c.(buffer := c.buffer + [e])) == Delivered(c) + [e];
    }
  }

  ghost predicate IsRun<Id, E>(states: seq<HubState<Id, E>>, steps: seq<Step<Id, E>>) {
    && |states| == |steps| + 1
    && forall i | 0 <= i < |steps| :: StepAt(states, steps, i)
  }

  ghost predicate StepAt<Id, E>(states: seq<HubState<Id, E>>, steps: seq<Step<Id, E>>, i: int)
    requires 0 <= i < |steps| < |states|
  {
    Next(states[i], steps[i], states[i + 1])
  }

  /** What a channel of the earlier state keeps. */
  ghost predicate ChannelLivesOn<Id, E>(h: HubState<Id, E>, h': HubState<Id, E>, id: Id)
    requires id in h.channels
  {
    && id in h'.channels && h'.channels[id].since == h.channels[id].since
    && Delivered(h.channels[id]) <= Delivered(h'.channels[id])
    && (h.channels[id].closed ==> h'.channels[id].closed && Delivered(h'.channels[id]) == Delivered(h.channels[id]))
  }

  /** Every interleaving keeps every subscriber in step with what was published. */
  lemma {:induction false} EveryInterleaving<Id, E>(states: seq<HubState<Id, E>>, steps: seq<Step<Id, E>>, n: nat)
    requires IsRun(states, steps) && n <= |steps| && Inv(states[0])
    ensures Inv(states[n])
    ensures forall id | id in states[0].channels :: ChannelLivesOn(states[0], states[n], id)
  {
    if n > 0 {
      EveryInterleaving(states, steps, n - 1);
      var h, s, h' := states[n - 1], steps[n - 1], states[n];
      assert StepAt(states, steps, n - 1);
      StepKeepsInv(h, s, h');
      forall id | id in states[0].channels ensures ChannelLivesOn(states[0], h', id) {
        assert ChannelLivesOn(states[0], h, id);
        LeavesOnlyWhenFull(h, s, h', id);
      }
    }
  }

  /** In every interleaving, a subscriber that is registered while no Publish is under way has been handed
      exactly what was published since it subscribed. */
  lemma IdleMeansDelivered<Id, E>(states: seq<HubState<Id, E>>, steps: seq<Step<Id, E>>, n: nat, id: Id)
    requires IsRun(states, steps) && n <= |steps| && Inv(states[0])
    requires IsIdle(states[n]) && id in states[n].subscribers
    ensures id in states[n].channels && states[n].channels[id].since <= |states[n].published|
    ensures Delivered(states[n].channels[id]) == states[n].published[states[n].channels[id].since..]
  {
    EveryInterleaving(states, steps, n);
    assert InArrears(states[n], id) && InStep(states[n].channels[id], states[n].published);
  }

  // ---------------------------------------------------------------- a Publish without receives

  /** A Publish of e from h under way, with no receive since it began. */
  function Midway<Id, E>(h: HubState<Id, E>, e: E, todo: set<Id>, slow: set<Id>): HubState<Id, E>
    requires h.subscribers <= h.channels.Keys
  {
    HubState(
      set id | id in h.subscribers && (id in todo + slow || |h.channels[id].buffer| < CAPACITY),
      map id | id in h.channels ::
        var c := h.channels[id];
        if id !in h.subscribers || id in todo + slow then c
        else if |c.buffer| < CAPACITY then c.(buffer := c.buffer + [e])
        else c.(closed := true),
      h.published + [e], todo, slow)
  }

  lemma OfferMidway<Id, E>(h: HubState<Id, E>, e: E, todo: set<Id>, slow: set<Id>, id: Id)
    requires h.subscribers <= h.channels.Keys && todo + slow <= h.subscribers && todo !! slow && id in todo
    ensures Offered(Midway(h, e, todo, slow), id) ==
            Midway(h, e, todo - {id}, if |h.channels[id].buffer| < CAPACITY then slow else slow + {id})
  {
  }

  lemma EvictMidway<Id, E>(h: HubState<Id, E>, e: E, slow: set<Id>, id: Id)
    requires h.subscribers <= h.channels.Keys && slow <= h.subscribers && id in slow
    requires forall x | x in slow :: |h.channels[x].buffer| >= CAPACITY
    ensures Evicted(Midway(h, e, {}, slow), id) == Midway(h, e, {}, slow - {id})
  {
  }

  /** Putting a step in front of a run. */
  lemma RunFrom<Id, E>(h: HubState<Id, E>, s: Step<Id, E>, states: seq<HubState<Id, E>>, steps: seq<Step<Id, E>>)
    requires IsRun(states, steps) && Next(h, s, states[0])
    ensures IsRun([h] + states, [s] + steps)
  {
    forall i | 0 <= i <= |steps| ensures StepAt([h] + states, [s] + steps, i) {
      assert i > 0 ==> StepAt(states, steps, i - 1);
    }
  }

  ghost predicate OnlyPublishing<Id, E>(steps: seq<Step<Id, E>>) {
    forall i | 0 <= i < |steps| :: steps[i].Offer? || steps[i].Evict?
  }

  lemma {:induction false} EvictingRuns<Id, E>(h: HubState<Id, E>, e: E, slow: set<Id>)
    returns (states: seq<HubState<Id, E>>, steps: seq<Step<Id, E>>)
    requires h.subscribers <= h.channels.Keys && slow <= h.subscribers
    requires forall x | x in slow :: |h.channels[x].buffer| >= CAPACITY
    ensures IsRun(states, steps) && OnlyPublishing(steps)
    ensures states[0] == Midway(h, e, {}, slow) && states[|steps|] == Midway(h, e, {}, {})
  {
    if slow == {} {
      states, steps := [Midway(h, e, {}, {})], [];
    } else {
      var id :| id in slow;
      EvictMidway(h, e, slow, id);
      states, steps := EvictingRuns(h, e, slow - {id});
      RunFrom(Midway(h, e, {}, slow), Evict(id), states, steps);
      states, steps := [Midway(h, e, {}, slow)] + states, [Evict(id)] + steps;
    }
  }

  lemma {:induction false} OfferingRuns<Id, E>(h: HubState<Id, E>, e: E, todo: set<Id>, slow: set<Id>)
    returns (states: seq<HubState<Id, E>>, steps: seq<Step<Id, E>>)
    requires h.subscribers <= h.channels.Keys && todo + slow <= h.subscribers && todo !! slow
    requires forall x | x in slow :: |h.channels[x].buffer| >= CAPACITY
    ensures IsRun(states, steps) && OnlyPublishing(steps)
    ensures states[0] == Midway(h, e, todo, slow) && states[|steps|] == Midway(h, e, {}, {})
    decreases todo
  {
    if todo == {} {
      states, steps := EvictingRuns(h, e, slow);
    } else {
      var id :| id in todo;
      OfferMidway(h, e, todo, slow, id);
      var slow' := if |h.channels[id].buffer| < CAPACITY then slow else slow + {id};
      states, steps := OfferingRuns(h, e, todo - {id}, slow');
      RunFrom(Midway(h, e, todo, slow), Offer(id), states, steps);
      states, steps := [Midway(h, e, todo, slow)] + states, [Offer(id)] + steps;
    }
  }

  /** `Published` is where the steps of one Publish lead, in some order, when nothing is received meanwhile. */
  lemma PublishedIsARun<Id, E>(h: HubState<Id, E>, e: E) returns (states: seq<HubState<Id, E>>, steps: seq<Step<Id, E>>)
    requires IsIdle(h) && h.subscribers <= h.channels.Keys
    ensures IsRun(states, steps) && states[0] == h && states[|steps|] == Published(h, e)
    ensures steps != [] && steps[0] == Publish(e) && OnlyPublishing(steps[1..])
  {
    assert Begun(h, e) == Midway(h, e, h.subscribers, {});
    assert Midway(h, e, {}, {}) == Published(h, e);
    states, steps := OfferingRuns(h, e, h.subscribers, {});
    RunFrom(h, Publish(e), states, steps);
    states, steps := [h] + states, [Publish(e)] + steps;
  }

  lemma PublishedKeepsInv<Id, E>(h: HubState<Id, E>, e: E)
    requires Inv(h) && IsIdle(h)
    ensures Inv(Published(h, e))
  {
    var states, steps := PublishedIsARun(h, e);
    EveryInterleaving(states, steps, |steps|);
  }

  // ---------------------------------------------------------------- as objects

  /** A Go channel of capacity 32. Sending on or closing a closed channel would panic. */
  class Channel<E> {
    var buffer: seq<E>
    var closed: bool
    ghost var received: seq<E>
    ghost const since: nat

    constructor (ghost since: nat)
      ensures buffer == [] && !closed && received == [] && this.since == since
    {
      buffer, closed, received := [], false, [];
      this.since := since;
    }

    /** `select { case ch <- event: default: }` */
    method TrySend(e: E) returns (sent: bool)
      requires !closed
      modifies this`buffer
      ensures sent <==> |old(buffer)| < CAPACITY
      ensures buffer == if sent then old(buffer) + [e] else old(buffer)
    {
      sent := |buffer| < CAPACITY;
      if sent {
        buffer := buffer + [e];
      }
    }

    /** `event, ok := <-ch`, when an event is there or the channel is closed. */
    method Take() returns (ok: bool, e: seq<E>)
      modifies this`buffer, this`received
      ensures ok <==> old(buffer) != [] || !closed
      ensures old(buffer) == [] ==> e == [] && unchanged(this)
      ensures old(buffer) != [] ==>
                e == [old(buffer)[0]] && buffer == old(buffer)[1..] && received == old(received) + [old(buffer)[0]]
    {
      ok, e := buffer != [] || !closed, [];
      if buffer != [] {
        e := [buffer[0]];
        received, buffer := received + e, buffer[1..];
      }
    }

    method Close()
      requires !closed
      modifies this`closed
      ensures closed
    {
      closed := true;
    }

    ghost function State(): ChannelState<E>
      reads this
    {
      ChannelState(buffer, closed, received, since)
    }
  }

  class Hub<E> {
    var subscribers: set<Channel<E>>
    ghost var channels: set<Channel<E>>
    ghost var published: seq<E>

    constructor ()
      ensures Valid() && View() == HubState({}, map[], [], {}, {}) && channels == {}
    {
      subscribers, channels, published := {}, {}, [];
    }

    ghost function View(): HubState<Channel<E>, E>
      reads this, channels
    {
      HubState(subscribers, map c | c in channels :: c.State(), published, {}, {})
    }

    ghost predicate Valid()
      reads this, channels
    {
      Inv(View())
    }

    /** The sending loop of `Publish`, in any order of the subscribers; `slow` are the full ones. */
    method FanOut(e: E) returns (slow: set<Channel<E>>)
      requires forall c | c in subscribers :: !c.closed
      modifies subscribers`buffer
      ensures slow == set c | c in subscribers && |old(c.buffer)| >= CAPACITY
      ensures forall c | c in subscribers - slow :: c.buffer == old(c.buffer) + [e]
      ensures forall c | c in slow :: c.buffer == old(c.buffer)
    {
      slow := {};
      var todo := subscribers;
      while todo != {}
        invariant todo <= subscribers && slow <= subscribers - todo
        invariant forall c | c in slow :: |old(c.buffer)| >= CAPACITY && c.buffer == old(c.buffer)
        invariant forall c | c in todo :: c.buffer == old(c.buffer)
        invariant forall c | c in subscribers - todo - slow ::
          |old(c.buffer)| < CAPACITY && c.buffer == old(c.buffer) + [e]
      {
        var ch :| ch in todo;
        todo := todo - {ch};
        var sent := ch.TrySend(e);
        if !sent {
          slow := slow + {ch};
        }
      }
    }

    /** The evicting loop of `Publish`. */
    method Evict(slow: set<Channel<E>>)
      requires slow <= subscribers && forall c | c in slow :: !c.closed
      modifies this`subscribers, slow`closed
      ensures subscribers == old(subscribers) - slow
      ensures forall c | c in slow :: c.closed
    {
      var todo := slow;
      while todo != {}
        invariant todo <= slow && subscribers == old(subscribers) - (slow - todo)
        invariant forall c | c in slow :: c.closed <==> c !in todo
      {
        var ch :| ch in todo;
        todo := todo - {ch};
        subscribers := subscribers - {ch};
        ch.Close();
      }
    }

    /** What `Publish` has done to one channel. */
    ghost predicate IsPublishedTo(h: HubState<Channel<E>, E>, e: E, c: Channel<E>)
      requires c in h.channels
      reads c
    {
      var was := h.channels[c];
      c.State() == if c !in h.subscribers then was
                   else if |was.buffer| < CAPACITY then was.(buffer := was.buffer + [e])
                   else was.(closed := true)
    }

    lemma ViewIsPublished(h: HubState<Channel<E>, E>, e: E)
      requires h.subscribers <= h.channels.Keys && channels == h.channels.Keys && published == h.published + [e]
      requires subscribers == set c | c in h.subscribers && |h.channels[c].buffer| < CAPACITY
      requires forall c | c in channels :: IsPublishedTo(h, e, c)
      ensures View() == Published(h, e)
    {
      assert View().channels == Published(h, e).channels;
    }

    /** `Publish`. */
    method Publish(e: E)
      requires Valid()
      modifies this, channels
      ensures Valid() && channels == old(channels)
      ensures View() == Published(old(View()), e)
    {
      ghost var h := View();
      assert forall c | c in channels :: h.channels[c] == c.State();
      assert forall c | c in subscribers :: c in h.channels;
      var slow := FanOut(e);
      Evict(slow);
      published := published + [e];
      ViewIsPublished(h, e);
      PublishedKeepsInv(h, e);
    }

    /** `Subscribe`. */
    method Subscribe() returns (ch: Channel<E>)
      requires Valid()
      modifies this
      ensures Valid() && fresh(ch) && channels == old(channels) + {ch}
      ensures View() == Subscribed(old(View()), ch)
    {
      ghost var h := View();
      ch := new Channel(|published|);
      subscribers := subscribers + {ch};
      channels := channels + {ch};
      assert ch !in h.channels;
      assert View().channels == Subscribed(h, ch).channels;
      StepKeepsInv(h, Step.Subscribe(ch), View());
    }

    /** The cancel closure of `Subscribe`. */
    method Cancel(ch: Channel<E>)
      requires Valid() && ch in channels
      modifies this, ch`closed
      ensures Valid() && channels == old(channels)
      ensures View() == Cancelled(old(View()), ch)
    {
      ghost var h := View();
      assert h.channels[ch] == ch.State();
      if ch in subscribers {
        subscribers := subscribers - {ch};
        ch.Close();
      }
      assert View().channels == Cancelled(h, ch).channels;
      StepKeepsInv(h, Step.Cancel(ch), View());
    }

    /** A receive by the stream handler; `ok` is false once the channel is closed and drained. */
    method Receive(ch: Channel<E>) returns (ok: bool, e: seq<E>)
      requires Valid() && ch in channels
      modifies ch`buffer, ch`received
      ensures Valid() && View() == Received(old(View()), ch)
      ensures e == old(ch.buffer)[..if old(ch.buffer) == [] then 0 else 1]
      ensures ok <==> old(ch.buffer) != [] || !ch.closed
    {
      ghost var h := View();
      assert h.channels[ch] == ch.State();
      ok, e := ch.Take();
      assert View().channels == Received(h, ch).channels;
      StepKeepsInv(h, Step.Receive(ch), View());
    }
  }
}
