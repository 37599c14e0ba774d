/** The round-robin scheduler (src/app/scheduler/scheduler.c and
    scheduler_fsm.c): a periodic tick rotates over six slots and publishes the
    event of every occupied one. */
module Scheduler {
  import opened Options
  import opened EventBus
  import opened Fsm

  const SUBSCRIBERS_MAX := 6

  datatype Subscriber = Subscriber(ao: nat, event: nat)

  // ------------------------------------------------------------- the rotation

  /** The slots published over some turns since run was entered, the entry being
      turn 0: turn k publishes slot k mod 6 if it is occupied by then. */
  function Rotation(occupancy: seq<set<nat>>): seq<nat> {
    if occupancy == [] then []
    else
      var k := |occupancy| - 1;
      Rotation(occupancy[..k]) + (if k % SUBSCRIBERS_MAX in occupancy[k] then [k % SUBSCRIBERS_MAX] else [])
  }

  function Count(slots: seq<nat>, slot: nat): nat {
    if slots == [] then 0 else Count(slots[..|slots| - 1], slot) + (if slots[|slots| - 1] == slot then 1 else 0)
  }

  lemma CountSnoc(slots: seq<nat>, more: nat, slot: nat)
    ensures Count(slots + [more], slot) == Count(slots, slot) + (if more == slot then 1 else 0)
  {
    assert (slots + [more])[..|slots|] == slots;
  }

  /** How many of the first `n` turns are slot `slot`'s. */
  function Turns(n: nat, slot: nat): nat {
    if slot < n then (n - 1 - slot) / SUBSCRIBERS_MAX + 1 else 0
  }

  lemma Div6(q: int, m: int)
    requires 0 <= m < 6
    ensures (6 * q + m) / 6 == q
  {
  }

  lemma TurnsStep(n: nat, slot: nat)
    requires slot < SUBSCRIBERS_MAX
    ensures Turns(n + 1, slot) == Turns(n, slot) + (if n % SUBSCRIBERS_MAX == slot then 1 else 0)
  {
    var q, r := n / 6, n % 6;
    if slot < n {
      if r < slot {
        Div6(q - 1, 6 + r - slot);
        Div6(q - 1, 5 + r - slot);
      } else if r == slot {
        Div6(q, 0);
        Div6(q - 1, 5);
      } else {
        Div6(q, r - slot);
        Div6(q, r - slot - 1);
      }
    }
  }

  /** The slot is occupied from turn `first` on, and not before. */
  ghost predicate OccupiedFrom(occupancy: seq<set<nat>>, slot: nat, first: nat) {
    first <= |occupancy| && forall k :: 0 <= k < |occupancy| ==> (slot in occupancy[k] <==> first <= k)
  }

  /** Since it became occupied a slot has been published at each of its turns and
      at no other: as often as it has had turns in all, less those before. */
  lemma {:induction false} FairShare(occupancy: seq<set<nat>>, slot: nat, first: nat)
    requires slot < SUBSCRIBERS_MAX && OccupiedFrom(occupancy, slot, first)
    ensures Count(Rotation(occupancy), slot) == Turns(|occupancy|, slot) - Turns(first, slot)
  {
    if occupancy == [] {
    } else if first == |occupancy| {
      var k := |occupancy| - 1;
      TurnsStep(k, slot);
      FairShare(occupancy[..k], slot, k);
      RotationTurn(occupancy, slot);
    } else {
      var k := |occupancy| - 1;
      TurnsStep(k, slot);
      FairShare(occupancy[..k], slot, first);
      RotationTurn(occupancy, slot);
    }
  }

  /** What the last turn adds. */
  lemma RotationTurn(occupancy: seq<set<nat>>, slot: nat)
    requires occupancy != []
    ensures var k := |occupancy| - 1;
      Count(Rotation(occupancy), slot) == Count(Rotation(occupancy[..k]), slot)
        + (if k % SUBSCRIBERS_MAX == slot && slot in occupancy[k] then 1 else 0)
  {
    var k := |occupancy| - 1;
    var turn := k % SUBSCRIBERS_MAX;
    if turn in occupancy[k] {
      CountSnoc(Rotation(occupancy[..k]), turn, slot);
    } else {
      assert Rotation(occupancy[..k]) + [] == Rotation(occupancy[..k]);
    }
  }

  /** No two slots occupied since the entry are ever more than one publication apart. */
  lemma Balanced(occupancy: seq<set<nat>>, a: nat, b: nat)
    requires a < SUBSCRIBERS_MAX && b < SUBSCRIBERS_MAX
    requires OccupiedFrom(occupancy, a, 0) && OccupiedFrom(occupancy, b, 0)
    ensures -1 <= Count(Rotation(occupancy), a) - Count(Rotation(occupancy), b) <= 1
  {
    FairShare(occupancy, a, 0);
    FairShare(occupancy, b, 0);
  }

  /** A slot once given away is never taken back. */
  ghost predicate Growing(occupancy: seq<set<nat>>) {
    forall i, j :: 0 <= i < j < |occupancy| ==> occupancy[i] <= occupancy[j]
  }

  lemma {:induction false} FirstTurn(occupancy: seq<set<nat>>, slot: nat) returns (first: nat)
    requires Growing(occupancy)
    ensures OccupiedFrom(occupancy, slot, first)
  {
    if occupancy == [] {
      first := 0;
    } else {
      var k := |occupancy| - 1;
      first := FirstTurn(occupancy[..k], slot);
      if first == k && slot !in occupancy[k] {
        first := k + 1;
      } else if first < k {
        assert occupancy[first] <= occupancy[k];
      }
    }
  }

  // ---------------------------------------------------------- the handlers

  datatype State = InitState | ErrorState | IdleState | RunState

  datatype SchedulerEvent = Start | Stop | Tick

  type Slots = s: seq<Option<Subscriber>> | |s| == SUBSCRIBERS_MAX witness seq(SUBSCRIBERS_MAX, _ => None)

  /** What the handlers work on; `occupancy` and `published` record the turns and
      publications since run was entered, and `faulted` an empty slot's missing
      event being used. */
  datatype Data = Data(
    slots: Slots, tick: nat, timerArmed: bool, timerCreated: bool,
    occupancy: seq<set<nat>>, published: seq<nat>, faulted: bool)

  function OccupiedIn(slots: Slots): set<nat> {
    set s: nat | s < SUBSCRIBERS_MAX && slots[s].Some?
  }

  /** A turn begins. */
  function Turned(d: Data): Data {
    d.(occupancy := d.occupancy + [OccupiedIn(d.slots)])
  }

  function Published(d: Data): Data
    requires d.tick < SUBSCRIBERS_MAX
  {
    d.(published := d.published + [d.tick])
  }

  /** Entering run publishes slot 0 without looking whether anybody registered there. */
  function Entered(d: Data): Data {
    var run := Turned(d.(timerArmed := true, occupancy := [], published := []));
    if d.slots[0].None? then run.(faulted := true) else run.(published := [0])
  }

  function Ticked(d: Data): Data {
    var turned := Turned(d.(tick := (d.tick + 1) % SUBSCRIBERS_MAX));
    if d.slots[turned.tick].Some? then Published(turned) else turned
  }

  /** The four state handlers. */
  function Handle(s: State, d: Data, e: Fsm.Event<SchedulerEvent>): (Data, Option<State>) {
    match (s, e)
    case (InitState, Init) => (d, Some(if d.timerCreated then IdleState else ErrorState))
    case (IdleState, Entry) => (d.(tick := 0), None)
    case (IdleState, User(Start)) => (d, Some(RunState))
    case (RunState, Entry) => (Entered(d), None)
    case (RunState, User(Stop)) => (d, Some(IdleState))
    case (RunState, User(Tick)) => (Ticked(d), None)
    case (RunState, Exit) => (d.(timerArmed := false), None)
    case _ => (d, None)
  }

  const HANDLER: Handler<State, Data, SchedulerEvent> := (s, d, e) => Handle(s, d, e)

  /** No entry here transitions. */
  const RANK: State -> nat := s => 0

  lemma HandlersSettle()
    ensures Settles(HANDLER, RANK)
  {
  }

  type Machine = Configuration<State, Data, SchedulerEvent>

  /** While running, the tick counts the turns modulo six and what has been
      published is the rotation's; the repeating timer is armed only while running. */
  ghost predicate Sound(c: Machine) {
    var d := c.data;
    && c.current != InitState && d.tick < SUBSCRIBERS_MAX
    && (d.timerArmed <==> c.current == RunState)
    && (c.current == IdleState ==> d.tick == 0)
    && (c.current == RunState && !d.faulted ==>
      && d.occupancy != [] && d.tick == (|d.occupancy| - 1) % SUBSCRIBERS_MAX
      && 0 in d.occupancy[0]
      && Growing(d.occupancy + [OccupiedIn(d.slots)])
      && d.published == Rotation(d.occupancy))
  }

  lemma TickModulo(k: nat)
    ensures (k % SUBSCRIBERS_MAX + 1) % SUBSCRIBERS_MAX == (k + 1) % SUBSCRIBERS_MAX
  {
  }

  lemma TickKeeps(c: Machine)
    requires Sound(c) && c.current == RunState && !c.data.faulted
    ensures Sound(c.(data := Ticked(c.data)))
  {
    var d, t := c.data, Ticked(c.data);
    TickModulo(|d.occupancy| - 1);
    assert t.occupancy[..|d.occupancy|] == d.occupancy;
    assert d.published + [] == d.published;
    assert Growing(t.occupancy + [OccupiedIn(t.slots)]) by {
      var more := t.occupancy + [OccupiedIn(t.slots)];
      assert more == (d.occupancy + [OccupiedIn(d.slots)]) + [OccupiedIn(d.slots)];
    }
  }

  lemma FirstTurnPublishes(occupied: set<nat>)
    requires 0 in occupied
    ensures Rotation([occupied]) == [0] && Growing([occupied, occupied])
  {
    var turn := [occupied];
    assert turn[..0] == [] && turn[0] == occupied && |turn| - 1 == 0;
    assert Rotation(turn[..0]) == [] && 0 % SUBSCRIBERS_MAX == 0;
  }

  lemma EnterKeeps(d: Data)
    requires d.slots[0].Some?
    ensures var e := Entered(d);
      && e.occupancy == [OccupiedIn(d.slots)] && 0 in OccupiedIn(d.slots)
      && Growing(e.occupancy + [OccupiedIn(e.slots)]) && e.published == Rotation(e.occupancy)
  {
    var occupied := OccupiedIn(d.slots);
    FirstTurnPublishes(occupied);
    assert Entered(d).occupancy == [occupied] && Entered(d).slots == d.slots;
    assert [occupied] + [occupied] == [occupied, occupied];
  }

  /** The state an event leads to. */
  function Successor(s: State, e: SchedulerEvent): State {
    match (s, e)
    case (IdleState, Start) => RunState
    case (RunState, Stop) => IdleState
    case _ => s
  }

  /** Starting and ticking are the rotation's turns. */
  predicate TakesTurn(s: State, e: SchedulerEvent) {
    (s == IdleState && e == Start) || (s == RunState && e == Tick)
  }

  /** The slot whose event the handler publishes, transition included. */
  function Publishes(c: Machine, e: Fsm.Event<SchedulerEvent>): Option<nat> {
    var turn := if c.current == RunState && e != Entry then (c.data.tick + 1) % SUBSCRIBERS_MAX else 0;
    var starts := c.current == IdleState && e == User(Start);
    var ticks := c.current == RunState && (e == Entry || e == User(Tick));
    if (starts || ticks) && c.data.slots[turn].Some? then Some(turn) else None
  }

  lemma StartKeeps(c: Machine)
    requires Sound(c) && !c.data.faulted && c.current == IdleState
    ensures Settles(HANDLER, RANK)
    ensures var e := Send(HANDLER, RANK, c, User(Start));
      && Sound(e) && e.current == RunState && e.data.slots == c.data.slots
      && (e.data.faulted <==> c.data.slots[0].None?)
  {
    HandlersSettle();
    assert Send(HANDLER, RANK, c, User(Start)).data == Entered(c.data);
    if c.data.slots[0].Some? {
      EnterKeeps(c.data);
    }
  }

  /** Every event keeps the scheduler sound and leads to the right state; a missing
      event is used exactly by a START while slot 0 is empty. */
  lemma SendKeeps(c: Machine, event: SchedulerEvent)
    requires Sound(c) && !c.data.faulted
    ensures Settles(HANDLER, RANK)
    ensures var e := Send(HANDLER, RANK, c, User(event));
      && Sound(e) && e.current == Successor(c.current, event) && e.data.slots == c.data.slots
      && (e.data.faulted <==> c.current == IdleState && event == Start && c.data.slots[0].None?)
  {
    HandlersSettle();
    if c.current == RunState && event == Tick {
      TickKeeps(c);
    } else if c.current == IdleState && event == Start {
      StartKeeps(c);
    }
  }

  /** What is published is the turn's slot, if the turn is taken and occupied. */
  lemma PublishesTurn(c: Machine, event: SchedulerEvent)
    requires Sound(c) && !c.data.faulted
    ensures Settles(HANDLER, RANK)
    ensures var d := Send(HANDLER, RANK, c, User(event)).data;
      d.tick < SUBSCRIBERS_MAX
      && Publishes(c, User(event))
         == if !d.faulted && TakesTurn(c.current, event) && d.slots[d.tick].Some? then Some(d.tick) else None
  {
    HandlersSettle();
  }

  /** The case: nobody has subscribed yet when START arrives. */
  lemma StartBeforeSubscribers()
    ensures Settles(HANDLER, RANK)
    ensures var d := Data(seq(SUBSCRIBERS_MAX, _ => None), 0, false, true, [], [], false);
      var c: Machine := Configuration(IdleState, d, []);
      Sound(c) && Send(HANDLER, RANK, c, User(Start)).data.faulted
  {
    HandlersSettle();
  }

  /** A new subscriber changes nothing that has been published. */
  lemma SubscribeKeeps(c: Machine, slot: nat, s: Subscriber)
    requires Sound(c) && slot < SUBSCRIBERS_MAX && c.data.slots[slot].None?
    ensures Sound(c.(data := c.data.(slots := c.data.slots[slot := Some(s)])))
  {
    var d := c.data;
    var more := d.slots[slot := Some(s)];
    assert OccupiedIn(d.slots) <= OccupiedIn(more);
    if c.current == RunState && !d.faulted {
      var before, after := d.occupancy + [OccupiedIn(d.slots)], d.occupancy + [OccupiedIn(more)];
      forall i, j | 0 <= i < j < |after|
        ensures after[i] <= after[j]
      {
        assert before[i] <= before[j];
      }
    }
  }

  // ------------------------------------------------------- the active object

  /** One publication: the slot it was for, the bus's answer and what it posted. */
  datatype Publication = Publication(slot: nat, status: Status, posted: seq<Subscription>)

  function SlotOf(p: Option<Publication>): Option<nat> {
    if p.Some? then Some(p.value.slot) else None
  }

  class SchedulerObject {
    const subscribers: array<Option<Subscriber>>
    var currentState: State
    var tick: nat
    var timerArmed: bool
    const timerCreated: bool
    ghost var occupancy: seq<set<nat>>
    ghost var published: seq<nat>
    ghost var faulted: bool
    ghost var calls: seq<Call<State, SchedulerEvent>>

    ghost function Now(): Machine
      requires subscribers.Length == SUBSCRIBERS_MAX
      reads this, subscribers
    {
      Configuration(
        currentState, Data(subscribers[..], tick, timerArmed, timerCreated, occupancy, published, faulted), calls)
    }

    ghost predicate Valid()
      reads this, subscribers
    {
      subscribers.Length == SUBSCRIBERS_MAX && Sound(Now())
    }

    ghost function Occupied(): set<nat>
      requires subscribers.Length == SUBSCRIBERS_MAX
      reads this, subscribers
    {
      OccupiedIn(subscribers[..])
    }

    /** `app_scheduler_init`, and INIT handled by the new thread. */
    constructor (bus: Bus, timerCreated: bool)
      requires bus.Valid()
      ensures Valid() && fresh(subscribers) && Occupied() == {} && !faulted
      ensures currentState == if timerCreated then IdleState else ErrorState
    {
      currentState := InitState;
      tick, timerArmed, occupancy, published, faulted, calls := 0, false, [], [], false, [];
      this.timerCreated := timerCreated;
      subscribers := new Option<Subscriber>[SUBSCRIBERS_MAX](_ => None);
      new;
      HandlersSettle();
      var publication := HandleEvent(bus, Init);
    }

    /** `app_scheduler_subscribe`, at any time: a slot is given away once. */
    method Subscribe(slot: nat, ao: nat, event: Option<nat>) returns (status: Status)
      requires Valid()
      modifies subscribers
      ensures Valid()
      ensures status ==
        if SUBSCRIBERS_MAX <= slot then InvalidValue
        else if event == None then NullParam
        else if old(subscribers[..])[slot].Some? then ActionFailed
        else Successful
      ensures subscribers[..] ==
        if status == Successful then old(subscribers[..])[slot := Some(Subscriber(ao, event.value))]
        else old(subscribers[..])
    {
      if slot >= SUBSCRIBERS_MAX {
        return InvalidValue;
      }
      if event == None {
        return NullParam;
      }
      if subscribers[slot].Some? {
        return ActionFailed;
      }
      SubscribeKeeps(Now(), slot, Subscriber(ao, event.value));
      subscribers[slot] := Some(Subscriber(ao, event.value));
      assert subscribers[..] == old(subscribers[..])[slot := Some(Subscriber(ao, event.value))];
      status := Successful;
    }

    /** The publication is the bus's answer for the object and event registered in
        its slot. */
    ghost predicate Answers(bus: Bus, p: Publication)
      requires bus.Valid()
      reads this, subscribers, bus, bus.subscriptions
    {
      && p.slot < subscribers.Length && subscribers[p.slot].Some?
      && var s := subscribers[p.slot].value;
      && p.posted == (if s.ao < AO_COUNT then Matching(bus.Table(), s.ao, s.event) else [])
      && p.status == (if AO_COUNT <= s.ao then InvalidValue else if p.posted != [] then Successful else ActionFailed)
    }

    method PublishSlot(bus: Bus, slot: nat) returns (p: Publication)
      requires bus.Valid() && slot < subscribers.Length && subscribers[slot].Some?
      ensures p.slot == slot && Answers(bus, p)
    {
      var s := subscribers[slot].value;
      var status, posted := bus.Publish(s.ao, s.event);
      p := Publication(slot, status, posted);
    }

    /** One event handled to completion.  `faulted` afterwards means that the event
        of an empty slot 0 was used, which ends the program. */
    method SendEvent(bus: Bus, event: SchedulerEvent) returns (publication: Option<Publication>)
      requires Valid() && bus.Valid() && !faulted
      modifies this
      ensures Settles(HANDLER, RANK)
      ensures Valid() && Now() == Send(HANDLER, RANK, old(Now()), User(event))
      ensures currentState == Successor(old(currentState), event)
      ensures faulted <==> old(currentState) == IdleState && event == Start && subscribers[0].None?
      ensures publication.Some? <==> !faulted && TakesTurn(old(currentState), event) && subscribers[tick].Some?
      ensures publication.Some? ==> publication.value.slot == tick && Answers(bus, publication.value)
    {
      SendKeeps(Now(), event);
      PublishesTurn(Now(), event);
      publication := HandleEvent(bus, User(event));
    }

    /** The handler of the current state runs. */
    method HandleEvent(bus: Bus, e: Fsm.Event<SchedulerEvent>) returns (publication: Option<Publication>)
      requires Settles(HANDLER, RANK) && subscribers.Length == SUBSCRIBERS_MAX && bus.Valid()
      modifies this
      ensures Now() == Send(HANDLER, RANK, old(Now()), e)
      ensures SlotOf(publication) == Publishes(old(Now()), e)
      ensures publication.Some? ==> Answers(bus, publication.value)
      decreases if e == Entry || e == Exit then 0 else 1, 1
    {
      match currentState {
        case InitState => publication := HandleInit(bus, e);
        case ErrorState => publication, calls := None, calls + [Call(currentState, e)];
        case IdleState => publication := HandleIdle(bus, e);
        case RunState => publication := HandleRun(bus, e);
      }
    }

    method HandleInit(bus: Bus, e: Fsm.Event<SchedulerEvent>) returns (publication: Option<Publication>)
      requires Settles(HANDLER, RANK) && subscribers.Length == SUBSCRIBERS_MAX && bus.Valid()
      requires currentState == InitState
      modifies this
      ensures Now() == Send(HANDLER, RANK, old(Now()), e)
      ensures publication == None
      decreases if e == Entry || e == Exit then 0 else 1, 0
    {
      publication := None;
      calls := calls + [Call(currentState, e)];
      if e == Init {
        publication := TransitionTo(bus, if timerCreated then IdleState else ErrorState);
      }
    }

    method HandleIdle(bus: Bus, e: Fsm.Event<SchedulerEvent>) returns (publication: Option<Publication>)
      requires Settles(HANDLER, RANK) && subscribers.Length == SUBSCRIBERS_MAX && bus.Valid()
      requires currentState == IdleState
      modifies this
      ensures Now() == Send(HANDLER, RANK, old(Now()), e)
      ensures SlotOf(publication) == Publishes(old(Now()), e)
      ensures publication.Some? ==> Answers(bus, publication.value)
      decreases if e == Entry || e == Exit then 0 else 1, 0
    {
      publication := None;
      calls := calls + [Call(currentState, e)];
      if e == Entry {
        tick := 0;
      } else if e == User(Start) {
        publication := TransitionTo(bus, RunState);
      }
    }

    /** The entry of run: nothing looks whether slot 0 has a subscriber. */
    method EnterRun(bus: Bus) returns (publication: Option<Publication>)
      requires subscribers.Length == SUBSCRIBERS_MAX && bus.Valid()
      modifies this`timerArmed, this`occupancy, this`published, this`faulted
      ensures Now() == old(Now()).(data := Entered(old(Now()).data))
      ensures SlotOf(publication) == if subscribers[0].Some? then Some(0) else None
      ensures publication.Some? ==> Answers(bus, publication.value)
    {
      timerArmed, occupancy, published := true, [Occupied()], [];
      assert [] + [Occupied()] == [Occupied()];
      if subscribers[0].None? {
        faulted := true;
        return None;
      }
      var p := PublishSlot(bus, 0);
      published := [0];
      publication := Some(p);
    }

    method NextTurn(bus: Bus) returns (publication: Option<Publication>)
      requires subscribers.Length == SUBSCRIBERS_MAX && bus.Valid()
      modifies this`tick, this`occupancy, this`published
      ensures Now() == old(Now()).(data := Ticked(old(Now()).data))
      ensures SlotOf(publication) == if subscribers[tick].Some? then Some(tick) else None
      ensures publication.Some? ==> Answers(bus, publication.value)
    {
      tick := (tick + 1) % SUBSCRIBERS_MAX;
      occupancy := occupancy + [Occupied()];
      if subscribers[tick].None? {
        return None;
      }
      var p := PublishSlot(bus, tick);
      published := published + [tick];
      publication := Some(p);
    }

    method HandleRun(bus: Bus, e: Fsm.Event<SchedulerEvent>) returns (publication: Option<Publication>)
      requires Settles(HANDLER, RANK) && subscribers.Length == SUBSCRIBERS_MAX && bus.Valid()
      requires currentState == RunState
      modifies this
      ensures Now() == Send(HANDLER, RANK, old(Now()), e)
      ensures SlotOf(publication) == Publishes(old(Now()), e)
      ensures publication.Some? ==> Answers(bus, publication.value)
      decreases if e == Entry || e == Exit then 0 else 1, 0
    {
      publication := None;
      ghost var called := Now().(calls := calls + [Call(currentState, e)]);
      calls := calls + [Call(currentState, e)];
      assert Now() == called;
      if e == Entry {
        publication := EnterRun(bus);
        assert Now() == called.(data := Entered(called.data));
      } else if e == User(Stop) {
        publication := TransitionTo(bus, IdleState);
      } else if e == User(Tick) {
        publication := NextTurn(bus);
        assert Now() == called.(data := Ticked(called.data));
      } else if e == Exit {
        timerArmed := false;
      }
    }

    /** `util_fsm_transition`; no entry here transitions. */
    method TransitionTo(bus: Bus, next: State) returns (publication: Option<Publication>)
      requires Settles(HANDLER, RANK) && subscribers.Length == SUBSCRIBERS_MAX && bus.Valid()
      modifies this
      ensures Now() == Transition(HANDLER, RANK, old(Now()), next)
      ensures SlotOf(publication) == if next == RunState && subscribers[0].Some? then Some(0) else None
      ensures publication.Some? ==> Answers(bus, publication.value)
      decreases 0, 2
    {
      TransitionAsSends(HANDLER, RANK, Now(), next);
      publication := HandleEvent(bus, Exit);
      currentState := next;
      publication := HandleEvent(bus, Entry);
    }
  }

  /** What a running scheduler has published since it entered run: every slot once
      at each of its turns from the one that found it occupied, so a slot occupied
      at the entry gets its full share. */
  lemma PublishedFairly(o: SchedulerObject, slot: nat) returns (first: nat)
    requires o.Valid() && o.currentState == RunState && !o.faulted && slot < SUBSCRIBERS_MAX
    ensures OccupiedFrom(o.occupancy, slot, first)
    ensures Count(o.published, slot) == Turns(|o.occupancy|, slot) - Turns(first, slot)
    ensures var ticks := |o.occupancy| - 1;
      slot in o.occupancy[0] ==>
        Count(o.published, slot) == if slot <= ticks then (ticks - slot) / SUBSCRIBERS_MAX + 1 else 0
  {
    var more := o.occupancy + [o.Occupied()];
    assert Growing(o.occupancy) by {
      forall i, j | 0 <= i < j < |o.occupancy|
        ensures o.occupancy[i] <= o.occupancy[j]
      {
        assert more[i] <= more[j];
      }
    }
    first := FirstTurn(o.occupancy, slot);
    FairShare(o.occupancy, slot, first);
  }
}
