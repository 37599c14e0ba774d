/** How the application is wired at start-up (src/ddl/ddl.c, src/app/app.c):
    which object subscribes to what, and which queue a posted event ends up in. */
module Wiring {
  import opened Options
  import opened EventBus
  import opened Scheduler

  const AO_SCHEDULER := 0
  const AO_DISTANCE := 1
  const AO_SERVO := 2
  const AO_TEMPERATURE_HUMIDITY := 3
  const AO_GPS := 4
  const AO_BROADCASTER := 5

  // every module numbers its own events from here
  const EVENT_USER := 4

  const DISTANCE_READ := EVENT_USER
  const SERVO_SCAN := EVENT_USER
  const SERVO_NOISE_DETECTED := EVENT_USER + 1
  const SERVO_LOCK := EVENT_USER + 2
  const SERVO_DIRECTIONS := EVENT_USER + 3
  const TEMPERATURE_HUMIDITY_READ := EVENT_USER
  const GPS_READ := EVENT_USER
  const SCHEDULER_START := EVENT_USER
  const BROADCASTER_UPDATE := EVENT_USER

  datatype Module = Module(ao: nat, subscribeEvents: seq<nat>)

  const DDL_MODULES: seq<Module> := [
    Module(AO_DISTANCE, [DISTANCE_READ]),
    Module(AO_SERVO, [SERVO_SCAN, SERVO_DIRECTIONS, SERVO_NOISE_DETECTED, SERVO_LOCK]),
    Module(AO_TEMPERATURE_HUMIDITY, [TEMPERATURE_HUMIDITY_READ]),
    Module(AO_GPS, [GPS_READ])
  ]

  const APP_MODULES: seq<Module> := [
    Module(AO_SCHEDULER, [SCHEDULER_START]),
    Module(AO_BROADCASTER, [BROADCASTER_UPDATE])
  ]

  function Modules(layer: PostFn): seq<Module> {
    match layer
    case DdlPost => DDL_MODULES
    case AppPost => APP_MODULES
  }

  /** `ddl_post` and `app_post`: the active object whose queue receives an event
      posted to a module, if the module exists. */
  function Destination(layer: PostFn, index: nat): Option<nat> {
    if index < |Modules(layer)| then Some(Modules(layer)[index].ao) else None
  }

  /** The subscriptions of the first `events` events of one module. */
  function ModuleSubscriptions(layer: PostFn, index: nat, events: nat): seq<Subscription>
    requires index < |Modules(layer)| && events <= |Modules(layer)[index].subscribeEvents|
  {
    var m := Modules(layer)[index];
    seq(events, i requires 0 <= i < events => Subscription(layer, m.subscribeEvents[i], m.ao, index))
  }

  function AllSubscriptions(layer: PostFn, index: nat): seq<Subscription>
    requires index < |Modules(layer)|
  {
    ModuleSubscriptions(layer, index, |Modules(layer)[index].subscribeEvents|)
  }

  /** The subscriptions of the first `count` modules of a layer. */
  function LayerSubscriptions(layer: PostFn, count: nat): seq<Subscription>
    requires count <= |Modules(layer)|
  {
    if count == 0 then []
    else LayerSubscriptions(layer, count - 1) + AllSubscriptions(layer, count - 1)
  }

  /** The whole table after start-up. */
  function WiredTable(): seq<Subscription> {
    LayerSubscriptions(DdlPost, 4) + LayerSubscriptions(AppPost, 2)
  }

  lemma {:induction false} LayerSize(layer: PostFn, count: nat)
    requires count <= |Modules(layer)|
    ensures |LayerSubscriptions(layer, count)| <= 4 * count
  {
    if count > 0 {
      LayerSize(layer, count - 1);
    }
  }

  /** The first module that fails, if any. */
  function FirstFailure(initialised: seq<Status>): (k: nat)
    ensures k <= |initialised|
    ensures forall i :: 0 <= i < k ==> initialised[i] == Successful
    ensures k < |initialised| ==> initialised[k] != Successful
  {
    if initialised == [] || initialised[0] != Successful then 0 else 1 + FirstFailure(initialised[1..])
  }

  lemma FailsFirst(initialised: seq<Status>, index: nat)
    requires index <= |initialised| && forall k :: 0 <= k < index ==> initialised[k] == Successful
    requires index < |initialised| ==> initialised[index] != Successful
    ensures FirstFailure(initialised) == index
  {
  }

  lemma LayerGrows(table: seq<Subscription>, layer: PostFn, index: nat)
    requires index < |Modules(layer)|
    ensures table + LayerSubscriptions(layer, index) + AllSubscriptions(layer, index)
         == table + LayerSubscriptions(layer, index + 1)
  {
  }

  /** The loops of `ddl_init` (and, with one event a module, of `app_init`):
      initialise each module and subscribe its events, stopping at the first
      module that fails.  `initialised` are the outcomes of the module inits. */
  method InitLayer(bus: Bus, layer: PostFn, initialised: seq<Status>) returns (status: Status)
    requires bus.Valid() && |initialised| == |Modules(layer)|
    requires |bus.Table()| <= 16
    modifies bus, bus.subscriptions
    ensures bus.Valid()
    ensures var k := FirstFailure(initialised);
      && status == (if k < |initialised| then initialised[k] else Successful)
      && bus.Table() == old(bus.Table()) + LayerSubscriptions(layer, k)
  {
    ghost var table := bus.Table();
    for index := 0 to |Modules(layer)|
      invariant bus.Valid()
      invariant forall k :: 0 <= k < index ==> initialised[k] == Successful
      invariant bus.Table() == table + LayerSubscriptions(layer, index)
    {
      status := initialised[index];
      if status != Successful {
        FailsFirst(initialised, index);
        return;
      }
      LayerSize(layer, index);
      SubscribeModule(bus, layer, index);
      LayerGrows(table, layer, index);
    }
    FailsFirst(initialised, |initialised|);
    status := Successful;
  }

  /** `ddl_init`, the broadcaster's configuration with its outcome, then the
      subscriptions of `app_init`: the table of the running application. */
  method Start(ddl: seq<Status>, configured: Status, app: seq<Status>) returns (bus: Bus, status: Status)
    requires |ddl| == |DDL_MODULES| && |app| == |APP_MODULES|
    ensures var d, a := FirstFailure(ddl), FirstFailure(app);
      && status == (if d < |ddl| then ddl[d]
                    else if configured != Successful then configured
                    else if a < |app| then app[a]
                    else Successful)
      && bus.Valid()
      && bus.Table() == LayerSubscriptions(DdlPost, d)
        + (if d < |ddl| || configured != Successful then [] else LayerSubscriptions(AppPost, a))
    ensures status == Successful ==> bus.Table() == WiredTable()
  {
    bus := new Bus();
    status := InitLayer(bus, DdlPost, ddl);
    assert [] + LayerSubscriptions(DdlPost, FirstFailure(ddl)) == bus.Table();
    if status != Successful {
      return;
    }
    status := configured;
    if status == Successful {
      LayerSize(DdlPost, 4);
      status := InitLayer(bus, AppPost, app);
    }
  }

  /** The inner loop: one module's events, all of which fit. */
  method SubscribeModule(bus: Bus, layer: PostFn, index: nat)
    requires bus.Valid() && index < |Modules(layer)| && |bus.Table()| + 4 <= MAX_SUBSCRIPTIONS
    modifies bus, bus.subscriptions
    ensures bus.Valid() && bus.Table() == old(bus.Table()) + AllSubscriptions(layer, index)
  {
    var m := Modules(layer)[index];
    for i := 0 to |m.subscribeEvents|
      invariant bus.Valid()
      invariant bus.Table() == old(bus.Table()) + ModuleSubscriptions(layer, index, i)
    {
      var status := bus.Subscribe(m.ao, Some(layer), index, Some(m.subscribeEvents[i]));
      assert status == Successful;
      assert ModuleSubscriptions(layer, index, i + 1) ==
        ModuleSubscriptions(layer, index, i) + [Subscription(layer, m.subscribeEvents[i], m.ao, index)];
    }
  }

  /** The scheduler slots `app_init` fills. */
  const REGISTRATIONS: seq<Subscriber> := [
    Subscriber(AO_DISTANCE, DISTANCE_READ),
    Subscriber(AO_SERVO, SERVO_DIRECTIONS),
    Subscriber(AO_TEMPERATURE_HUMIDITY, TEMPERATURE_HUMIDITY_READ),
    Subscriber(AO_GPS, GPS_READ),
    Subscriber(AO_BROADCASTER, BROADCASTER_UPDATE)
  ]

  /** The last part of `app_init`. */
  method RegisterSlots(scheduler: SchedulerObject) returns (status: Status)
    requires scheduler.Valid() && scheduler.Occupied() == {}
    modifies scheduler.subscribers
    ensures scheduler.Valid() && status == Successful
    ensures forall s :: 0 <= s < SUBSCRIBERS_MAX ==>
      scheduler.subscribers[s] == if s < |REGISTRATIONS| then Some(REGISTRATIONS[s]) else None
  {
    assert forall s: nat :: s < SUBSCRIBERS_MAX && scheduler.subscribers[s].Some? ==> s in scheduler.Occupied();
    for slot := 0 to |REGISTRATIONS|
      invariant scheduler.Valid()
      invariant forall s :: 0 <= s < SUBSCRIBERS_MAX ==>
        scheduler.subscribers[s] == if s < slot then Some(REGISTRATIONS[s]) else None
    {
      ghost var before := scheduler.subscribers[..];
      status := scheduler.Subscribe(slot, REGISTRATIONS[slot].ao, Some(REGISTRATIONS[slot].event));
      assert status == Successful;
      assert scheduler.subscribers[..] == before[slot := Some(REGISTRATIONS[slot])];
      assert forall s :: 0 <= s < SUBSCRIBERS_MAX ==> scheduler.subscribers[s] == scheduler.subscribers[..][s];
    }
    status := Successful;
  }

  // ---------------------------------------------------------------- routing

  /** A module subscribed to this event of this object exists. */
  ghost predicate Served(ao: nat, event: nat) {
    exists layer, index ::
      0 <= index < |Modules(layer)| && Modules(layer)[index].ao == ao && event in Modules(layer)[index].subscribeEvents
  }

  lemma {:induction false} LayerMembers(layer: PostFn, count: nat, s: Subscription)
    requires count <= |Modules(layer)|
    ensures s in LayerSubscriptions(layer, count) <==>
      && s.post == layer && s.index < count
      && s.ao == Modules(layer)[s.index].ao && s.event in Modules(layer)[s.index].subscribeEvents
  {
    if count > 0 {
      LayerMembers(layer, count - 1, s);
      var events := Modules(layer)[count - 1].subscribeEvents;
      var subs := ModuleSubscriptions(layer, count - 1, |events|);
      if s.post == layer && s.index == count - 1 && s.ao == Modules(layer)[count - 1].ao && s.event in events {
        var i :| 0 <= i < |events| && events[i] == s.event;
        assert subs[i] == s;
      }
    }
  }

  /** A subscription start-up makes. */
  ghost predicate Wired(s: Subscription) {
    && s.index < |Modules(s.post)|
    && s.ao == Modules(s.post)[s.index].ao && s.event in Modules(s.post)[s.index].subscribeEvents
  }

  lemma WiredMembers(s: Subscription)
    ensures s in WiredTable() <==> Wired(s)
  {
    LayerMembers(DdlPost, 4, s);
    LayerMembers(AppPost, 2, s);
  }

  /** On the wired bus an event published for an object reaches only that
      object's queue, whatever its number means to other modules, and it reaches
      it exactly when a module of that object subscribed to it. */
  lemma {:induction false} Routing(ao: nat, event: nat)
    ensures forall s :: s in Matching(WiredTable(), ao, event) ==> Destination(s.post, s.index) == Some(ao)
    ensures Matching(WiredTable(), ao, event) != [] <==> Served(ao, event)
  {
    forall s: Subscription
      ensures s in WiredTable() <==> Wired(s)
    {
      WiredMembers(s);
    }
    RoutingOn(WiredTable(), ao, event);
  }

  lemma {:induction false} RoutingOn(table: seq<Subscription>, ao: nat, event: nat)
    requires forall s: Subscription :: s in table <==> Wired(s)
    ensures forall s :: s in Matching(table, ao, event) ==> Destination(s.post, s.index) == Some(ao)
    ensures Matching(table, ao, event) != [] <==> Served(ao, event)
  {
    var posted := Matching(table, ao, event);
    MatchingExact(table, ao, event);
    if posted != [] {
      assert Wired(posted[0]);
    }
    if Served(ao, event) {
      var layer, index :|
        && 0 <= index < |Modules(layer)|
        && Modules(layer)[index].ao == ao && event in Modules(layer)[index].subscribeEvents;
      assert Wired(Subscription(layer, event, ao, index));
    }
  }

  /** Every publication of the wired scheduler succeeds and posts, to the queue
      of the object its slot names and to no other. */
  lemma SlotRouting(slot: nat)
    requires slot < |REGISTRATIONS|
    ensures var r := REGISTRATIONS[slot];
      && r.ao < AO_COUNT
      && Matching(WiredTable(), r.ao, r.event) != []
      && forall s :: s in Matching(WiredTable(), r.ao, r.event) ==> Destination(s.post, s.index) == Some(r.ao)
  {
    var r := REGISTRATIONS[slot];
    Routing(r.ao, r.event);
    var layer, index := if slot == 4 then AppPost else DdlPost, if slot == 4 then 1 else slot;
    assert Modules(layer)[index].ao == r.ao && r.event in Modules(layer)[index].subscribeEvents;
  }

  /** Once the application is wired and its slots are filled, whatever the
      scheduler publishes arrives: the bus reports success and every post goes to
      the queue of the object registered in the slot. */
  lemma PublicationsArrive(o: SchedulerObject, bus: Bus, p: Publication)
    requires bus.Valid() && bus.Table() == WiredTable()
    requires o.Answers(bus, p) && p.slot < |REGISTRATIONS|
    requires o.subscribers[p.slot] == Some(REGISTRATIONS[p.slot])
    ensures p.status == Successful && p.posted != []
    ensures forall s :: s in p.posted ==> Destination(s.post, s.index) == Some(REGISTRATIONS[p.slot].ao)
  {
    SlotRouting(p.slot);
  }
}
