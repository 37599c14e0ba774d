/** The event bus (src/util/event_bus/event_bus.c): a fixed subscription table;
    publishing calls the post function of every matching subscription. */
module EventBus {
  import opened Options

  const AO_COUNT := 6
  const MAX_SUBSCRIPTIONS := 32

  datatype Status = Successful | NullParam | InvalidValue | ActionFailed

  /** The two post functions subscribers register. */
  datatype PostFn = DdlPost | AppPost

  datatype Subscription = Subscription(post: PostFn, event: nat, ao: nat, index: nat)

  datatype Slot = Slot(active: bool, sub: Subscription)

  /** The subscriptions an (active object, event type) pair reaches, in table order. */
  function Matching(table: seq<Subscription>, ao: nat, event: nat): seq<Subscription> {
    if table == [] then []
    else
      var last := table[|table| - 1];
      Matching(table[..|table| - 1], ao, event) + (if last.ao == ao && last.event == event then [last] else [])
  }

  /** Publishing reaches exactly the subscribers of that pair, each once. */
  lemma {:induction false} MatchingExact(table: seq<Subscription>, ao: nat, event: nat)
    ensures forall s :: s in Matching(table, ao, event) <==> s in table && s.ao == ao && s.event == event
    ensures forall s: Subscription :: s.ao == ao && s.event == event ==>
      multiset(Matching(table, ao, event))[s] == multiset(table)[s]
  {
    if table != [] {
      var before, last := table[..|table| - 1], table[|table| - 1];
      MatchingExact(before, ao, event);
      assert table == before + [last];
    }
  }

  class Bus {
    const subscriptions: array<Slot>
    var subscriptionCount: nat

    /** Nothing ever unsubscribes a single slot: the active slots come first. */
    ghost predicate Valid()
      reads this, subscriptions
    {
      && subscriptions.Length == MAX_SUBSCRIPTIONS
      && subscriptionCount <= MAX_SUBSCRIPTIONS
      && forall i :: 0 <= i < MAX_SUBSCRIPTIONS ==> (subscriptions[i].active <==> i < subscriptionCount)
    }

    /** The registered subscriptions, in the order they were made. */
    ghost function Table(): (t: seq<Subscription>)
      requires Valid()
      reads this, subscriptions
      ensures |t| == subscriptionCount
    {
      seq(subscriptionCount, i requires 0 <= i < subscriptionCount && Valid() reads this, subscriptions =>
        subscriptions[i].sub)
    }

    /** `util_event_bus_init` with its mutex created. */
    constructor ()
      ensures Valid() && Table() == [] && fresh(subscriptions)
    {
      subscriptionCount := 0;
      subscriptions := new Slot[MAX_SUBSCRIPTIONS](_ => Slot(false, Subscription(DdlPost, 0, 0, 0)));
    }

    /** Register in the first inactive slot.  The search always finds one once
        the count says there is room. */
    method Subscribe(ao: nat, post: Option<PostFn>, index: nat, event: Option<nat>) returns (status: Status)
      requires Valid()
      modifies this, subscriptions
      ensures Valid()
      ensures status ==
        if AO_COUNT <= ao then InvalidValue
        else if post == None || event == None then NullParam
        else if |old(Table())| == MAX_SUBSCRIPTIONS then ActionFailed
        else Successful
      ensures Table() == old(Table())
        + (if status == Successful then [Subscription(post.value, event.value, ao, index)] else [])
    {
      if ao >= AO_COUNT {
        return InvalidValue;
      }
      if post == None || event == None {
        return NullParam;
      }
      if subscriptionCount >= MAX_SUBSCRIPTIONS {
        return ActionFailed;
      }
      for i := 0 to MAX_SUBSCRIPTIONS
        invariant Valid() && Table() == old(Table()) && subscriptionCount == old(subscriptionCount)
        invariant i <= subscriptionCount
      {
        if !subscriptions[i].active {
          assert i == subscriptionCount;
          subscriptions[i] := Slot(true, Subscription(post.value, event.value, ao, index));
          subscriptionCount := subscriptionCount + 1;
          return Successful;
        }
      }
      status := ActionFailed;
    }

    /** Call every matching subscriber's post function, in table order, and report
        whether there was one.  What the post functions answer is ignored. */
    method Publish(ao: nat, event: nat) returns (status: Status, posted: seq<Subscription>)
      requires Valid()
      ensures ao < AO_COUNT ==> posted == Matching(Table(), ao, event)
      ensures status ==
        if AO_COUNT <= ao then InvalidValue
        else if Matching(Table(), ao, event) != [] then Successful
        else ActionFailed
      ensures AO_COUNT <= ao ==> posted == []
    {
      posted := [];
      if ao >= AO_COUNT {
        return InvalidValue, [];
      }
      var matched := false;
      ghost var table := Table();
      for i := 0 to MAX_SUBSCRIPTIONS
        invariant posted == Matching(table[..if i < subscriptionCount then i else subscriptionCount], ao, event)
        invariant matched <==> posted != []
      {
        var slot := subscriptions[i];
        if i < subscriptionCount {
          assert table[..i + 1][..i] == table[..i];
        }
        if slot.active && slot.sub.ao == ao && slot.sub.event == event {
          posted := posted + [slot.sub];
          matched := true;
        }
      }
      assert table[..subscriptionCount] == table;
      status := if matched then Successful else ActionFailed;
    }

    /** `util_event_bus_delete`. */
    method Delete()
      requires Valid()
      modifies this, subscriptions
      ensures Valid() && Table() == []
    {
      for i := 0 to MAX_SUBSCRIPTIONS
        invariant forall j :: 0 <= j < i ==> !subscriptions[j].active
      {
        subscriptions[i] := subscriptions[i].(active := false);
      }
      subscriptionCount := 0;
    }
  }
}
