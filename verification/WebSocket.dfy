/** The single-client WebSocket server (pi-streaming/websocket_server.c): a ring
    of 256 messages that drops its oldest when full, and the connection events
    that start and end a client's session. */
module WebSocket {
  import opened Options
  import opened Bytes
  import opened Ring

  const WS_MAX_MSG_SIZE := 4096
  const WS_QUEUE_SIZE := 256

  type Message = seq<Byte>

  /** A queued message, and whether it came from the detector. */
  datatype Entry = Entry(detector: bool, data: Message)

  /** What became of a message that left the ring. */
  datatype Fate = Written(socket: nat, payload: Message) | Dropped

  /** The server with the history of its current session: every message queued
      since the session began, and the fates of the oldest of them; the rest is
      the ring. */
  datatype Server = Server(client: Option<nat>, history: seq<Entry>, fates: seq<Fate>, dropped: nat)

  datatype Event =
    | Established(socket: nat)
    | Closed(socket: nat)
    | Writeable(socket: nat)
    | Queue(entry: Entry)

  datatype Callback = Connect | Disconnect

  const START := Server(None, [], [], 0)

  /** `lws_write` gets at most the message limit less the padding. */
  function Truncated(pre: nat, m: Message): Message
    requires pre <= WS_MAX_MSG_SIZE
  {
    if |m| > WS_MAX_MSG_SIZE - pre then m[..WS_MAX_MSG_SIZE - pre] else m
  }

  function Queued(s: Server): seq<Entry>
    requires |s.fates| <= |s.history|
  {
    s.history[|s.fates|..]
  }

  /** One event.  A socket is evicted by a new one, and a session ends with its
      ring emptied; whichever socket is writeable is handed the oldest message. */
  function Step(pre: nat, s: Server, e: Event): Server
    requires pre <= WS_MAX_MSG_SIZE && |s.fates| <= |s.history|
  {
    match e
    case Established(w) =>
      if s.client.Some? && s.client.value != w then Server(Some(w), [], [], s.dropped) else s.(client := Some(w))
    case Closed(w) =>
      if s.client == Some(w) then Server(None, [], [], s.dropped) else s
    case Writeable(w) =>
      if Queued(s) == [] then s
      else s.(fates := s.fates + [Written(w, Truncated(pre, Queued(s)[0].data))])
    case Queue(entry) =>
      if s.client == None || |entry.data| >= WS_MAX_MSG_SIZE then s
      else
        var full := |Queued(s)| >= WS_QUEUE_SIZE;
        s.(history := s.history + [entry],
           fates := if full then s.fates + [Dropped] else s.fates,
           dropped := if full then s.dropped + 1 else s.dropped)
  }

  /** The callbacks an event fires, in order. */
  function Callbacks(s: Server, e: Event): seq<Callback> {
    match e
    case Established(w) => if s.client.Some? && s.client.value != w then [Disconnect, Connect] else [Connect]
    case Closed(w) => if s.client == Some(w) then [Disconnect] else []
    case _ => []
  }

  // ------------------------------------------------------------------ over runs

  /** The books of a session: the ring holds the last messages queued and at most
      256 of them; each earlier one was written, as queued but for truncation, or
      dropped while 256 newer ones pushed it out; without a client there is
      nothing. */
  ghost predicate Books(pre: nat, s: Server)
    requires pre <= WS_MAX_MSG_SIZE
  {
    && |s.fates| <= |s.history| <= |s.fates| + WS_QUEUE_SIZE
    && (s.client == None ==> s.history == [])
    && (forall k :: 0 <= k < |s.history| ==> |s.history[k].data| < WS_MAX_MSG_SIZE)
    && forall k :: 0 <= k < |s.fates| ==>
      match s.fates[k]
      case Written(_, payload) => payload == Truncated(pre, s.history[k].data)
      case Dropped => k + WS_QUEUE_SIZE < |s.history|
  }

  lemma StepBooks(pre: nat, s: Server, e: Event)
    requires pre <= WS_MAX_MSG_SIZE && Books(pre, s)
    ensures Books(pre, Step(pre, s, e))
  {
  }

  function Run(pre: nat, events: seq<Event>): (s: Server)
    requires pre <= WS_MAX_MSG_SIZE
    ensures Books(pre, s)
  {
    if events == [] then START
    else
      var before := Run(pre, events[..|events| - 1]);
      StepBooks(pre, before, events[|events| - 1]);
      Step(pre, before, events[|events| - 1])
  }

  /** The messages handed to `lws_write` this session, in order. */
  function WrittenIn(history: seq<Entry>, fates: seq<Fate>): seq<Entry>
    requires |fates| <= |history|
  {
    if fates == [] then []
    else
      var n := |fates| - 1;
      WrittenIn(history, fates[..n]) + (if fates[n].Written? then [history[n]] else [])
  }

  function CountDropped(fates: seq<Fate>): nat {
    if fates == [] then 0 else CountDropped(fates[..|fates| - 1]) + (if fates[|fates| - 1] == Dropped then 1 else 0)
  }

  /** Some elements left out, the others in order. */
  ghost predicate Subsequence<T>(a: seq<T>, b: seq<T>) {
    if a == [] then true
    else if b == [] then false
    else Subsequence(a, b[..|b| - 1]) || (a[|a| - 1] == b[|b| - 1] && Subsequence(a[..|a| - 1], b[..|b| - 1]))
  }

  lemma SubsequenceSnoc<T>(a: seq<T>, b: seq<T>, x: T)
    requires Subsequence(a, b)
    ensures Subsequence(a, b + [x]) && Subsequence(a + [x], b + [x])
  {
    assert (b + [x])[..|b|] == b && (a + [x])[..|a|] == a;
  }

  lemma {:induction false} WrittenSubsequence(history: seq<Entry>, fates: seq<Fate>)
    requires |fates| <= |history|
    ensures Subsequence(WrittenIn(history, fates), history[..|fates|])
    ensures |WrittenIn(history, fates)| + CountDropped(fates) == |fates|
  {
    if fates != [] {
      var n := |fates| - 1;
      var written := WrittenIn(history, fates[..n]);
      WrittenSubsequence(history, fates[..n]);
      SubsequenceSnoc(written, history[..n], history[n]);
      assert history[..n + 1] == history[..n] + [history[n]] && written + [] == written;
      assert WrittenIn(history, fates) == if fates[n].Written? then written + [history[n]] else written;
    }
  }

  /** In any run: what this session has written is a subsequence, in queueing
      order, of what it queued; queued messages are those written, those dropped
      and those in the ring; and the ring is exactly the last of them. */
  lemma {:induction false} SessionBooks(pre: nat, events: seq<Event>)
    requires pre <= WS_MAX_MSG_SIZE
    ensures var s := Run(pre, events);
      && Subsequence(WrittenIn(s.history, s.fates), s.history[..|s.fates|])
      && |s.history| == |WrittenIn(s.history, s.fates)| + CountDropped(s.fates) + |Queued(s)|
      && Queued(s) == s.history[|s.history| - |Queued(s)|..]
      && |Queued(s)| <= WS_QUEUE_SIZE
      && (s.client == None ==> Queued(s) == [])
  {
    var s := Run(pre, events);
    WrittenSubsequence(s.history, s.fates);
  }

  /** A session starts with nothing of an earlier one: when the registered socket
      changes, neither queued nor written messages are carried over. */
  lemma SessionsSeparate(pre: nat, s: Server, e: Event)
    requires pre <= WS_MAX_MSG_SIZE && Books(pre, s)
    requires Step(pre, s, e).client != s.client
    ensures Step(pre, s, e).history == [] && Step(pre, s, e).fates == []
  {
  }

  /** A message arrives intact exactly when it fits the limit less the padding. */
  lemma IntactIff(pre: nat, m: Message)
    requires pre <= WS_MAX_MSG_SIZE
    ensures Truncated(pre, m) == m <==> |m| <= WS_MAX_MSG_SIZE - pre
  {
  }

  // ------------------------------------------- who gets the session's messages

  /** Everything written this session went to the registered socket. */
  ghost predicate OwnDeliveries(s: Server) {
    forall k :: 0 <= k < |s.fates| && s.fates[k].Written? ==> s.client == Some(s.fates[k].socket)
  }

  /** The writeable callback does not ask whose socket is writeable.  A session's
      messages keep going to its own client exactly as long as no other socket
      becomes writeable while messages are queued. */
  lemma DeliveriesStayOwn(pre: nat, s: Server, e: Event)
    requires pre <= WS_MAX_MSG_SIZE && Books(pre, s) && OwnDeliveries(s)
    ensures OwnDeliveries(Step(pre, s, e)) <==> !(e.Writeable? && Queued(s) != [] && s.client != Some(e.socket))
  {
    var s' := Step(pre, s, e);
    if e.Writeable? && Queued(s) != [] {
      assert s'.fates[|s.fates|] == Written(e.socket, Truncated(pre, Queued(s)[0].data));
      assert forall k :: 0 <= k < |s.fates| ==> s'.fates[k] == s.fates[k];
    }
  }

  /** Such a run: socket 1 is evicted by socket 2, the new session queues a
      message, and the callback the old socket still had pending takes it. */
  lemma {:induction false} EvictedSocketReceives(pre: nat, m: Message)
    requires pre <= WS_MAX_MSG_SIZE && |m| < WS_MAX_MSG_SIZE
    ensures var s := Run(pre, [Established(1), Established(2), Queue(Entry(true, m)), Writeable(1)]);
      s.client == Some(2) && s.fates == [Written(1, Truncated(pre, m))] && Queued(s) == [] && !OwnDeliveries(s)
  {
    var e := [Established(1), Established(2), Queue(Entry(true, m)), Writeable(1)];
    assert e[..3][..2][..1][..0] == [] && e[..3][..2][..1] == [Established(1)];
    assert e[..3][..2] == [Established(1), Established(2)];
    assert Run(pre, e[..3][..2][..1]) == Server(Some(1), [], [], 0);
    assert Run(pre, e[..3][..2]) == Server(Some(2), [], [], 0);
    assert Run(pre, e[..3]) == Server(Some(2), [Entry(true, m)], [], 0);
    assert Run(pre, e).fates[0].socket == 1;
  }

  // ------------------------------------------------------ callbacks alternate

  function CallbackTrace(pre: nat, events: seq<Event>): seq<Callback>
    requires pre <= WS_MAX_MSG_SIZE
  {
    if events == [] then []
    else
      var n := |events| - 1;
      CallbackTrace(pre, events[..n]) + Callbacks(Run(pre, events[..n]), events[n])
  }

  /** Connect first, then strictly in turn. */
  ghost predicate Alternates(trace: seq<Callback>) {
    && (trace != [] ==> trace[0] == Connect)
    && forall k :: 0 < k < |trace| ==> trace[k] != trace[k - 1]
  }

  function Last(trace: seq<Callback>): Callback {
    if trace == [] then Disconnect else trace[|trace| - 1]
  }

  /** libwebsockets reports a socket established once: never while it is the
      registered one. */
  ghost predicate FreshSockets(pre: nat, events: seq<Event>)
    requires pre <= WS_MAX_MSG_SIZE
  {
    forall k :: 0 <= k < |events| && events[k].Established? ==> Run(pre, events[..k]).client != Some(events[k].socket)
  }

  lemma AlternatesSnoc(trace: seq<Callback>, c: Callback)
    ensures Alternates(trace + [c]) <==> Alternates(trace) && c != Last(trace)
    ensures Last(trace + [c]) == c
  {
    var t := trace + [c];
    assert t[|trace|] == c;
    assert forall k :: 0 <= k < |trace| ==> t[k] == trace[k];
    if Alternates(t) && trace != [] {
      assert t[|trace|] != t[|trace| - 1];
    }
  }

  lemma MoreCallbacks(trace: seq<Callback>, more: seq<Callback>)
    requires |more| <= 2
    ensures more == [] ==> (Alternates(trace + more) <==> Alternates(trace)) && Last(trace + more) == Last(trace)
    ensures |more| == 1 ==> (Alternates(trace + more) <==> Alternates(trace) && more[0] != Last(trace))
    ensures |more| == 2 ==>
      (Alternates(trace + more) <==> Alternates(trace) && more[0] != Last(trace) && more[1] != more[0])
    ensures more != [] ==> Last(trace + more) == more[|more| - 1]
  {
    if more == [] {
      assert trace + more == trace;
    } else {
      AlternatesSnoc(trace, more[0]);
      if |more| == 1 {
        assert more == [more[0]];
      } else {
        AlternatesSnoc(trace + [more[0]], more[1]);
        assert trace + more == trace + [more[0]] + [more[1]];
      }
    }
  }

  /** For any order of connects, evictions and late closes, the connect and
      disconnect callbacks strictly alternate, exactly when no socket is
      established while it is registered; then the last of them tells whether a
      client is connected. */
  lemma {:induction false} CallbacksAlternate(pre: nat, events: seq<Event>)
    requires pre <= WS_MAX_MSG_SIZE
    ensures Alternates(CallbackTrace(pre, events)) <==> FreshSockets(pre, events)
    ensures FreshSockets(pre, events) ==>
      (Last(CallbackTrace(pre, events)) == Connect <==> Run(pre, events).client.Some?)
  {
    if events != [] {
      var n := |events| - 1;
      CallbacksAlternate(pre, events[..n]);
      FreshPrefix(pre, events);
      MoreCallbacks(CallbackTrace(pre, events[..n]), Callbacks(Run(pre, events[..n]), events[n]));
    }
  }

  lemma {:induction false} FreshPrefix(pre: nat, events: seq<Event>)
    requires pre <= WS_MAX_MSG_SIZE && events != []
    ensures var n := |events| - 1;
      FreshSockets(pre, events) <==>
        && FreshSockets(pre, events[..n])
        && !(events[n].Established? && Run(pre, events[..n]).client == Some(events[n].socket))
  {
    var n := |events| - 1;
    forall k | 0 <= k < n
      ensures events[..k] == events[..n][..k]
    {
    }
  }

  // -------------------------------------------------------- the server itself

  /** The server struct: the ring is updated in place, and the session's history
      is kept beside it for the specification. */
  class WsServer {
    const pre: nat
    const queue: array<Message>
    var clientWsi: Option<nat>
    var clientConnected: bool
    var queueHead: nat
    var queueTail: nat
    var queueCount: nat
    var queueDropped: nat
    ghost var history: seq<Entry>
    ghost var fates: seq<Fate>
    ghost var requested: set<nat>  // sockets with a writeable callback asked for

    ghost function Abs(): Server
      reads this
    {
      Server(clientWsi, history, fates, queueDropped)
    }

    /** The ring's window is the data of the messages not yet written or dropped. */
    ghost predicate RingValid()
      reads this, queue
    {
      && queue.Length == WS_QUEUE_SIZE
      && queueTail < WS_QUEUE_SIZE && queueCount <= WS_QUEUE_SIZE
      && queueHead == Slot(queueTail, queueCount, WS_QUEUE_SIZE)
      && |fates| <= |history| && queueCount == |history| - |fates|
      && Holds(Window(queue[..], queueTail, queueCount), history, |fates|)
    }

    /** And while messages wait, the client's own socket has a writeable callback
        to come. */
    ghost predicate Valid()
      reads this, queue
    {
      && pre <= WS_MAX_MSG_SIZE
      && RingValid()
      && Books(pre, Abs())
      && (clientConnected <==> clientWsi.Some?)
      && (queueCount > 0 ==> clientWsi.Some? && clientWsi.value in requested)
    }

    /** `ws_init` with its allocations successful. */
    constructor (lwsPre: nat)
      requires lwsPre <= WS_MAX_MSG_SIZE
      ensures Valid() && Abs() == START && pre == lwsPre && fresh(queue)
    {
      pre := lwsPre;
      queue := new Message[WS_QUEUE_SIZE](_ => []);
      clientWsi, clientConnected := None, false;
      queueHead, queueTail, queueCount, queueDropped := 0, 0, 0, 0;
      history, fates, requested := [], [], {};
    }

    method ClearQueue()
      modifies this`queueHead, this`queueTail, this`queueCount, this`history, this`fates
      ensures queueHead == queueTail == queueCount == 0 && history == [] && fates == []
    {
      queueHead, queueTail, queueCount := 0, 0, 0;
      history, fates := [], [];
    }

    /** A new socket evicts a registered one. */
    method Established(wsi: nat) returns (fired: seq<Callback>)
      requires Valid()
      modifies this
      ensures Valid() && Abs() == Step(pre, old(Abs()), Event.Established(wsi))
      ensures fired == Callbacks(old(Abs()), Event.Established(wsi)) && clientWsi == Some(wsi)
    {
      fired := [];
      if clientConnected && clientWsi.Some? && clientWsi != Some(wsi) {
        clientWsi, clientConnected := None, false;
        ClearQueue();
        fired := [Disconnect];
      }
      clientWsi, clientConnected := Some(wsi), true;
      fired := fired + [Connect];
    }

    /** Only the registered socket's close ends the session. */
    method Closed(wsi: nat) returns (fired: seq<Callback>)
      requires Valid()
      modifies this
      ensures Valid() && Abs() == Step(pre, old(Abs()), Event.Closed(wsi))
      ensures fired == Callbacks(old(Abs()), Event.Closed(wsi))
      ensures clientWsi == if fired == [] then old(clientWsi) else None
    {
      fired := [];
      if clientWsi == Some(wsi) {
        clientWsi, clientConnected := None, false;
        ClearQueue();
        fired := [Disconnect];
      }
    }

    /** The oldest message, truncated for `lws_write`. */
    method Oldest() returns (payload: Message)
      requires pre <= WS_MAX_MSG_SIZE && RingValid() && queueCount > 0
      ensures payload == Truncated(pre, history[|fates|].data)
    {
      var msg := queue[queueTail];
      WindowPop(queue[..], queueTail, queueCount);
      var msgLen := |msg|;
      if msgLen > WS_MAX_MSG_SIZE - pre {
        msgLen := WS_MAX_MSG_SIZE - pre;
      }
      payload := msg[..msgLen];
    }

    /** The oldest message leaves the ring, its fate recorded. */
    method PopOldest(ghost fate: Fate)
      requires RingValid() && queueCount > 0
      modifies this`queueTail, this`queueCount, this`fates
      ensures RingValid() && fates == old(fates) + [fate] && queueCount == old(queueCount) - 1
    {
      NextSlot(queueTail, WS_QUEUE_SIZE);
      SlotAfterPop(queueTail, queueCount, WS_QUEUE_SIZE);
      HoldsAfterPop(queue[..], queueTail, queueCount, history, |fates|);
      queueTail := (queueTail + 1) % WS_QUEUE_SIZE;
      queueCount := queueCount - 1;
      fates := fates + [fate];
    }

    /** A message enters the ring, which has room for it. */
    method PushNewest(data: Message, ghost detector: bool)
      requires RingValid() && queueCount < WS_QUEUE_SIZE
      modifies this`queueHead, this`queueCount, this`history, queue
      ensures RingValid() && history == old(history) + [Entry(detector, data)] && queueCount == old(queueCount) + 1
    {
      WindowPush(queue[..], queueTail, queueCount, data);
      NextSlot(queueHead, WS_QUEUE_SIZE);
      ghost var filled := queue[..][queueHead := data];
      queue[queueHead] := data;
      assert queue[..] == filled;
      queueHead := (queueHead + 1) % WS_QUEUE_SIZE;
      queueCount := queueCount + 1;
      history := history + [Entry(detector, data)];
    }

    /** A full ring drops its oldest message to make room. */
    method Enqueue(data: Message, ghost detector: bool)
      requires RingValid()
      modifies this`queueHead, this`queueTail, this`queueCount, this`queueDropped, this`history, this`fates, queue
      ensures RingValid() && queueCount > 0 && history == old(history) + [Entry(detector, data)]
      ensures fates == if old(queueCount) == WS_QUEUE_SIZE then old(fates) + [Dropped] else old(fates)
      ensures queueDropped == if old(queueCount) == WS_QUEUE_SIZE then old(queueDropped) + 1 else old(queueDropped)
    {
      if queueCount >= WS_QUEUE_SIZE {
        PopOldest(Dropped);
        queueDropped := queueDropped + 1;
      }
      PushNewest(data, detector);
    }

    /** Hand the oldest message to `lws_write`; whatever that returns, the message
        leaves the ring. */
    method Writeable(wsi: nat) returns (sent: Option<Message>)
      requires Valid()
      modifies this
      ensures Valid() && Abs() == Step(pre, old(Abs()), Event.Writeable(wsi))
      ensures sent == if old(Queued(Abs())) == [] then None else Some(Truncated(pre, old(Queued(Abs()))[0].data))
    {
      ghost var was := Abs();
      assert |Queued(was)| == queueCount;
      StepBooks(pre, was, Event.Writeable(wsi));
      sent := None;
      requested := requested - {wsi};
      if queueCount > 0 {
        var payload := Oldest();
        assert payload == Truncated(pre, Queued(was)[0].data);
        sent := Some(payload);
        PopOldest(Written(wsi, payload));
        assert Abs() == Step(pre, was, Event.Writeable(wsi));
        if queueCount > 0 {
          requested := requested + {wsi};
        }
      }
    }

    /** `ws_queue_message`: dropping the oldest makes room in a full ring. */
    method QueueMessage(data: Message, ghost detector: bool) returns (status: int)
      requires Valid()
      modifies this`queueHead, this`queueTail, this`queueCount, this`queueDropped
      modifies this`history, this`fates, this`requested, queue
      ensures Valid() && Abs() == Step(pre, old(Abs()), Queue(Entry(detector, data)))
      ensures status == if old(clientWsi) == None || |data| >= WS_MAX_MSG_SIZE then -1 else 0
    {
      StepBooks(pre, Abs(), Queue(Entry(detector, data)));
      if !clientConnected || clientWsi.None? {
        return -1;
      }
      if |data| >= WS_MAX_MSG_SIZE {
        return -1;
      }
      Enqueue(data, detector);
      assert Abs() == Step(pre, old(Abs()), Queue(Entry(detector, data)));
      requested := requested + {clientWsi.value};
      status := 0;
    }
  }

  /** The messages stored are the data of the history's entries from `first` on. */
  ghost predicate Holds(stored: seq<Message>, history: seq<Entry>, first: nat) {
    first + |stored| == |history| && forall k :: 0 <= k < |stored| ==> stored[k] == history[first + k].data
  }

  lemma HoldsAfterPop(ring: seq<Message>, tail: nat, count: nat, history: seq<Entry>, first: nat)
    requires tail < |ring| && 0 < count <= |ring| && Holds(Window(ring, tail, count), history, first)
    ensures Holds(Window(ring, Slot(tail, 1, |ring|), count - 1), history, first + 1)
  {
    WindowPop(ring, tail, count);
    HoldsTail(Window(ring, tail, count), history, first);
  }

  lemma HoldsTail(stored: seq<Message>, history: seq<Entry>, first: nat)
    requires Holds(stored, history, first) && stored != []
    ensures Holds(stored[1..], history, first + 1)
  {
    assert forall k :: 0 <= k < |stored| - 1 ==> stored[1..][k] == stored[k + 1] == history[first + (k + 1)].data;
  }
}
