/** From the detector to the app (pi-streaming/main.c): lines are taken out of
    the detector's byte stream, forwarded to the WebSocket ring while an app is
    connected, and written out when its socket is writeable. */
module Pipeline {
  import opened Options
  import opened Bytes
  import opened Framing
  import WS = WebSocket
  import IPC = UnixSocket

  /** The reader, the server, the application's `android_connected`, and whether
      the detector's connection is up. */
  datatype Pipe = Pipe(reader: Reader, server: WS.Server, android: bool, attached: bool)

  datatype Event =
    | Recv(chunk: seq<Byte>)    // one `ipc_recv_message`, which got `chunk`
    | Hangup                    // one that finds the connection closed or failed
    | Frame(data: WS.Message)   // a sensor or stream_ready message is queued
    | Opened(socket: nat)
    | Closed(socket: nat)
    | Writeable(socket: nat)

  /** What the connect and disconnect callbacks do to `android_connected`. */
  function Flag(android: bool, fired: seq<WS.Callback>): bool {
    if fired == [] then android else fired[|fired| - 1] == WS.Connect
  }

  function OnSocket(pre: nat, p: Pipe, e: WS.Event): Pipe
    requires pre <= WS.WS_MAX_MSG_SIZE && |p.server.fates| <= |p.server.history|
  {
    p.(server := WS.Step(pre, p.server, e), android := Flag(p.android, WS.Callbacks(p.server, e)))
  }

  /** An empty line ends a batch and is not forwarded. */
  function Forward(pre: nat, s: WS.Server, android: bool, line: Line): WS.Server
    requires pre <= WS.WS_MAX_MSG_SIZE && |s.fates| <= |s.history|
  {
    if line != [] && android then WS.Step(pre, s, WS.Queue(WS.Entry(true, line))) else s
  }

  function Step(pre: nat, p: Pipe, e: Event): Pipe
    requires pre <= WS.WS_MAX_MSG_SIZE && |p.server.fates| <= |p.server.history|
  {
    match e
    case Recv(chunk) =>
      if !p.attached then p
      else
        var reader := Call(p.reader, chunk);
        if |reader.lines| > |p.reader.lines|
        then p.(reader := reader, server := Forward(pre, p.server, p.android, reader.lines[|reader.lines| - 1]))
        else p.(reader := reader)
    case Hangup => p.(attached := false)
    case Frame(data) => p.(server := WS.Step(pre, p.server, WS.Queue(WS.Entry(false, data))))
    case Opened(w) => OnSocket(pre, p, WS.Established(w))
    case Closed(w) => OnSocket(pre, p, WS.Closed(w))
    case Writeable(w) => OnSocket(pre, p, WS.Writeable(w))
  }

  /** The application's flag and the server's registered client agree. */
  ghost predicate Agree(pre: nat, p: Pipe) {
    pre <= WS.WS_MAX_MSG_SIZE && WS.Books(pre, p.server) && (p.android <==> p.server.client.Some?)
  }

  lemma StepAgree(pre: nat, p: Pipe, e: Event)
    requires Agree(pre, p)
    ensures Agree(pre, Step(pre, p, e))
  {
    match e
    case Recv(chunk) =>
      var reader := Call(p.reader, chunk);
      if p.attached && |reader.lines| > |p.reader.lines| {
        WS.StepBooks(pre, p.server, WS.Queue(WS.Entry(true, reader.lines[|reader.lines| - 1])));
      }
    case Hangup =>
    case Frame(data) => WS.StepBooks(pre, p.server, WS.Queue(WS.Entry(false, data)));
    case Opened(w) => WS.StepBooks(pre, p.server, WS.Established(w));
    case Closed(w) => WS.StepBooks(pre, p.server, WS.Closed(w));
    case Writeable(w) => WS.StepBooks(pre, p.server, WS.Writeable(w));
  }

  /** Any run keeps the agreement. */
  function Flow(pre: nat, p: Pipe, events: seq<Event>): (q: Pipe)
    requires Agree(pre, p)
    ensures Agree(pre, q)
  {
    if events == [] then p
    else
      var before := Flow(pre, p, events[..|events| - 1]);
      StepAgree(pre, before, events[|events| - 1]);
      Step(pre, before, events[|events| - 1])
  }

  // -------------------------------------------------------- one app session

  function Arriving(e: Event): seq<Byte> {
    if e.Recv? then e.chunk else []
  }

  /** The bytes received over a run, which end with the connection. */
  function Received(events: seq<Event>): seq<Byte> {
    if events == [] then []
    else
      var before := events[..|events| - 1];
      if Hangup in before then Received(before) else Received(before) + Arriving(events[|events| - 1])
  }

  function NonEmpty(lines: seq<Line>): seq<Line> {
    if lines == [] then []
    else
      var n := |lines| - 1;
      NonEmpty(lines[..n]) + (if lines[n] != [] then [lines[n]] else [])
  }

  /** The data of the detector's entries. */
  function Detections(entries: seq<WS.Entry>): seq<WS.Message> {
    if entries == [] then []
    else
      var n := |entries| - 1;
      Detections(entries[..n]) + (if entries[n].detector then [entries[n].data] else [])
  }

  /** The detector's payloads handed to `lws_write`, in order. */
  function Delivered(history: seq<WS.Entry>, fates: seq<WS.Fate>): seq<WS.Message>
    requires |fates| <= |history|
  {
    if fates == [] then []
    else
      var n := |fates| - 1;
      Delivered(history, fates[..n]) + (if history[n].detector && fates[n].Written? then [fates[n].payload] else [])
  }

  /** Those of them that went to socket `w`, or those that did not. */
  function Handed(history: seq<WS.Entry>, fates: seq<WS.Fate>, w: nat, own: bool): seq<WS.Message>
    requires |fates| <= |history|
  {
    if fates == [] then []
    else
      var n := |fates| - 1;
      Handed(history, fates[..n], w, own)
        + (if history[n].detector && fates[n].Written? && (fates[n].socket == w) == own then [fates[n].payload] else [])
  }

  /** The detector's messages dropped by a full ring, in order. */
  function Lost(history: seq<WS.Entry>, fates: seq<WS.Fate>): seq<WS.Message>
    requires |fates| <= |history|
  {
    if fates == [] then []
    else
      var n := |fates| - 1;
      Lost(history, fates[..n]) + (if history[n].detector && fates[n] == WS.Dropped then [history[n].data] else [])
  }

  /** Socket `w` stays the registered client: nobody else opens, and it does not
      close; late closes and stray callbacks of other sockets may come. */
  ghost predicate Stays(w: nat, events: seq<Event>) {
    forall k :: 0 <= k < |events| ==> Keeps(w, events[k])
  }

  predicate Keeps(w: nat, e: Event) {
    (e.Opened? ==> e.socket == w) && (e.Closed? ==> e.socket != w)
  }

  /** A session begins with an empty ring and whatever start of a line is buffered. */
  ghost predicate Begins(pre: nat, p: Pipe, w: nat) {
    && Agree(pre, p) && p.attached && p.reader.lines == []
    && p.server.client == Some(w) && p.server.history == []
  }

  ghost predicate Short(lines: seq<Line>, limit: nat) {
    forall k :: 0 <= k < |lines| ==> |lines[k]| <= limit
  }

  lemma DetectionsSnoc(entries: seq<WS.Entry>, e: WS.Entry)
    ensures Detections(entries + [e]) == Detections(entries) + (if e.detector then [e.data] else [])
  {
    assert (entries + [e])[..|entries|] == entries;
  }

  lemma NonEmptySnoc(lines: seq<Line>, line: Line)
    ensures NonEmpty(lines + [line]) == NonEmpty(lines) + (if line != [] then [line] else [])
  {
    assert (lines + [line])[..|lines|] == lines;
  }

  /** The records of a session: the detector's entries are exactly the non-empty
      lines taken out, in order. */
  ghost predicate Recorded(p: Pipe, w: nat) {
    p.server.client == Some(w) && Detections(p.server.history) == NonEmpty(p.reader.lines)
  }

  lemma ForwardRecords(pre: nat, s: WS.Server, line: Line)
    requires pre <= WS.WS_MAX_MSG_SIZE && |s.fates| <= |s.history| && s.client.Some? && |line| < WS.WS_MAX_MSG_SIZE
    ensures var s' := Forward(pre, s, true, line);
      s'.client == s.client && Detections(s'.history) == Detections(s.history) + (if line != [] then [line] else [])
  {
    DetectionsSnoc(s.history, WS.Entry(true, line));
  }

  /** Events of the socket or of other senders leave the detector's records alone. */
  lemma OtherRecords(pre: nat, p: Pipe, w: nat, e: Event)
    requires pre <= WS.WS_MAX_MSG_SIZE && |p.server.fates| <= |p.server.history|
    requires p.server.client == Some(w) && Keeps(w, e) && !(e.Recv? && p.attached)
    ensures var q := Step(pre, p, e);
      q.server.client == Some(w) && q.reader == p.reader && Detections(q.server.history) == Detections(p.server.history)
  {
    if e.Frame? {
      DetectionsSnoc(p.server.history, WS.Entry(false, e.data));
    }
  }

  lemma StepRecords(pre: nat, p: Pipe, w: nat, e: Event)
    requires Agree(pre, p) && Recorded(p, w) && Keeps(w, e)
    requires Short(Step(pre, p, e).reader.lines, WS.WS_MAX_MSG_SIZE - 1)
    ensures Recorded(Step(pre, p, e), w)
  {
    if e.Recv? && p.attached {
      var q := Step(pre, p, e);
      if |q.reader.lines| > |p.reader.lines| {
        var line := FirstLine(p.reader.pending + e.chunk);
        assert q.reader.lines == p.reader.lines + [line] && q.reader.lines[|p.reader.lines|] == line;
        NonEmptySnoc(p.reader.lines, line);
        ForwardRecords(pre, p.server, line);
      }
    } else {
      OtherRecords(pre, p, w, e);
    }
  }

  /** Lines are only ever added. */
  lemma StepLines(pre: nat, p: Pipe, e: Event)
    requires pre <= WS.WS_MAX_MSG_SIZE && |p.server.fates| <= |p.server.history|
    ensures p.reader.lines <= Step(pre, p, e).reader.lines
    ensures Step(pre, p, e).reader == if e.Recv? && p.attached then Call(p.reader, e.chunk) else p.reader
    ensures Step(pre, p, e).attached <==> p.attached && e != Hangup
  {
  }

  lemma ShortPrefix(a: seq<Line>, b: seq<Line>, limit: nat)
    requires a <= b && Short(b, limit)
    ensures Short(a, limit)
  {
    assert forall k :: 0 <= k < |a| ==> a[k] == b[k];
  }

  lemma StaysPrefix(w: nat, events: seq<Event>)
    requires Stays(w, events) && events != []
    ensures Stays(w, events[..|events| - 1]) && Keeps(w, events[|events| - 1])
  {
  }

  lemma FlowSnoc(pre: nat, p: Pipe, events: seq<Event>)
    requires Agree(pre, p) && events != []
    ensures Flow(pre, p, events) == Step(pre, Flow(pre, p, events[..|events| - 1]), events[|events| - 1])
  {
  }

  lemma {:induction false} Records(pre: nat, p: Pipe, w: nat, events: seq<Event>)
    requires Agree(pre, p) && Recorded(p, w) && Stays(w, events)
    requires Short(Flow(pre, p, events).reader.lines, WS.WS_MAX_MSG_SIZE - 1)
    ensures Recorded(Flow(pre, p, events), w)
  {
    if events != [] {
      var n := |events| - 1;
      var before := Flow(pre, p, events[..n]);
      FlowSnoc(pre, p, events);
      StepLines(pre, before, events[n]);
      ShortPrefix(before.reader.lines, Flow(pre, p, events).reader.lines, WS.WS_MAX_MSG_SIZE - 1);
      StaysPrefix(w, events);
      Records(pre, p, w, events[..n]);
      StepRecords(pre, before, w, events[n]);
    }
  }

  lemma ReadingStep(r: Reader, e: Event, first: seq<Byte>, received: seq<Byte>)
    requires Flatten(r.lines) + r.pending == first + received
    ensures var r' := if e.Recv? then Call(r, e.chunk) else r;
      Flatten(r'.lines) + r'.pending == first + (received + Arriving(e))
  {
    if e.Recv? {
      CallConserves(r, e.chunk);
    }
    assert first + received + Arriving(e) == first + (received + Arriving(e));
  }

  /** No byte is lost between the stream, the lines taken out and the buffer. */
  lemma {:induction false} Reading(pre: nat, p: Pipe, events: seq<Event>)
    requires Agree(pre, p) && p.reader.lines == [] && p.attached
    ensures Flow(pre, p, events).attached <==> Hangup !in events
    ensures var r := Flow(pre, p, events).reader;
      Flatten(r.lines) + r.pending == p.reader.pending + Received(events) && Plain(r.lines)
  {
    if events == [] {
      assert Flatten([]) + p.reader.pending == p.reader.pending + Received(events);
    } else {
      var n := |events| - 1;
      var before := Flow(pre, p, events[..n]);
      FlowSnoc(pre, p, events);
      StepLines(pre, before, events[n]);
      Reading(pre, p, events[..n]);
      assert Hangup in events <==> Hangup in events[..n] || events[n] == Hangup;
      if before.attached {
        ReadingStep(before.reader, events[n], p.reader.pending, Received(events[..n]));
      }
    }
  }

  // ------------------------------------------------ what became of the lines

  lemma {:induction false} DetectionsConcat(a: seq<WS.Entry>, b: seq<WS.Entry>)
    ensures Detections(a + b) == Detections(a) + Detections(b)
  {
    if b == [] {
      assert a + b == a;
      assert Detections(a) + Detections(b) == Detections(a);
    } else {
      var n := |b| - 1;
      DetectionsConcat(a, b[..n]);
      assert (a + b)[..|a + b| - 1] == a + b[..n];
      DetectionsSnoc(a + b[..n], b[n]);
      assert a + b == (a + b[..n]) + [b[n]];
    }
  }

  lemma {:induction false} SubsequenceOfLonger<T>(a: seq<T>, b: seq<T>, more: seq<T>)
    requires WS.Subsequence(a, b)
    ensures WS.Subsequence(a, b + more)
  {
    if more == [] {
      assert b + more == b;
    } else {
      var n := |more| - 1;
      SubsequenceOfLonger(a, b, more[..n]);
      assert b + more == b + more[..n] + [more[n]];
      WS.SubsequenceSnoc(a, b + more[..n], more[n]);
    }
  }

  /** The detector's entries are short enough to be written whole. */
  ghost predicate Fits(pre: nat, history: seq<WS.Entry>) {
    forall k :: 0 <= k < |history| && history[k].detector ==> |history[k].data| + pre <= WS.WS_MAX_MSG_SIZE
  }

  /** Every payload written is its message, truncated to the limit. */
  ghost predicate Honest(pre: nat, history: seq<WS.Entry>, fates: seq<WS.Fate>)
    requires pre <= WS.WS_MAX_MSG_SIZE && |fates| <= |history|
  {
    forall k :: 0 <= k < |fates| && fates[k].Written? ==> fates[k].payload == WS.Truncated(pre, history[k].data)
  }

  /** `all` splits into `a` and `b`, each in the order of `all`. */
  ghost predicate Shuffle<T>(all: seq<T>, a: seq<T>, b: seq<T>) {
    if all == [] then a == [] && b == []
    else
      var n := |all| - 1;
      || (a != [] && a[|a| - 1] == all[n] && Shuffle(all[..n], a[..|a| - 1], b))
      || (b != [] && b[|b| - 1] == all[n] && Shuffle(all[..n], a, b[..|b| - 1]))
  }

  lemma ShuffleSnoc<T>(all: seq<T>, a: seq<T>, b: seq<T>, x: T)
    requires Shuffle(all, a, b)
    ensures Shuffle(all + [x], a + [x], b) && Shuffle(all + [x], a, b + [x])
  {
    assert (all + [x])[..|all|] == all && (a + [x])[..|a|] == a && (b + [x])[..|b|] == b;
  }

  lemma {:induction false} ShuffleInOrder<T>(all: seq<T>, a: seq<T>, b: seq<T>)
    requires Shuffle(all, a, b)
    ensures WS.Subsequence(a, all) && |all| == |a| + |b|
  {
    if all != [] {
      var n := |all| - 1;
      if a != [] && a[|a| - 1] == all[n] && Shuffle(all[..n], a[..|a| - 1], b) {
        ShuffleInOrder(all[..n], a[..|a| - 1], b);
      } else {
        ShuffleInOrder(all[..n], a, b[..|b| - 1]);
      }
    }
  }

  /** What the last fate adds. */
  lemma FateOfOne(pre: nat, history: seq<WS.Entry>, fates: seq<WS.Fate>)
    requires pre <= WS.WS_MAX_MSG_SIZE && 0 < |fates| <= |history| && Fits(pre, history) && Honest(pre, history, fates)
    ensures var n := |fates| - 1;
      var done, lost, entry := Delivered(history, fates[..n]), Lost(history, fates[..n]), history[n];
      && Detections(history[..n + 1])
           == (if entry.detector then Detections(history[..n]) + [entry.data] else Detections(history[..n]))
      && Delivered(history, fates) == (if entry.detector && fates[n].Written? then done + [entry.data] else done)
      && Lost(history, fates) == (if entry.detector && fates[n] == WS.Dropped then lost + [entry.data] else lost)
  {
    var n := |fates| - 1;
    DetectionsSnoc(history[..n], history[n]);
    assert history[..n + 1] == history[..n] + [history[n]];
    var all, done, lost := Detections(history[..n]), Delivered(history, fates[..n]), Lost(history, fates[..n]);
    assert all + [] == all && done + [] == done && lost + [] == lost;
  }

  /** The detector's messages that left the ring were written, each intact, or
      dropped. */
  lemma {:induction false} WrittenOrDropped(pre: nat, history: seq<WS.Entry>, fates: seq<WS.Fate>)
    requires pre <= WS.WS_MAX_MSG_SIZE && |fates| <= |history| && Fits(pre, history) && Honest(pre, history, fates)
    ensures Shuffle(Detections(history[..|fates|]), Delivered(history, fates), Lost(history, fates))
  {
    if fates != [] {
      var n := |fates| - 1;
      WrittenOrDropped(pre, history, fates[..n]);
      var all, done, lost := Detections(history[..n]), Delivered(history, fates[..n]), Lost(history, fates[..n]);
      ShuffleSnoc(all, done, lost, history[n].data);
      FateOfOne(pre, history, fates);
    }
  }

  /** The detector's side of a session's books. */
  lemma Accounts(pre: nat, s: WS.Server)
    requires pre <= WS.WS_MAX_MSG_SIZE && WS.Books(pre, s) && Fits(pre, s.history)
    ensures var left := Detections(s.history[..|s.fates|]);
      && Detections(s.history) == left + Detections(WS.Queued(s))
      && Shuffle(left, Delivered(s.history, s.fates), Lost(s.history, s.fates))
      && WS.Subsequence(Delivered(s.history, s.fates), Detections(s.history))
  {
    var n := |s.fates|;
    var left := Detections(s.history[..n]);
    assert Honest(pre, s.history, s.fates);
    WrittenOrDropped(pre, s.history, s.fates);
    ShuffleInOrder(left, Delivered(s.history, s.fates), Lost(s.history, s.fates));
    DetectionsConcat(s.history[..n], s.history[n..]);
    assert s.history == s.history[..n] + s.history[n..];
    SubsequenceOfLonger(Delivered(s.history, s.fates), left, Detections(s.history[n..]));
  }

  lemma {:induction false} ShortEntries(pre: nat, history: seq<WS.Entry>, lines: seq<Line>)
    requires pre <= WS.WS_MAX_MSG_SIZE && Short(lines, WS.WS_MAX_MSG_SIZE - pre)
    requires Detections(history) == NonEmpty(lines)
    ensures Fits(pre, history)
  {
    forall k | 0 <= k < |history| && history[k].detector
      ensures |history[k].data| + pre <= WS.WS_MAX_MSG_SIZE
    {
      DetectionListed(history, k);
      NonEmptyListed(lines, history[k].data);
    }
  }

  lemma {:induction false} DetectionListed(history: seq<WS.Entry>, k: nat)
    requires k < |history| && history[k].detector
    ensures history[k].data in Detections(history)
  {
    if k < |history| - 1 {
      DetectionListed(history[..|history| - 1], k);
    }
  }

  lemma {:induction false} NonEmptyListed(lines: seq<Line>, line: Line)
    requires line in NonEmpty(lines)
    ensures line in lines
  {
    var n := |lines| - 1;
    if line in NonEmpty(lines[..n]) {
      NonEmptyListed(lines[..n], line);
    }
  }

  // ---------------------------------------------------- who was handed them

  /** What was written was handed to `w` or to another socket. */
  lemma {:induction false} HandedSplit(history: seq<WS.Entry>, fates: seq<WS.Fate>, w: nat)
    requires |fates| <= |history|
    ensures Shuffle(Delivered(history, fates), Handed(history, fates, w, true), Handed(history, fates, w, false))
  {
    if fates != [] {
      var n := |fates| - 1;
      HandedSplit(history, fates[..n], w);
      var all := Delivered(history, fates[..n]);
      var own, other := Handed(history, fates[..n], w, true), Handed(history, fates[..n], w, false);
      assert all + [] == all && own + [] == own && other + [] == other;
      if history[n].detector && fates[n].Written? {
        ShuffleSnoc(all, own, other, fates[n].payload);
      }
    }
  }

  lemma {:induction false} HandedPrefix(
    history: seq<WS.Entry>, more: seq<WS.Entry>, fates: seq<WS.Fate>, w: nat, own: bool)
    requires |fates| <= |history|
    ensures Handed(history + more, fates, w, own) == Handed(history, fates, w, own)
  {
    if fates != [] {
      HandedPrefix(history, more, fates[..|fates| - 1], w, own);
    }
  }

  /** Another socket than `w` becomes writeable while a detector's message is the
      oldest waiting. */
  predicate Strays(p: Pipe, w: nat, e: Event)
    requires |p.server.fates| <= |p.server.history|
  {
    e.Writeable? && e.socket != w && WS.Queued(p.server) != [] && WS.Queued(p.server)[0].detector
  }

  ghost predicate StraysAt(pre: nat, p: Pipe, w: nat, events: seq<Event>, k: nat)
    requires Agree(pre, p) && k < |events|
  {
    Strays(Flow(pre, p, events[..k]), w, events[k])
  }

  ghost predicate NeverStrays(pre: nat, p: Pipe, w: nat, events: seq<Event>)
    requires Agree(pre, p)
  {
    forall k :: 0 <= k < |events| ==> !StraysAt(pre, p, w, events, k)
  }

  lemma QueueHanded(pre: nat, s: WS.Server, entry: WS.Entry, w: nat)
    requires pre <= WS.WS_MAX_MSG_SIZE && |s.fates| <= |s.history|
    ensures var s' := WS.Step(pre, s, WS.Queue(entry));
      |s'.fates| <= |s'.history| && Handed(s'.history, s'.fates, w, false) == Handed(s.history, s.fates, w, false)
  {
    var s' := WS.Step(pre, s, WS.Queue(entry));
    if s' != s {
      assert s'.history == s.history + [entry];
      HandedPrefix(s.history, [entry], s.fates, w, false);
      assert s'.fates == s.fates || s'.fates[..|s'.fates| - 1] == s.fates;
      assert Handed(s.history, s.fates, w, false) + [] == Handed(s.history, s.fates, w, false);
    }
  }

  /** One event hands a message to another socket exactly if it strays. */
  lemma StepHanded(pre: nat, p: Pipe, w: nat, e: Event)
    requires Agree(pre, p) && Agree(pre, Step(pre, p, e)) && p.server.client == Some(w) && Keeps(w, e)
    ensures Step(pre, p, e).server.client == Some(w)
    ensures var s, s' := p.server, Step(pre, p, e).server;
      |Handed(s'.history, s'.fates, w, false)|
        == |Handed(s.history, s.fates, w, false)| + (if Strays(p, w, e) then 1 else 0)
  {
    var s := p.server;
    match e
    case Recv(chunk) =>
      var reader := Call(p.reader, chunk);
      if |reader.lines| > |p.reader.lines| {
        QueueHanded(pre, s, WS.Entry(true, reader.lines[|reader.lines| - 1]), w);
      }
    case Frame(data) => QueueHanded(pre, s, WS.Entry(false, data), w);
    case Writeable(x) =>
      if WS.Queued(s) != [] {
        var fate := WS.Written(x, WS.Truncated(pre, WS.Queued(s)[0].data));
        assert (s.fates + [fate])[..|s.fates|] == s.fates;
        assert WS.Queued(s)[0] == s.history[|s.fates|];
      }
    case _ =>
  }

  lemma StraysAtPrefix(pre: nat, p: Pipe, w: nat, events: seq<Event>, n: nat, k: nat)
    requires Agree(pre, p) && k < n <= |events|
    ensures StraysAt(pre, p, w, events[..n], k) == StraysAt(pre, p, w, events, k)
  {
    assert events[..n][..k] == events[..k];
  }

  lemma NeverStraysSnoc(pre: nat, p: Pipe, w: nat, events: seq<Event>)
    requires Agree(pre, p) && events != []
    ensures var n := |events| - 1;
      NeverStrays(pre, p, w, events) <==> NeverStrays(pre, p, w, events[..n]) && !StraysAt(pre, p, w, events, n)
  {
    var n := |events| - 1;
    forall k: nat | k < n
      ensures StraysAt(pre, p, w, events[..n], k) == StraysAt(pre, p, w, events, k)
    {
      StraysAtPrefix(pre, p, w, events, n, k);
    }
  }

  /** Over a session of `w`, a detector's message goes to another socket exactly
      when another one becomes writeable at the wrong moment. */
  lemma {:induction false} HandedAwayIff(pre: nat, p: Pipe, w: nat, events: seq<Event>)
    requires Agree(pre, p) && p.server.client == Some(w) && p.server.history == [] && Stays(w, events)
    ensures var s := Flow(pre, p, events).server;
      s.client == Some(w) && (Handed(s.history, s.fates, w, false) == [] <==> NeverStrays(pre, p, w, events))
  {
    if events != [] {
      var n := |events| - 1;
      StaysPrefix(w, events);
      HandedAwayIff(pre, p, w, events[..n]);
      FlowSnoc(pre, p, events);
      NeverStraysSnoc(pre, p, w, events);
      StepHanded(pre, Flow(pre, p, events[..n]), w, events[n]);
    }
  }

  /** End to end.  For an app connected throughout on socket `w`, and a detector
      whose lines fit the WebSocket limit less the padding: the lines taken out are
      the first of those the detector sent, and what is buffered starts the rest.
      The non-empty lines taken out are those that left the ring, then those in
      it; those that left were written, intact, or dropped by a full ring; and
      those written went to the app, in order, or to another socket, the latter
      never exactly when no other socket becomes writeable while one waits. */
  lemma EndToEnd(pre: nat, p: Pipe, w: nat, events: seq<Event>, sent: seq<Line>)
    requires 0 < pre && Begins(pre, p, w) && Stays(w, events)
    requires Plain(sent) && Short(sent, WS.WS_MAX_MSG_SIZE - pre)
    requires p.reader.pending + Received(events) <= Flatten(sent)
    ensures var q := Flow(pre, p, events);
      var history, fates, lines := q.server.history, q.server.fates, q.reader.lines;
      var left, written := Detections(history[..|fates|]), Delivered(history, fates);
      var own := Handed(history, fates, w, true);
      && lines <= sent && q.reader.pending <= Flatten(sent[|lines|..])
      && NonEmpty(lines) == left + Detections(WS.Queued(q.server))
      && Shuffle(left, written, Lost(history, fates))
      && Shuffle(written, own, Handed(history, fates, w, false))
      && WS.Subsequence(written, NonEmpty(lines)) && WS.Subsequence(own, written)
      && (Handed(history, fates, w, false) == [] <==> NeverStrays(pre, p, w, events))
  {
    var q := Flow(pre, p, events);
    var history, fates, lines := q.server.history, q.server.fates, q.reader.lines;
    Reading(pre, p, events);
    ReadsWhatWasSent(sent, lines, q.reader.pending);
    ShortPrefix(lines, sent, WS.WS_MAX_MSG_SIZE - pre);
    Records(pre, p, w, events);
    ShortEntries(pre, history, lines);
    Accounts(pre, q.server);
    HandedSplit(history, fates, w);
    ShuffleInOrder(Delivered(history, fates), Handed(history, fates, w, true), Handed(history, fates, w, false));
    HandedAwayIff(pre, p, w, events);
  }

  // ------------------------------------------------------ when it hangs up

  /** After the hang-up nothing more is taken out, whatever still happens. */
  lemma {:induction false} NothingAfterHangup(pre: nat, p: Pipe, events: seq<Event>)
    requires Agree(pre, p) && !p.attached
    ensures Flow(pre, p, events).reader == p.reader && !Flow(pre, p, events).attached
  {
    if events != [] {
      NothingAfterHangup(pre, p, events[..|events| - 1]);
      FlowSnoc(pre, p, events);
      StepLines(pre, Flow(pre, p, events[..|events| - 1]), events[|events| - 1]);
    }
  }

  /** A hang-up loses lines already received exactly when fewer were taken out than
      are complete before the first NUL received: precisely the missing ones, which
      calls receiving nothing more would have taken out, and no event after the
      hang-up does. */
  lemma HangupLosesIff(pre: nat, p: Pipe, events: seq<Event>, after: seq<Event>)
    requires Agree(pre, p) && p.attached && p.reader.lines == [] && Hangup !in events
    ensures var q := Flow(pre, p, events);
      var missing := Complete(p.reader.pending + Received(events)) - |q.reader.lines|;
      && 0 <= missing
      && |Calls(q.reader, Idle(missing)).lines| == |q.reader.lines| + missing
      && !HasLine(Calls(q.reader, Idle(missing)).pending)
      && Flow(pre, Step(pre, q, Hangup), after).reader == q.reader
  {
    var q := Flow(pre, p, events);
    Reading(pre, p, events);
    FlowClean(pre, p, events);
    MissingLines(q.reader, p.reader.pending + Received(events));
    NothingAfterHangup(pre, Step(pre, q, Hangup), after);
  }

  lemma {:induction false} FlowClean(pre: nat, p: Pipe, events: seq<Event>)
    requires Agree(pre, p) && Clean(p.reader.lines)
    ensures Clean(Flow(pre, p, events).reader.lines)
  {
    if events != [] {
      FlowClean(pre, p, events[..|events| - 1]);
      FlowSnoc(pre, p, events);
      StepLines(pre, Flow(pre, p, events[..|events| - 1]), events[|events| - 1]);
    }
  }

  /** Such a run: two lines arrive at once, one is taken out, and the detector
      hangs up. */
  lemma {:induction false} HangupLosesLine(pre: nat)
    requires pre <= WS.WS_MAX_MSG_SIZE
    ensures var start := Pipe(Reader([], []), WS.START, false, true);
      Agree(pre, start)
      && Flow(pre, start, [Recv([65, LF, 66, LF]), Hangup, Recv([])]).reader == Reader([[65]], [66, LF])
  {
    var start := Pipe(Reader([], []), WS.START, false, true);
    var bytes: seq<Byte> := [65, LF, 66, LF];
    var e := [Recv(bytes), Hangup, Recv([])];
    assert bytes[1..] == [LF, 66, LF] && Stop(bytes[1..]) == 0 && Stop(bytes) == 1;
    assert [] + bytes == bytes && bytes[..1] == [65] && bytes[2..] == [66, LF];
    assert Call(start.reader, bytes) == Reader([[65]], [66, LF]);
    assert e[..2][..1][..0] == [] && e[..2][..1] == [Recv(bytes)] && e[..2] == [Recv(bytes), Hangup];
    assert Flow(pre, start, e[..2][..1][..0]) == start;
    FlowSnoc(pre, start, e[..2][..1]);
    FlowSnoc(pre, start, e[..2]);
    FlowSnoc(pre, start, e);
  }

  // --------------------------------------------------- the forwarding loop

  /** The application's detector connection and server; `lines` records what has
      been taken out of the stream. */
  class Forwarder {
    const conn: IPC.Connection
    const ws: WS.WsServer
    var androidConnected: bool
    ghost var lines: seq<Line>

    ghost predicate Valid()
      reads this, conn, conn.recvBuffer, ws, ws.queue
    {
      conn.Valid() && ws.Valid() && (androidConnected <==> ws.clientWsi.Some?)
    }

    ghost function Abs(): Pipe
      requires conn.Valid()
      reads this, conn, conn.recvBuffer, ws
    {
      Pipe(Reader(lines, conn.Pending()), ws.Abs(), androidConnected, conn.connected)
    }

    constructor (connection: IPC.Connection, server: WS.WsServer)
      requires connection.Valid() && server.Valid() && !server.clientConnected
      ensures Valid() && conn == connection && ws == server
      ensures Abs() == Pipe(Reader([], connection.Pending()), server.Abs(), false, connection.connected)
    {
      conn, ws, androidConnected, lines := connection, server, false, [];
    }

    /** `forward_detection`. */
    method ForwardDetection(json: Line)
      requires Valid()
      modifies ws, ws.queue
      ensures Valid() && conn.Pending() == old(conn.Pending())
      ensures ws.Abs() ==
        if androidConnected then WS.Step(ws.pre, old(ws.Abs()), WS.Queue(WS.Entry(true, json))) else old(ws.Abs())
    {
      if androidConnected {
        var status := ws.QueueMessage(json, true);  // a refused message is only logged
      }
    }

    /** One call of `ipc_recv_message`: for a line the message buffer has room for,
        one of the reader. */
    method TakeIn(r: IPC.Received) returns (len: int, message: Line)
      requires Valid()
      requires r.Data? ==> 0 < |r.bytes| && (conn.Room() > 0 ==> |r.bytes| <= conn.Room())
      requires var p := conn.Pending() + conn.Arriving(r);
        HasLine(p) ==> IPC.MoveEnd(p, IPC.MAX_MSG_SIZE) <= IPC.RECV_BUFFER_SIZE
      modifies this`lines, conn`recvLen, conn`connected, conn.recvBuffer
      ensures Valid() && (len < 0 <==> !conn.connected) && (len >= 0 ==> old(conn.connected) && len == |message|)
      ensures len < 0 ==> lines == old(lines) && conn.Pending() == old(conn.Pending())
      ensures var p := old(conn.Pending()) + old(conn.Arriving(r));
        len >= 0 ==>
          && lines == old(lines) + (if HasLine(p) then [message] else []) && (!HasLine(p) ==> message == [])
          && (HasLine(p) ==> (message, conn.Pending()) == IPC.Taken(p, old(conn.Beyond(r)), IPC.MAX_MSG_SIZE))
          && ((HasLine(p) ==> |FirstLine(p)| < IPC.MAX_MSG_SIZE) ==>
              Reader(lines, conn.Pending()) == Call(Reader(old(lines), old(conn.Pending())), old(conn.Arriving(r))))
    {
      ghost var pending, chunk, beyond := conn.Pending(), conn.Arriving(r), conn.Beyond(r);
      len, message := conn.RecvMessage(r, IPC.MAX_MSG_SIZE);
      if len >= 0 && HasLine(pending + chunk) {
        if |FirstLine(pending + chunk)| < IPC.MAX_MSG_SIZE {
          IPC.TakenIsCall(lines, pending, chunk, beyond, IPC.MAX_MSG_SIZE);
        }
        lines := lines + [message];
      }
    }

    /** One turn of the receive loop: for a line the message buffer has room for, a
        step of the pipeline on the bytes that arrived, or the hang-up; a longer line
        is cut, forwarded as far as it fitted, and leaves what the cut leaves. */
    method Poll(r: IPC.Received) returns (len: int)
      requires Valid()
      requires r.Data? ==> 0 < |r.bytes| && (conn.Room() > 0 ==> |r.bytes| <= conn.Room())
      requires var p := conn.Pending() + conn.Arriving(r);
        HasLine(p) ==> IPC.MoveEnd(p, IPC.MAX_MSG_SIZE) <= IPC.RECV_BUFFER_SIZE
      modifies this`lines, conn`recvLen, conn`connected, conn.recvBuffer, ws, ws.queue
      ensures Valid() && (len < 0 <==> !conn.connected)
      ensures var p := old(conn.Pending()) + old(conn.Arriving(r));
        len >= 0 && (HasLine(p) ==> |FirstLine(p)| < IPC.MAX_MSG_SIZE) ==>
          Abs() == Step(ws.pre, old(Abs()), Recv(old(conn.Arriving(r))))
      ensures var p := old(conn.Pending()) + old(conn.Arriving(r));
        len >= 0 && HasLine(p) ==>
          var (m, rest) := IPC.Taken(p, old(conn.Beyond(r)), IPC.MAX_MSG_SIZE);
          && Abs().reader == Reader(old(lines) + [m], rest)
          && ws.Abs() == Forward(ws.pre, old(ws.Abs()), androidConnected, m)
      ensures len < 0 ==> Abs() == Step(ws.pre, old(Abs()), Hangup)
    {
      var message;
      len, message := TakeIn(r);
      if len > 0 {
        ForwardDetection(message);
      }
    }

    /** A writeable, opened or closed socket, with the callbacks it fires. */
    method OnOpened(wsi: nat) returns (fired: seq<WS.Callback>)
      requires Valid()
      modifies this`androidConnected, ws
      ensures Valid() && Abs() == Step(ws.pre, old(Abs()), Opened(wsi))
    {
      fired := ws.Established(wsi);
      androidConnected := true;
    }

    method OnClosed(wsi: nat) returns (fired: seq<WS.Callback>)
      requires Valid()
      modifies this`androidConnected, ws
      ensures Valid() && Abs() == Step(ws.pre, old(Abs()), Closed(wsi))
    {
      fired := ws.Closed(wsi);
      if fired != [] {
        androidConnected := false;
      }
    }
  }
}
