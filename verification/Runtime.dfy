/** The active-object runtime as a step system: threads that take locks, post
    into bounded queues, publish on the event bus, submit and complete UART
    operations, and consumers that pop, wait and handle.  A queue's critical
    sections are single instructions on its buffer, head, tail and size, and any
    other thread may move between two of them.  A schedule picks, step by step,
    which thread moves; everything below holds for every schedule. */
module Runtime {
  import opened Options
  import opened Ring
  import EventQueue

  datatype Event = End | Message(kind: nat)

  // ---------------------------------------------------------------- locks

  /** Every mutex an active-object thread, a timer thread, the UART completion
      thread or an outside caller takes. */
  datatype Lock = Bus | Uart | Target | QueueLock(ao: nat) | LogTime | LogWrite

  /** The lock order: queue and log mutexes are leaves. */
  function Rank(l: Lock): nat {
    match l
    case Bus => 0
    case Uart => 0
    case Target => 0
    case QueueLock(_) => 1
    case LogTime => 1
    case LogWrite => 1
  }

  // ------------------------------------------------------------- programs

  /** Taking and giving locks, and the statements of `util_queue_push` and
      `util_queue_pop` on queue `q`. */
  datatype Instr =
    | Acquire(l: Lock)
    | Release(l: Lock)
    | TestFull(q: nat, event: Event)  // if (size == capacity), else the insertion follows
    | Store(q: nat, event: Event)     // buffer[tail] = element
    | AdvanceTail(q: nat)             // tail = (tail + 1) % capacity
    | GrowSize(q: nat)                // size++
    | Signal(q: nat)                  // osal_cond_signal
    | TestEmpty(q: nat)               // while (size == 0)
    | Sleep(q: nat)                   // osal_cond_wait: release the mutex and sleep, in one
    | ReadHead(q: nat)                // *element = buffer[head]
    | AdvanceHead(q: nat)             // head = (head + 1) % capacity
    | ShrinkSize(q: nat)              // size--

  /** What a thread may start when it is between operations. */
  datatype Operation =
    | Post(to: nat, event: Event)                   // util_active_object_post
    | Publish(posts: seq<(nat, Event)>)             // util_event_bus_publish
    | Submit                                        // hal_uart_read, _write, _abort
    | Completion(callback: Option<(nat, Event)>)    // one completion handled by the UART thread
    | Targeting                                     // servo_copy_target, servo_fsm_set_target
    | Logging                                       // log_private

  function PostCode(to: nat, event: Event): seq<Instr> {
    [Acquire(QueueLock(to)), TestFull(to, event), Release(QueueLock(to))]
  }

  /** What a push with room does before it unlocks. */
  function InsertCode(q: nat, event: Event): seq<Instr> {
    [Store(q, event), AdvanceTail(q), GrowSize(q), Signal(q)]
  }

  function PopCode(q: nat): seq<Instr> {
    [Acquire(QueueLock(q)), TestEmpty(q)] + ExtractCode(q)
  }

  /** What a pop does once the queue is not empty. */
  function ExtractCode(q: nat): seq<Instr> {
    [ReadHead(q), AdvanceHead(q), ShrinkSize(q), Release(QueueLock(q))]
  }

  function LogCode(): seq<Instr> {
    [Acquire(LogTime), Release(LogTime), Acquire(LogWrite), Release(LogWrite)]
  }

  function Deliveries(posts: seq<(nat, Event)>): seq<Instr> {
    if posts == [] then [] else LogCode() + PostCode(posts[0].0, posts[0].1) + Deliveries(posts[1..])
  }

  function Code(op: Operation): seq<Instr> {
    match op
    case Post(to, event) => PostCode(to, event)
    case Publish(posts) => [Acquire(Bus)] + Deliveries(posts) + [Release(Bus)]
    case Submit => [Acquire(Uart), Release(Uart)]
    case Completion(callback) =>
      [Acquire(Uart)]
      + (if callback.Some? then PostCode(callback.value.0, callback.value.1) else [])
      + [Release(Uart)]
    case Targeting => [Acquire(Target), Release(Target)]
    case Logging => LogCode()
  }

  /** The queues an operation names exist. */
  ghost predicate Addressed(op: Operation, objects: nat) {
    match op
    case Post(to, _) => to < objects
    case Publish(posts) => forall k :: 0 <= k < |posts| ==> posts[k].0 < objects
    case Completion(callback) => callback.Some? ==> callback.value.0 < objects
    case _ => true
  }

  // ---------------------------------------------------------------- state

  datatype Thread = Thread(consumes: Option<nat>, held: set<Lock>, code: seq<Instr>)

  /** One active object: the fields of its queue, whether its consumer is asleep
      and not signalled, the event that consumer has taken, and for the record
      what it handled and every event ever stored in the queue. */
  datatype Fields = Fields(
    buffer: seq<Event>, head: nat, tail: nat, size: int, waiting: bool, hand: Option<Event>,
    handled: seq<Event>, accepted: seq<Event>, finished: bool)

  type ActiveObject = a: Fields | a.head < |a.buffer| && a.tail < |a.buffer|
    witness Fields([End], 0, 0, 0, false, None, [], [], false)

  datatype State = State(threads: seq<Thread>, objects: seq<ActiveObject>)

  datatype Move = Begin(op: Operation) | Fetch | Advance | Wake | Finish

  datatype Choice = Choice(thread: nat, move: Move)

  ghost predicate Free(s: State, l: Lock) {
    forall i :: 0 <= i < |s.threads| ==> l !in s.threads[i].held
  }

  /** Thread `i` sleeps on the condition variable of its queue. */
  predicate Asleep(s: State, i: nat)
    requires i < |s.threads|
  {
    var t := s.threads[i];
    t.consumes.Some? && t.consumes.value < |s.objects| && s.objects[t.consumes.value].waiting
  }

  predicate Exited(s: State, i: nat)
    requires i < |s.threads|
  {
    var t := s.threads[i];
    t.consumes.Some? && t.consumes.value < |s.objects| && s.objects[t.consumes.value].finished
  }

  /** Thread `i` can execute the next instruction of the operation it is in. */
  ghost predicate CanAdvance(s: State, i: nat)
    requires i < |s.threads|
  {
    && s.threads[i].code != []
    && !Asleep(s, i)
    && (s.threads[i].code[0].Acquire? ==> Free(s, s.threads[i].code[0].l))
  }

  ghost predicate Enabled(s: State, c: Choice) {
    && c.thread < |s.threads|
    && var t := s.threads[c.thread];
    match c.move
    case Begin(op) => t.code == [] && !Exited(s, c.thread) && Addressed(op, |s.objects|)
    case Fetch =>
      && t.code == [] && !Exited(s, c.thread)
      && t.consumes.Some? && t.consumes.value < |s.objects| && s.objects[t.consumes.value].hand == None
    case Advance => CanAdvance(s, c.thread)
    case Wake => Asleep(s, c.thread)
    case Finish =>
      && t.code == [] && !Exited(s, c.thread)
      && t.consumes.Some? && t.consumes.value < |s.objects| && s.objects[t.consumes.value].hand != None
  }

  predicate OnQueue(x: Instr) {
    !x.Acquire? && !x.Release?
  }

  /** What is left to do after an instruction on an object's queue: the tests
      branch, and a consumer woken from its sleep locks and tests again. */
  function Following(x: Instr, a: ActiveObject, rest: seq<Instr>): seq<Instr> {
    match x
    case TestFull(q, e) => if a.size == |a.buffer| then rest else InsertCode(q, e) + rest
    case TestEmpty(q) => if a.size == 0 then [Sleep(q)] + rest else rest
    case Sleep(q) => [Acquire(QueueLock(q)), TestEmpty(q)] + rest
    case _ => rest
  }

  /** What an instruction does to the object of its queue. */
  function Effect(x: Instr, a: ActiveObject): ActiveObject {
    match x
    case Store(_, e) => a.(buffer := a.buffer[a.tail := e], accepted := a.accepted + [e])
    case AdvanceTail(_) => a.(tail := (a.tail + 1) % |a.buffer|)
    case GrowSize(_) => a.(size := a.size + 1)
    case Signal(_) => a.(waiting := false)
    case Sleep(_) => a.(waiting := true)
    case ReadHead(_) => a.(hand := Some(a.buffer[a.head]))
    case AdvanceHead(_) => a.(head := (a.head + 1) % |a.buffer|)
    case ShrinkSize(_) => a.(size := a.size - 1)
    case _ => a
  }

  /** The first instruction's effect on the thread that executes it. */
  function Executed(t: Thread, o: seq<ActiveObject>): Thread
    requires t.code != []
  {
    var x, rest := t.code[0], t.code[1..];
    match x
    case Acquire(l) => t.(held := t.held + {l}, code := rest)
    case Release(l) => t.(held := t.held - {l}, code := rest)
    case _ =>
      // a consumer going to sleep gives the mutex back
      t.(held := if x.Sleep? then t.held - {QueueLock(x.q)} else t.held,
         code := if x.q < |o| then Following(x, o[x.q], rest) else rest)
  }

  /** Its effect on the objects. */
  function Affected(x: Instr, o: seq<ActiveObject>): (o': seq<ActiveObject>)
    ensures |o'| == |o|
  {
    if OnQueue(x) && x.q < |o| then o[x.q := Effect(x, o[x.q])] else o
  }

  function Apply(s: State, c: Choice): State
    requires Enabled(s, c)
  {
    var i := c.thread;
    var t := s.threads[i];
    match c.move
    case Begin(op) => s.(threads := s.threads[i := t.(code := Code(op))])
    case Fetch => s.(threads := s.threads[i := t.(code := PopCode(t.consumes.value))])
    case Advance => State(s.threads[i := Executed(t, s.objects)], Affected(t.code[0], s.objects))
    case Wake =>
      var q := t.consumes.value;
      s.(objects := s.objects[q := s.objects[q].(waiting := false)])
    case Finish =>
      var q := t.consumes.value;
      var o := s.objects[q];
      s.(objects := s.objects[q :=
        if o.hand == Some(End) then o.(finished := true)
        else o.(hand := None, handled := o.handled + [o.hand.value])])
  }

  ghost predicate Admissible(s: State, schedule: seq<Choice>)
    decreases schedule
  {
    schedule == [] || (Enabled(s, schedule[0]) && Admissible(Apply(s, schedule[0]), schedule[1..]))
  }

  ghost function After(s: State, schedule: seq<Choice>): State
    requires Admissible(s, schedule)
    decreases schedule
  {
    if schedule == [] then s else After(Apply(s, schedule[0]), schedule[1..])
  }

  // ------------------------------------------------------------ invariant

  /** Code that is not in the middle of a critical section. */
  predicate Plain(code: seq<Instr>) {
    code == [] || code[0].Acquire? || code[0].Release? || code[0].TestFull? || code[0].TestEmpty?
  }

  /** At some point of the critical section of a pop from queue `q`. */
  predicate Popping(code: seq<Instr>, q: nat)
    requires code != []
  {
    match code[0]
    case TestEmpty(p) => p == q && code[1..] == ExtractCode(q)
    case Sleep(p) => p == q && code[1..] == ExtractCode(q)
    case ReadHead(p) => p == q && code[1..] == ExtractCode(q)[1..]
    case AdvanceHead(p) => p == q && code[1..] == ExtractCode(q)[2..]
    case ShrinkSize(p) => p == q && code[1..] == ExtractCode(q)[3..]
    case _ => false
  }

  /** The rest of an operation keeps the lock order, touches a queue only under
      its mutex and in the order of the critical sections, waits holding nothing
      else, and ends holding nothing. */
  ghost predicate Safe(code: seq<Instr>, held: set<Lock>, consumes: Option<nat>, objects: nat) {
    if code == [] then held == {}
    else
      var x, rest := code[0], code[1..];
      match x
      case Acquire(l) =>
        Plain(rest) && (forall h :: h in held ==> Rank(h) < Rank(l)) && Safe(rest, held + {l}, consumes, objects)
      case Release(l) => Plain(rest) && l in held && Safe(rest, held - {l}, consumes, objects)
      case TestFull(_, _) => Plain(rest) && Pushing(x.q, held, objects) && Safe(rest, held, consumes, objects)
      case Store(_, _) =>
        && rest != [] && rest[0] == AdvanceTail(x.q)
        && Pushing(x.q, held, objects) && Safe(rest, held, consumes, objects)
      case AdvanceTail(_) =>
        && rest != [] && rest[0] == GrowSize(x.q)
        && Pushing(x.q, held, objects) && Safe(rest, held, consumes, objects)
      case GrowSize(_) =>
        && rest != [] && rest[0] == Signal(x.q)
        && Pushing(x.q, held, objects) && Safe(rest, held, consumes, objects)
      case Signal(_) => Plain(rest) && Pushing(x.q, held, objects) && Safe(rest, held, consumes, objects)
      case _ => held == {QueueLock(x.q)} && x.q < objects && consumes == Some(x.q) && Popping(code, x.q)
  }

  predicate Pushing(q: nat, held: set<Lock>, objects: nat) {
    q < objects && QueueLock(q) in held
  }

  function InHand(a: ActiveObject): seq<Event> {
    if a.hand.Some? then [a.hand.value] else []
  }

  /** The first `size` slots from the head hold what is stored and not yet taken,
      and the tail is the slot `used` places on. */
  ghost predicate Booked(a: ActiveObject, size: int, used: int) {
    && 0 <= size <= |a.buffer| && 0 <= used <= |a.buffer|
    && a.tail == Slot(a.head, used, |a.buffer|)
    && a.accepted == a.handled + InHand(a) + Window(a.buffer, a.head, size)
  }

  /** What holds of a queue whenever its mutex is free. */
  ghost predicate Steady(a: ActiveObject) {
    Booked(a, a.size, a.size) && (a.waiting ==> a.size == 0)
  }

  /** What holds of queue `q` while the thread holding its mutex is at `code`. */
  ghost predicate Books(a: ActiveObject, code: seq<Instr>, q: nat) {
    if code == [] || !OnQueue(code[0]) || code[0].q != q then Steady(a)
    else
      match code[0]
      case Store(_, _) => Steady(a) && a.size < |a.buffer|
      case AdvanceTail(_) => Booked(a, a.size + 1, a.size) && (a.waiting ==> a.size == 0)
      case GrowSize(_) => Booked(a, a.size + 1, a.size + 1) && (a.waiting ==> a.size == 0)
      case Signal(_) => Booked(a, a.size, a.size)
      case Sleep(_) => Steady(a) && a.size == 0
      case ReadHead(_) => Steady(a) && 0 < a.size
      case AdvanceHead(_) =>
        && 0 < a.size <= |a.buffer| && a.tail == Slot(a.head, a.size, |a.buffer|)
        && a.hand == Some(a.buffer[a.head])
        && a.accepted == a.handled + Window(a.buffer, a.head, a.size)
      case ShrinkSize(_) => Booked(a, a.size - 1, a.size - 1)
      case _ => Steady(a)
  }

  ghost predicate ObjectInv(a: ActiveObject) {
    End !in a.handled && (a.finished ==> a.hand == Some(End))
  }

  ghost predicate ThreadInv(t: Thread, o: seq<ActiveObject>) {
    && Safe(t.code, t.held, t.consumes, |o|)
    && (t.consumes.Some? ==>
      && t.consumes.value < |o|
      && var a := o[t.consumes.value];
      && (a.waiting ==> t.code == PopCode(t.consumes.value) && t.held == {})
      && (ReadHead(t.consumes.value) in t.code ==> a.hand == None)
      && (a.finished ==> t.code == []))
  }

  ghost predicate QueueInv(s: State, q: nat)
    requires q < |s.objects|
  {
    && (forall i :: 0 <= i < |s.threads| && QueueLock(q) in s.threads[i].held ==>
        Books(s.objects[q], s.threads[i].code, q))
    && (Free(s, QueueLock(q)) ==> Steady(s.objects[q]))
  }

  /** Everything but the queues' contents. */
  ghost predicate ThreadsInv(s: State) {
    && (forall i :: 0 <= i < |s.threads| ==> ThreadInv(s.threads[i], s.objects))
    && (forall i, j :: 0 <= i < j < |s.threads| ==> s.threads[i].held !! s.threads[j].held)
    && (forall i, j :: 0 <= i < j < |s.threads| && s.threads[i].consumes.Some? ==>
        s.threads[i].consumes != s.threads[j].consumes)
    && (forall q :: 0 <= q < |s.objects| ==> ObjectInv(s.objects[q]))
  }

  ghost predicate Inv(s: State) {
    ThreadsInv(s) && forall q :: 0 <= q < |s.objects| ==> QueueInv(s, q)
  }

  /** Start-up: every queue empty, every thread between operations, and each
      queue popped by the thread of its own active object only. */
  ghost predicate Initial(s: State) {
    && (forall i :: 0 <= i < |s.threads| ==>
        s.threads[i].held == {} && s.threads[i].code == []
        && (s.threads[i].consumes.Some? ==> s.threads[i].consumes.value < |s.objects|))
    && (forall i, j :: 0 <= i < j < |s.threads| && s.threads[i].consumes.Some? ==>
        s.threads[i].consumes != s.threads[j].consumes)
    && (forall q :: 0 <= q < |s.objects| ==>
        var a := s.objects[q];
        && a.head == 0 && a.tail == 0 && a.size == 0
        && !a.waiting && a.hand == None && a.handled == [] && a.accepted == [] && !a.finished)
  }

  // ------------------------------------------------ every program is safe

  lemma {:induction false} DeliveriesSafe(
    posts: seq<(nat, Event)>, rest: seq<Instr>, consumes: Option<nat>, objects: nat)
    requires Addressed(Publish(posts), objects)
    requires Plain(rest) && Safe(rest, {Bus}, consumes, objects)
    ensures Plain(Deliveries(posts) + rest) && Safe(Deliveries(posts) + rest, {Bus}, consumes, objects)
  {
    if posts == [] {
      assert Deliveries(posts) + rest == rest;
    } else {
      DeliveriesSafe(posts[1..], rest, consumes, objects);
      var tail := Deliveries(posts[1..]) + rest;
      var (q, e) := (posts[0].0, posts[0].1);
      PostSafe(q, e, tail, {Bus}, consumes, objects);
      LogSafe(PostCode(q, e) + tail, {Bus}, consumes, objects);
      assert Deliveries(posts) + rest == LogCode() + (PostCode(q, e) + tail);
    }
  }

  lemma PostSafe(q: nat, e: Event, rest: seq<Instr>, held: set<Lock>, consumes: Option<nat>, objects: nat)
    requires q < objects && (forall h :: h in held ==> Rank(h) == 0)
    requires Plain(rest) && Safe(rest, held, consumes, objects)
    ensures Safe(PostCode(q, e) + rest, held, consumes, objects)
  {
    var l := QueueLock(q);
    var code := PostCode(q, e) + rest;
    assert held + {l} - {l} == held;
    assert code[3..] == rest && code[2..][1..] == rest && code[1..][1..] == code[2..];
    assert Safe(code[2..], held + {l}, consumes, objects);
    assert Safe(code[1..], held + {l}, consumes, objects);
  }

  lemma LogSafe(rest: seq<Instr>, held: set<Lock>, consumes: Option<nat>, objects: nat)
    requires (forall h :: h in held ==> Rank(h) == 0) && Plain(rest) && Safe(rest, held, consumes, objects)
    ensures Safe(LogCode() + rest, held, consumes, objects)
  {
    var code := LogCode() + rest;
    assert held + {LogWrite} - {LogWrite} == held && held + {LogTime} - {LogTime} == held;
    assert code[4..] == rest && code[3..][1..] == code[4..];
    assert code[2..][1..] == code[3..] && code[1..][1..] == code[2..];
    assert Safe(code[3..], held + {LogWrite}, consumes, objects);
    assert Safe(code[2..], held, consumes, objects);
    assert Safe(code[1..], held + {LogTime}, consumes, objects);
  }

  lemma PublishSafe(posts: seq<(nat, Event)>, consumes: Option<nat>, objects: nat)
    requires Addressed(Publish(posts), objects)
    ensures Safe(Code(Publish(posts)), {}, consumes, objects)
  {
    var out := [Release(Bus)];
    assert Safe(out, {Bus}, consumes, objects);
    DeliveriesSafe(posts, out, consumes, objects);
    assert Code(Publish(posts))[1..] == Deliveries(posts) + out && {} + {Bus} == {Bus};
  }

  lemma CompletionSafe(callback: Option<(nat, Event)>, consumes: Option<nat>, objects: nat)
    requires Addressed(Completion(callback), objects)
    ensures Safe(Code(Completion(callback)), {}, consumes, objects)
  {
    var out := [Release(Uart)];
    assert Safe(out, {Uart}, consumes, objects) && {} + {Uart} == {Uart};
    if callback.Some? {
      PostSafe(callback.value.0, callback.value.1, out, {Uart}, consumes, objects);
      assert Code(Completion(callback))[1..] == PostCode(callback.value.0, callback.value.1) + out;
    } else {
      assert Code(Completion(callback))[1..] == out;
    }
  }

  /** Every operation the threads run keeps the lock order from start to end. */
  lemma OperationSafe(op: Operation, consumes: Option<nat>, objects: nat)
    requires Addressed(op, objects)
    ensures Safe(Code(op), {}, consumes, objects)
  {
    var done: seq<Instr> := [];
    match op
    case Post(to, event) =>
      PostSafe(to, event, done, {}, consumes, objects);
      assert Code(op) == PostCode(to, event) + done;
    case Publish(posts) => PublishSafe(posts, consumes, objects);
    case Completion(callback) => CompletionSafe(callback, consumes, objects);
    case Logging =>
      LogSafe(done, {}, consumes, objects);
      assert Code(op) == LogCode() + done;
    case Submit =>
      assert Code(op)[1..] == [Release(Uart)] && {} + {Uart} == {Uart};
    case Targeting =>
      assert Code(op)[1..] == [Release(Target)] && {} + {Target} == {Target};
  }

  lemma PopSafe(q: nat, objects: nat)
    requires q < objects
    ensures Safe(PopCode(q), {}, Some(q), objects)
  {
    assert PopCode(q)[1..] == [TestEmpty(q)] + ExtractCode(q) && {} + {QueueLock(q)} == {QueueLock(q)};
  }

  /** The branch a push with room takes is safe where its test was. */
  lemma InsertSafe(q: nat, e: Event, rest: seq<Instr>, held: set<Lock>, consumes: Option<nat>, objects: nat)
    requires Pushing(q, held, objects) && Plain(rest) && Safe(rest, held, consumes, objects)
    ensures Safe(InsertCode(q, e) + rest, held, consumes, objects)
  {
    var code := InsertCode(q, e) + rest;
    assert code[3..][1..] == rest && code[2..][1..] == code[3..] && code[1..][1..] == code[2..];
    assert Safe(code[3..], held, consumes, objects);
    assert Safe(code[2..], held, consumes, objects);
    assert Safe(code[1..], held, consumes, objects);
  }

  lemma {:induction false} DeliveriesReadNothing(posts: seq<(nat, Event)>, q: nat)
    ensures ReadHead(q) !in Deliveries(posts)
  {
    if posts != [] {
      DeliveriesReadNothing(posts[1..], q);
    }
  }

  lemma OperationReadsNothing(op: Operation, q: nat)
    ensures ReadHead(q) !in Code(op)
  {
    if op.Publish? {
      DeliveriesReadNothing(op.posts, q);
    }
  }

  // ------------------------------- one instruction under the queue's mutex

  /** What the thread holding the mutex knows after an instruction of its section
      follows from what it knew before. */
  ghost predicate Keeps(a: ActiveObject, code: seq<Instr>) {
    code != [] && OnQueue(code[0]) && Books(a, code, code[0].q) ==>
      Books(Effect(code[0], a), Following(code[0], a, code[1..]), code[0].q)
  }

  lemma StoreBooks(a: ActiveObject, q: nat, e: Event)
    requires Steady(a) && a.size < |a.buffer|
    ensures var b := Effect(Store(q, e), a);
      && Booked(b, a.size + 1, a.size) && b.tail == a.tail && b.head == a.head && |b.buffer| == |a.buffer|
      && Window(b.buffer, b.head, a.size + 1) == Window(a.buffer, a.head, a.size) + [e]
  {
    WindowPush(a.buffer, a.head, a.size, e);
    var w := Window(a.buffer, a.head, a.size);
    assert a.handled + InHand(a) + w + [e] == a.handled + InHand(a) + (w + [e]);
  }

  lemma StoreKeeps(a: ActiveObject, q: nat, e: Event, rest: seq<Instr>)
    requires rest != [] && rest[0] == AdvanceTail(q)
    ensures Keeps(a, [Store(q, e)] + rest)
  {
    var code := [Store(q, e)] + rest;
    if Books(a, code, q) {
      assert code[1..] == rest;
      StoreBooks(a, q, e);
    }
  }

  lemma AdvanceTailKeeps(a: ActiveObject, q: nat, rest: seq<Instr>)
    requires rest != [] && rest[0] == GrowSize(q)
    ensures Keeps(a, [AdvanceTail(q)] + rest)
  {
    var code := [AdvanceTail(q)] + rest;
    if Books(a, code, q) {
      assert code[1..] == rest;
      NextSlot(a.tail, |a.buffer|);
    }
  }

  lemma ReadHeadKeeps(a: ActiveObject, q: nat, rest: seq<Instr>)
    requires rest != [] && rest[0] == AdvanceHead(q) && a.hand == None
    ensures Keeps(a, [ReadHead(q)] + rest)
  {
    var code := [ReadHead(q)] + rest;
    if Books(a, code, q) {
      assert code[1..] == rest;
      assert a.handled + [] == a.handled;
    }
  }

  lemma FirstApart(before: seq<Event>, w: seq<Event>)
    requires w != []
    ensures before + w == before + [w[0]] + w[1..]
  {
  }

  /** Moving the head past the event in the hand leaves one fewer in the window. */
  lemma HeadBooks(a: ActiveObject, q: nat)
    requires 0 < a.size <= |a.buffer| && a.tail == Slot(a.head, a.size, |a.buffer|)
    requires a.hand == Some(a.buffer[a.head])
    requires a.accepted == a.handled + Window(a.buffer, a.head, a.size)
    ensures Booked(Effect(AdvanceHead(q), a), a.size - 1, a.size - 1)
  {
    NextSlot(a.head, |a.buffer|);
    SlotAfterPop(a.head, a.size, |a.buffer|);
    WindowPop(a.buffer, a.head, a.size);
    FirstApart(a.handled, Window(a.buffer, a.head, a.size));
  }

  lemma AdvanceHeadKeeps(a: ActiveObject, q: nat, rest: seq<Instr>)
    requires rest != [] && rest[0] == ShrinkSize(q)
    ensures Keeps(a, [AdvanceHead(q)] + rest)
  {
    var code := [AdvanceHead(q)] + rest;
    if Books(a, code, q) {
      assert code[1..] == rest;
      HeadBooks(a, q);
    }
  }

  lemma PopKeeps(a: ActiveObject, code: seq<Instr>, q: nat)
    requires code != [] && Popping(code, q) && !a.waiting && (ReadHead(q) in code ==> a.hand == None)
    ensures Keeps(a, code)
  {
    var rest := code[1..];
    assert code == [code[0]] + rest;
    if code[0] == ReadHead(q) {
      ReadHeadKeeps(a, q, rest);
    } else if code[0] == AdvanceHead(q) {
      AdvanceHeadKeeps(a, q, rest);
    } else if code[0] == ShrinkSize(q) {
      assert rest == [Release(QueueLock(q))];
    } else {
      assert rest == ExtractCode(q);
    }
  }

  lemma PushKeeps(a: ActiveObject, code: seq<Instr>, held: set<Lock>, consumes: Option<nat>, objects: nat)
    requires Safe(code, held, consumes, objects) && code != []
    requires code[0].TestFull? || code[0].Store? || code[0].AdvanceTail? || code[0].GrowSize? || code[0].Signal?
    ensures Keeps(a, code)
  {
    var q, rest := code[0].q, code[1..];
    assert code == [code[0]] + rest;
    if code[0].Store? {
      StoreKeeps(a, q, code[0].event, rest);
    } else if code[0].AdvanceTail? {
      AdvanceTailKeeps(a, q, rest);
    } else if code[0].TestFull? {
      assert (InsertCode(q, code[0].event) + rest)[0] == Store(q, code[0].event);
    }
  }

  lemma SectionKeeps(a: ActiveObject, code: seq<Instr>, held: set<Lock>, consumes: Option<nat>, objects: nat)
    requires Safe(code, held, consumes, objects) && code != [] && OnQueue(code[0])
    requires consumes == Some(code[0].q) ==> !a.waiting && (ReadHead(code[0].q) in code ==> a.hand == None)
    ensures Keeps(a, code)
  {
    match code[0]
    case TestEmpty(q) => PopKeeps(a, code, q);
    case Sleep(q) => PopKeeps(a, code, q);
    case ReadHead(q) => PopKeeps(a, code, q);
    case AdvanceHead(q) => PopKeeps(a, code, q);
    case ShrinkSize(q) => PopKeeps(a, code, q);
    case _ => PushKeeps(a, code, held, consumes, objects);
  }

  // --------------------------------------------------------- preservation

  /** What is left to do starts on the same queue or outside any critical section. */
  predicate Stays(x: Instr, code: seq<Instr>) {
    Plain(code) || (OnQueue(x) && OnQueue(code[0]) && code[0].q == x.q)
  }

  lemma PopStays(code: seq<Instr>, q: nat, a: ActiveObject)
    requires code != [] && Popping(code, q)
    ensures Stays(code[0], code[1..]) && Stays(code[0], Following(code[0], a, code[1..]))
  {
    var body := ExtractCode(q);
    assert body[1..][0] == AdvanceHead(q) && body[2..][0] == ShrinkSize(q) && body[3..][0] == Release(QueueLock(q));
  }

  lemma StaysOnQueue(t: Thread, o: seq<ActiveObject>)
    requires Safe(t.code, t.held, t.consumes, |o|) && t.code != []
    ensures Stays(t.code[0], Executed(t, o).code)
  {
    var x, rest := t.code[0], t.code[1..];
    match x
    case TestFull(q, e) => assert (InsertCode(q, e) + rest)[0] == Store(q, e);
    case Acquire(_) =>
    case Release(_) =>
    case Store(_, _) =>
    case AdvanceTail(_) =>
    case GrowSize(_) =>
    case Signal(_) =>
    case _ => PopStays(t.code, x.q, o[x.q]);
  }

  lemma PopExecutedSafe(t: Thread, o: seq<ActiveObject>, q: nat)
    requires t.held == {QueueLock(q)} && q < |o| && t.consumes == Some(q) && t.code != [] && Popping(t.code, q)
    ensures var t' := Executed(t, o); Safe(t'.code, t'.held, t'.consumes, |o|)
  {
    var x, rest := t.code[0], t.code[1..];
    assert t.held - {QueueLock(q)} == {};
    if x == Sleep(q) {
      assert rest == ExtractCode(q) && Executed(t, o).code == PopCode(q);
      PopSafe(q, |o|);
    } else if x == ShrinkSize(q) {
      assert rest == [Release(QueueLock(q))] && rest[1..] == [];
    } else if x == AdvanceHead(q) {
      assert rest == ExtractCode(q)[2..];
    } else if x == ReadHead(q) {
      assert rest == ExtractCode(q)[1..];
    } else {
      assert rest == ExtractCode(q);
    }
  }

  lemma ExecutedSafe(t: Thread, o: seq<ActiveObject>)
    requires Safe(t.code, t.held, t.consumes, |o|) && t.code != []
    ensures var t' := Executed(t, o); Safe(t'.code, t'.held, t'.consumes, |o|)
  {
    match t.code[0]
    case TestFull(q, e) => InsertSafe(q, e, t.code[1..], t.held, t.consumes, |o|);
    case Acquire(_) =>
    case Release(_) =>
    case Store(_, _) =>
    case AdvanceTail(_) =>
    case GrowSize(_) =>
    case Signal(_) =>
    case _ => PopExecutedSafe(t, o, t.code[0].q);
  }

  /** The other threads keep their invariant when one thread and its effect on
      the queues change: a queue is taken from by its own consumer only. */
  ghost predicate Compatible(o: seq<ActiveObject>, o': seq<ActiveObject>, mover: Option<nat>) {
    && |o'| == |o|
    && forall q :: 0 <= q < |o| && Some(q) != mover ==>
        && (o'[q].waiting ==> o[q].waiting)
        && o'[q].hand == o[q].hand && o'[q].finished == o[q].finished
  }

  lemma OthersKeep(s: State, i: nat, t: Thread, o: seq<ActiveObject>)
    requires ThreadsInv(s) && i < |s.threads|
    requires t.consumes == s.threads[i].consumes && Compatible(s.objects, o, t.consumes)
    requires ThreadInv(t, o)
    requires forall q :: 0 <= q < |o| ==> ObjectInv(o[q])
    requires forall l :: l in t.held ==> l in s.threads[i].held || Free(s, l)
    ensures ThreadsInv(State(s.threads[i := t], o))
  {
    var s' := State(s.threads[i := t], o);
    forall j | 0 <= j < |s'.threads|
      ensures ThreadInv(s'.threads[j], o)
    {
      if j != i {
        assert ThreadInv(s.threads[j], s.objects);
        var c := s.threads[j].consumes;
        assert c.Some? ==> c != t.consumes;
      }
    }
    forall j, k | 0 <= j < k < |s'.threads|
      ensures s'.threads[j].held !! s'.threads[k].held
    {
      assert s.threads[j].held !! s.threads[k].held;
      if j == i || k == i {
        var other := s.threads[if j == i then k else j].held;
        forall l | l in t.held
          ensures l !in other
        {
          assert l in s.threads[i].held || Free(s, l);
        }
      }
    }
  }

  /** An instruction keeps everything but, perhaps, the books of the queues. */
  lemma AdvanceKeepsThreads(s: State, i: nat)
    requires Inv(s) && i < |s.threads| && CanAdvance(s, i)
    ensures ThreadsInv(Apply(s, Choice(i, Advance)))
  {
    var t, o := s.threads[i], s.objects;
    assert ThreadInv(t, o);
    var t', o' := Executed(t, o), Affected(t.code[0], o);
    ExecutedSafe(t, o);
    if t.consumes.Some? {
      AdvanceReads(t, o);
    }
    forall q | 0 <= q < |o'|
      ensures ObjectInv(o'[q])
    {
      assert ObjectInv(o[q]);
    }
    OthersKeep(s, i, t', o');
  }

  /** The consumer's own clauses: reading the head ends the need for an empty hand. */
  lemma AdvanceReads(t: Thread, o: seq<ActiveObject>)
    requires ThreadInv(t, o) && t.code != [] && t.consumes.Some? && !o[t.consumes.value].waiting
    ensures var t', a := Executed(t, o), Affected(t.code[0], o)[t.consumes.value];
      && (a.waiting ==> t'.code == PopCode(t.consumes.value) && t'.held == {})
      && (ReadHead(t.consumes.value) in t'.code ==> a.hand == None)
      && !a.finished
  {
    var x := t.code[0];
    if OnQueue(x) {
      var rest := Following(x, o[x.q], t.code[1..]);
      assert ReadHead(t.consumes.value) in rest ==> x.Sleep? || ReadHead(t.consumes.value) in t.code;
    }
  }

  /** The mutex of a queue has one holder. */
  lemma OneHolder(s: State, i: nat, j: nat, l: Lock)
    requires ThreadsInv(s) && i < |s.threads| && j < |s.threads|
    requires l in s.threads[i].held && l in s.threads[j].held
    ensures i == j
  {
  }

  /** An instruction of a section keeps the books of its own queue, because its
      thread is the only one holding the mutex. */
  lemma SectionKeepsQueue(s: State, i: nat)
    requires Inv(s) && i < |s.threads| && CanAdvance(s, i) && OnQueue(s.threads[i].code[0])
    ensures s.threads[i].code[0].q < |s.objects|
    ensures QueueInv(Apply(s, Choice(i, Advance)), s.threads[i].code[0].q)
  {
    var t, s' := s.threads[i], Apply(s, Choice(i, Advance));
    assert ThreadInv(t, s.objects);
    var q := t.code[0].q;
    assert QueueInv(s, q) && QueueLock(q) in t.held;
    SectionKeeps(s.objects[q], t.code, t.held, t.consumes, |s.objects|);
    var t' := s'.threads[i];
    assert Books(s'.objects[q], t'.code, q);
    forall j | 0 <= j < |s'.threads| && QueueLock(q) in s'.threads[j].held
      ensures j == i
    {
      OneHolder(s, i, j, QueueLock(q));
    }
  }

  /** It leaves every other queue alone, and its holder outside that queue's sections. */
  lemma SectionKeepsOthers(s: State, i: nat, q: nat)
    requires Inv(s) && i < |s.threads| && CanAdvance(s, i) && OnQueue(s.threads[i].code[0])
    requires q < |s.objects| && q != s.threads[i].code[0].q
    ensures QueueInv(Apply(s, Choice(i, Advance)), q)
  {
    var t, s' := s.threads[i], Apply(s, Choice(i, Advance));
    assert ThreadInv(t, s.objects);
    assert QueueInv(s, q);
    StaysOnQueue(t, s.objects);
    var l := QueueLock(q);
    assert l in s'.threads[i].held <==> l in t.held;
    assert Free(s', l) ==> Free(s, l) by {
      forall j | 0 <= j < |s.threads| && Free(s', l)
        ensures l !in s.threads[j].held
      {
        assert l !in s'.threads[j].held;
      }
    }
  }

  /** A lock is taken or given with every queue in order. */
  lemma LockKeepsQueue(s: State, i: nat, q: nat)
    requires Inv(s) && i < |s.threads| && CanAdvance(s, i) && !OnQueue(s.threads[i].code[0]) && q < |s.objects|
    ensures QueueInv(Apply(s, Choice(i, Advance)), q)
  {
    var t, s' := s.threads[i], Apply(s, Choice(i, Advance));
    assert ThreadInv(t, s.objects);
    assert QueueInv(s, q);
    var l := QueueLock(q);
    if l in t.held || t.code[0] == Acquire(l) {
      assert Steady(s.objects[q]);
    } else {
      assert l !in s'.threads[i].held;
      assert Free(s', l) ==> Free(s, l) by {
        forall j | 0 <= j < |s.threads| && Free(s', l)
          ensures l !in s.threads[j].held
        {
          assert l !in s'.threads[j].held;
        }
      }
    }
    forall j | 0 <= j < |s'.threads| && l in s'.threads[j].held
      ensures Books(s'.objects[q], s'.threads[j].code, q)
    {
      if j == i {
        assert Plain(s'.threads[i].code);
      }
    }
  }

  lemma AdvanceKeeps(s: State, i: nat)
    requires Inv(s) && i < |s.threads| && CanAdvance(s, i)
    ensures Inv(Apply(s, Choice(i, Advance)))
  {
    AdvanceKeepsThreads(s, i);
    forall q: nat | q < |s.objects|
      ensures QueueInv(Apply(s, Choice(i, Advance)), q)
    {
      if !OnQueue(s.threads[i].code[0]) {
        LockKeepsQueue(s, i, q);
      } else if q == s.threads[i].code[0].q {
        SectionKeepsQueue(s, i);
      } else {
        SectionKeepsOthers(s, i, q);
      }
    }
  }

  /** A thread outside any section changes its code: no queue is concerned. */
  lemma CodeKeepsQueues(s: State, i: nat, code: seq<Instr>)
    requires Inv(s) && i < |s.threads| && s.threads[i].held == {}
    ensures var s' := s.(threads := s.threads[i := s.threads[i].(code := code)]);
      forall q :: 0 <= q < |s.objects| ==> QueueInv(s', q)
  {
    var s' := s.(threads := s.threads[i := s.threads[i].(code := code)]);
    forall q | 0 <= q < |s.objects|
      ensures QueueInv(s', q)
    {
      assert QueueInv(s, q);
      assert forall j :: 0 <= j < |s.threads| ==> s'.threads[j].held == s.threads[j].held;
    }
  }

  /** A consumer woken without a signal, or one that has handled its event, leaves
      the queue's books alone, whoever holds the mutex. */
  lemma ConsumerKeepsQueue(s: State, i: nat, a: ActiveObject)
    requires Inv(s) && i < |s.threads| && s.threads[i].consumes.Some?
    requires s.threads[i].held == {}
    requires var b := s.objects[s.threads[i].consumes.value];
      && a == b.(waiting := a.waiting, hand := a.hand, handled := a.handled, finished := a.finished)
      && (a.waiting ==> b.waiting)
      && a.handled + InHand(a) == b.handled + InHand(b)
    ensures var q := s.threads[i].consumes.value;
      QueueInv(s.(objects := s.objects[q := a]), q)
  {
    var q := s.threads[i].consumes.value;
    var s', b := s.(objects := s.objects[q := a]), s.objects[q];
    assert QueueInv(s, q);
    forall j | 0 <= j < |s.threads| && QueueLock(q) in s.threads[j].held
      ensures Books(a, s.threads[j].code, q)
    {
      assert Books(b, s.threads[j].code, q) && ThreadInv(s.threads[j], s.objects) && j != i;
      assert s.threads[j].consumes != Some(q);
    }
    assert Free(s', QueueLock(q)) ==> Free(s, QueueLock(q)) by {
      forall j | 0 <= j < |s.threads| && Free(s', QueueLock(q))
        ensures QueueLock(q) !in s.threads[j].held
      {
        assert QueueLock(q) !in s'.threads[j].held;
      }
    }
  }

  lemma OtherQueuesKept(s: State, p: nat, a: ActiveObject, q: nat)
    requires Inv(s) && p < |s.objects| && q < |s.objects| && q != p
    ensures QueueInv(s.(objects := s.objects[p := a]), q)
  {
    var s' := s.(objects := s.objects[p := a]);
    assert QueueInv(s, q);
    assert Free(s', QueueLock(q)) ==> Free(s, QueueLock(q)) by {
      forall j | 0 <= j < |s.threads| && Free(s', QueueLock(q))
        ensures QueueLock(q) !in s.threads[j].held
      {
        assert QueueLock(q) !in s'.threads[j].held;
      }
    }
  }

  lemma ConsumerKeeps(s: State, i: nat, a: ActiveObject)
    requires Inv(s) && i < |s.threads| && s.threads[i].consumes.Some?
    requires s.threads[i].held == {}
    requires var b := s.objects[s.threads[i].consumes.value];
      && a == b.(waiting := a.waiting, hand := a.hand, handled := a.handled, finished := a.finished)
      && (a.waiting ==> b.waiting)
      && a.handled + InHand(a) == b.handled + InHand(b)
      && ObjectInv(a)
      && (ReadHead(s.threads[i].consumes.value) in s.threads[i].code ==> a.hand == None)
      && (a.finished ==> s.threads[i].code == [])
    ensures Inv(s.(objects := s.objects[s.threads[i].consumes.value := a]))
  {
    var t, p := s.threads[i], s.threads[i].consumes.value;
    var o := s.objects[p := a];
    assert ThreadInv(t, s.objects);
    OthersKeep(s, i, t, o);
    assert s.threads[i := t] == s.threads;
    ConsumerKeepsQueue(s, i, a);
    forall q: nat | q < |o| && q != p
      ensures QueueInv(s.(objects := o), q)
    {
      OtherQueuesKept(s, p, a, q);
    }
  }

  lemma StepKeepsInv(s: State, c: Choice)
    requires Inv(s) && Enabled(s, c)
    ensures Inv(Apply(s, c))
  {
    var i := c.thread;
    var t := s.threads[i];
    assert ThreadInv(t, s.objects);
    match c.move
    case Begin(op) =>
      OperationSafe(op, t.consumes, |s.objects|);
      if t.consumes.Some? {
        OperationReadsNothing(op, t.consumes.value);
      }
      OthersKeep(s, i, t.(code := Code(op)), s.objects);
      CodeKeepsQueues(s, i, Code(op));
    case Fetch =>
      var code := PopCode(t.consumes.value);
      PopSafe(t.consumes.value, |s.objects|);
      OthersKeep(s, i, t.(code := code), s.objects);
      CodeKeepsQueues(s, i, code);
    case Advance =>
      AdvanceKeeps(s, i);
    case Wake =>
      ConsumerKeeps(s, i, Apply(s, c).objects[t.consumes.value]);
    case Finish =>
      var a := s.objects[t.consumes.value];
      assert ObjectInv(a);
      assert a.handled + [a.hand.value] + [] == a.handled + [a.hand.value];
      ConsumerKeeps(s, i, Apply(s, c).objects[t.consumes.value]);
  }

  /** Every interleaving keeps the invariant. */
  lemma {:induction false} ReachableInv(s: State, schedule: seq<Choice>)
    requires Inv(s) && Admissible(s, schedule)
    ensures Inv(After(s, schedule))
    decreases schedule
  {
    if schedule != [] {
      StepKeepsInv(s, schedule[0]);
      ReachableInv(Apply(s, schedule[0]), schedule[1..]);
    }
  }

  lemma InitialInv(s: State)
    requires Initial(s)
    ensures Inv(s)
  {
    forall q | 0 <= q < |s.objects|
      ensures Steady(s.objects[q])
    {
      var a := s.objects[q];
      assert Window(a.buffer, a.head, 0) == [];
    }
  }

  // ------------------------------------- no deadlock, and no lost wakeup

  /** Whoever is kept from its next instruction by a lock waits, directly or
      through other holders, for a thread that can execute its own. */
  lemma {:induction false} SomeoneAdvances(s: State, i: nat) returns (j: nat)
    requires Inv(s) && i < |s.threads| && s.threads[i].code != [] && !Asleep(s, i)
    ensures j < |s.threads| && CanAdvance(s, j)
    ensures if CanAdvance(s, i) then j == i else s.threads[j].held != {}
    decreases if s.threads[i].code[0].Acquire? then 2 - Rank(s.threads[i].code[0].l) else 0
  {
    if CanAdvance(s, i) {
      return i;
    }
    var l := s.threads[i].code[0].l;
    var k :| 0 <= k < |s.threads| && l in s.threads[k].held;
    assert ThreadInv(s.threads[k], s.objects);
    j := SomeoneAdvances(s, k);
  }

  /** While the mutex of its queue is free, a sleeping consumer's queue is empty and
      every event ever stored there has been handled. */
  lemma SleepsOnEmpty(s: State, i: nat)
    requires Inv(s) && i < |s.threads| && Asleep(s, i) && Free(s, QueueLock(s.threads[i].consumes.value))
    ensures var a := s.objects[s.threads[i].consumes.value]; a.size == 0 && a.accepted == a.handled
  {
    var q := s.threads[i].consumes.value;
    assert ThreadInv(s.threads[i], s.objects) && QueueInv(s, q);
    assert ReadHead(q) == PopCode(q)[2];
    assert Window(s.objects[q].buffer, s.objects[q].head, 0) == [];
  }

  /** When no operation in progress can move, nothing is wrong: no lock is held
      at all, and every thread inside an operation is a consumer asleep on a
      queue that is empty. */
  lemma StuckMeansQuiet(s: State)
    requires Inv(s)
    requires forall i :: 0 <= i < |s.threads| ==> !CanAdvance(s, i)
    ensures forall l :: Free(s, l)
    ensures forall i :: 0 <= i < |s.threads| && s.threads[i].code != [] ==>
      Asleep(s, i) && s.objects[s.threads[i].consumes.value].size == 0
  {
    forall i | 0 <= i < |s.threads|
      ensures s.threads[i].held == {} && (s.threads[i].code != [] ==> Asleep(s, i))
    {
      assert ThreadInv(s.threads[i], s.objects);
      if s.threads[i].code != [] && !Asleep(s, i) {
        var j := SomeoneAdvances(s, i);
        assert false;
      }
    }
    forall i | 0 <= i < |s.threads| && s.threads[i].code != []
      ensures s.objects[s.threads[i].consumes.value].size == 0
    {
      SleepsOnEmpty(s, i);
    }
  }

  /** The thread holds the mutex of queue `q` and has its signal still to come. */
  predicate Signalling(t: Thread, q: nat) {
    QueueLock(q) in t.held && Signal(q) in t.code
  }

  /** Stored but not yet counted, or counted but not yet signalled: the holder of
      the mutex is on its way to the signal. */
  lemma HolderSignals(s: State, i: nat, k: nat)
    requires Inv(s) && i < |s.threads| && Asleep(s, i) && k < |s.threads|
    requires var q := s.threads[i].consumes.value;
      QueueLock(q) in s.threads[k].held && (s.objects[q].size != 0 || s.objects[q].accepted != s.objects[q].handled)
    ensures Signalling(s.threads[k], s.threads[i].consumes.value)
  {
    var q, t := s.threads[i].consumes.value, s.threads[k];
    var a := s.objects[q];
    assert ThreadInv(s.threads[i], s.objects) && ThreadInv(t, s.objects) && QueueInv(s, q);
    assert k != i && t.consumes != Some(q);
    assert ReadHead(q) == PopCode(q)[2] && Window(a.buffer, a.head, 0) == [];
    assert a.accepted == a.handled + [] + [] ==> a.accepted == a.handled;
    SignalComes(t, a, q, |s.objects|);
  }

  lemma SignalComes(t: Thread, a: ActiveObject, q: nat, objects: nat)
    requires Safe(t.code, t.held, t.consumes, objects) && t.consumes != Some(q)
    requires QueueLock(q) in t.held && Books(a, t.code, q)
    requires !(Steady(a) && a.size == 0) && a.waiting
    ensures Signal(q) in t.code
  {
    assert t.code != [] && OnQueue(t.code[0]) && t.code[0].q == q;
    match t.code[0]
    case AdvanceTail(_) => assert t.code[1..][1..][0] == t.code[2];
    case GrowSize(_) => assert t.code[1..][0] == t.code[1];
    case _ =>
  }

  /** In every interleaving, whenever a consumer sleeps unsignalled although its
      queue holds something, or will as soon as a store is counted, some thread
      holds the mutex of that queue with its signal still to come; so whenever the
      mutex is free the sleeping consumer's queue is empty and all ever stored in
      it is handled. */
  lemma {:induction false} NoLostWakeup(s: State, schedule: seq<Choice>, i: nat)
    requires Initial(s) && Admissible(s, schedule)
    requires i < |After(s, schedule).threads| && Asleep(After(s, schedule), i)
    ensures var e := After(s, schedule);
      var q := e.threads[i].consumes.value;
      var a := e.objects[q];
      && (a.size != 0 || a.accepted != a.handled ==>
          exists k :: 0 <= k < |e.threads| && Signalling(e.threads[k], q))
      && (Free(e, QueueLock(q)) ==> a.size == 0 && a.accepted == a.handled)
  {
    InitialInv(s);
    ReachableInv(s, schedule);
    var e := After(s, schedule);
    var q := e.threads[i].consumes.value;
    if Free(e, QueueLock(q)) {
      SleepsOnEmpty(e, i);
    } else if e.objects[q].size != 0 || e.objects[q].accepted != e.objects[q].handled {
      var k :| 0 <= k < |e.threads| && QueueLock(q) in e.threads[k].held;
      HolderSignals(e, i, k);
    }
  }

  // -------------------------- operations in progress can always complete

  /** A signal is worth the pop it may wake, and a test its dearer branch. */
  function Cost(x: Instr): nat {
    match x
    case TestFull(_, _) => 12
    case Signal(_) => 8
    case TestEmpty(_) => 2
    case _ => 1
  }

  function Work(code: seq<Instr>): nat {
    if code == [] then 0 else Cost(code[0]) + Work(code[1..])
  }

  function Load(s: State, i: nat): nat
    requires i < |s.threads|
  {
    if Asleep(s, i) then 0 else Work(s.threads[i].code)
  }

  function Loads(s: State): (v: seq<nat>)
    ensures |v| == |s.threads|
  {
    seq(|s.threads|, i requires 0 <= i < |s.threads| => Load(s, i))
  }

  function Sum(v: seq<nat>): nat {
    if v == [] then 0 else v[0] + Sum(v[1..])
  }

  lemma {:induction false} SumUpdate(v: seq<nat>, i: nat, x: nat)
    requires i < |v|
    ensures Sum(v[i := x]) + v[i] == Sum(v) + x
  {
    if i == 0 {
      assert v[0 := x][1..] == v[1..];
    } else {
      assert v[i := x][1..] == v[1..][i - 1 := x];
      SumUpdate(v[1..], i - 1, x);
    }
  }

  lemma {:induction false} WorkSplit(a: seq<Instr>, b: seq<Instr>)
    ensures Work(a + b) == Work(a) + Work(b)
  {
    if a == [] {
      assert a + b == b;
    } else {
      assert (a + b)[1..] == a[1..] + b;
      WorkSplit(a[1..], b);
    }
  }

  lemma WorkOfOne(x: Instr)
    ensures Work([x]) == Cost(x)
  {
    assert [x][1..] == [];
  }

  lemma WorkOfPop(q: nat)
    ensures Work(ExtractCode(q)) == 4 && Work(PopCode(q)) == 7
  {
    var e := ExtractCode(q);
    assert e[1..][1..] == e[2..] && e[2..][1..] == e[3..] && e[3..] == [Release(QueueLock(q))];
    WorkOfOne(Release(QueueLock(q)));
    assert Work(e[2..]) == 2 && Work(e[1..]) == 3;
    assert PopCode(q)[1..] == [TestEmpty(q)] + e && PopCode(q)[1..][1..] == e;
  }

  lemma WorkOfInsert(q: nat, e: Event)
    ensures Work(InsertCode(q, e)) == 11
  {
    var c := InsertCode(q, e);
    assert c[1..][1..] == c[2..] && c[2..][1..] == c[3..] && c[3..] == [Signal(q)];
    WorkOfOne(Signal(q));
    assert Work(c[2..]) == 9 && Work(c[1..]) == 10;
  }

  /** The executing thread's own load goes down, by eight when it signals. */
  lemma OwnLoad(s: State, i: nat)
    requires Inv(s) && i < |s.threads| && CanAdvance(s, i)
    ensures var loss := if s.threads[i].code[0].Signal? then 8 else 1;
      Load(Apply(s, Choice(i, Advance)), i) + loss <= Load(s, i)
  {
    var t := s.threads[i];
    assert ThreadInv(t, s.objects);
    match t.code[0]
    case TestFull(q, e) =>
      WorkSplit(InsertCode(q, e), t.code[1..]);
      WorkOfInsert(q, e);
    case TestEmpty(q) =>
      WorkSplit([Sleep(q)], t.code[1..]);
      WorkOfOne(Sleep(q));
    case _ =>
  }

  /** Another thread's load changes only when the signal wakes that very thread. */
  lemma OtherLoad(s: State, i: nat, k: nat)
    requires Inv(s) && i < |s.threads| && CanAdvance(s, i) && k < |s.threads| && k != i
    ensures Load(Apply(s, Choice(i, Advance)), k) != Load(s, k) ==>
      && s.threads[i].code[0].Signal? && s.threads[k].consumes == Some(s.threads[i].code[0].q)
      && Load(Apply(s, Choice(i, Advance)), k) == 7
  {
    assert ThreadInv(s.threads[i], s.objects);
    var c := s.threads[k].consumes;
    if c.Some? {
      assert ThreadInv(s.threads[k], s.objects);
      assert s.threads[i].consumes != c;
      WorkOfPop(c.value);
    }
  }

  /** Executing an instruction uses up work, even when it wakes a consumer. */
  lemma AdvanceShrinks(s: State, i: nat)
    requires Inv(s) && i < |s.threads| && CanAdvance(s, i)
    ensures Sum(Loads(Apply(s, Choice(i, Advance)))) < Sum(Loads(s))
  {
    var s' := Apply(s, Choice(i, Advance));
    var v, v' := Loads(s), Loads(s');
    var w := v[i := v'[i]];
    OwnLoad(s, i);
    SumUpdate(v, i, v'[i]);
    forall j | 0 <= j < |v| && j != i
      ensures v'[j] == v[j]
        || (s.threads[i].code[0].Signal? && s.threads[j].consumes == Some(s.threads[i].code[0].q) && v'[j] == 7)
    {
      OtherLoad(s, i, j);
    }
    if k :| 0 <= k < |v| && k != i && v'[k] != v[k] {
      SumUpdate(w, k, 7);
      forall j | 0 <= j < |v|
        ensures v'[j] == w[k := 7][j]
      {
        assert j != k ==> s.threads[j].consumes != s.threads[k].consumes;
      }
      assert v' == w[k := 7];
    } else {
      assert v' == w;
    }
  }

  /** From every state the invariant allows, the operations in progress can be
      run to completion without starting any new one: some schedule of plain
      advances ends with all locks free and nobody inside an operation but
      consumers asleep on empty queues. */
  lemma {:induction false} OperationsComplete(s: State) returns (schedule: seq<Choice>)
    requires Inv(s)
    ensures Admissible(s, schedule)
    ensures forall k :: 0 <= k < |schedule| ==> schedule[k].move == Advance
    ensures |schedule| <= Sum(Loads(s))
    ensures var e := After(s, schedule);
      && Inv(e)
      && (forall l :: Free(e, l))
      && (forall i :: 0 <= i < |e.threads| && e.threads[i].code != [] ==>
          Asleep(e, i) && e.objects[e.threads[i].consumes.value].size == 0)
    decreases Sum(Loads(s))
  {
    if i :| 0 <= i < |s.threads| && CanAdvance(s, i) {
      var c := Choice(i, Advance);
      AdvanceShrinks(s, i);
      StepKeepsInv(s, c);
      var rest := OperationsComplete(Apply(s, c));
      schedule := [c] + rest;
      assert schedule[1..] == rest;
    } else {
      schedule := [];
      StuckMeansQuiet(s);
    }
  }

  // ------------------------------------------------- the sections as a whole

  /** The contents of a queue whose mutex is free. */
  ghost function Contents(a: ActiveObject): seq<Event>
    requires Steady(a)
  {
    Window(a.buffer, a.head, a.size)
  }

  /** Seen from outside, the four instructions of an insertion are the one update
      of `EventQueue.Queue.Push`, and the consumer is signalled. */
  lemma PushSection(a: ActiveObject, q: nat, e: Event)
    requires Steady(a) && a.size < |a.buffer|
    ensures var b := Effect(Signal(q), Effect(GrowSize(q), Effect(AdvanceTail(q), Effect(Store(q, e), a))));
      && Steady(b) && Contents(b) == EventQueue.Offered(Contents(a), |a.buffer|, e)
      && b.accepted == a.accepted + [e] && !b.waiting
  {
    Inserted(a, q, e);
    StoreBooks(a, q, e);
    SlotAfterPush(a.head, a.size, |a.buffer|);
  }

  lemma Inserted(a: ActiveObject, q: nat, e: Event)
    ensures Effect(Signal(q), Effect(GrowSize(q), Effect(AdvanceTail(q), Effect(Store(q, e), a))))
         == Effect(Store(q, e), a).(tail := Slot(a.tail, 1, |a.buffer|), size := a.size + 1, waiting := false)
  {
    NextSlot(a.tail, |a.buffer|);
  }

  /** And those of an extraction take the oldest element, as `EventQueue.Queue.TryPop`
      does, whatever the consumer's hand held before. */
  lemma PopSection(a: ActiveObject, q: nat)
    requires Steady(a) && 0 < a.size
    ensures var b := Effect(ShrinkSize(q), Effect(AdvanceHead(q), Effect(ReadHead(q), a)));
      && b.hand == Some(Contents(a)[0])
      && 0 <= b.size <= |b.buffer| && b.tail == Slot(b.head, b.size, |b.buffer|)
      && Window(b.buffer, b.head, b.size) == Contents(a)[1..]
  {
    Extracted(a, q);
    WindowPop(a.buffer, a.head, a.size);
    SlotAfterPop(a.head, a.size, |a.buffer|);
  }

  lemma Extracted(a: ActiveObject, q: nat)
    ensures Effect(ShrinkSize(q), Effect(AdvanceHead(q), Effect(ReadHead(q), a)))
         == a.(hand := Some(a.buffer[a.head]), head := Slot(a.head, 1, |a.buffer|), size := a.size - 1)
  {
    NextSlot(a.head, |a.buffer|);
  }

  /** Without the mutex the same instructions lose an event: two pushes interleaved
      both store into the one free slot. */
  lemma UnlockedPushesCollide()
    ensures var a: ActiveObject := Fields([End, End], 0, 0, 0, false, None, [], [], false);
      var one, two := Message(1), Message(2);
      var stored := Effect(Store(0, two), Effect(Store(0, one), a));
      var b := Effect(GrowSize(0), Effect(GrowSize(0), Effect(AdvanceTail(0), Effect(AdvanceTail(0), stored))));
      Steady(a) && b.accepted == [one, two] && b.size == 2 && one !in b.buffer
  {
    var buffer := [End, End];
    assert buffer[0 := Message(1)][0 := Message(2)] == [Message(2), End];
  }

  // -------------------------------------------------------------- delivery

  /** The events in front of the first END. */
  function BeforeEnd(events: seq<Event>): seq<Event> {
    if events == [] || events[0] == End then [] else [events[0]] + BeforeEnd(events[1..])
  }

  lemma {:induction false} BeforeEndSplit(before: seq<Event>, rest: seq<Event>)
    requires End !in before
    ensures BeforeEnd(before + rest) == before + BeforeEnd(rest)
  {
    if before == [] {
      assert before + rest == rest;
    } else {
      BeforeEndSplit(before[1..], rest);
      var all := before + rest;
      assert all[1..] == before[1..] + rest && all[0] == before[0] && before[0] in before;
      assert BeforeEnd(all) == [before[0]] + BeforeEnd(all[1..]);
    }
  }

  /** Wherever the holder of the mutex is, what is handled and in hand comes first. */
  lemma HandledFirst(a: ActiveObject, code: seq<Instr>, q: nat)
    requires Books(a, code, q)
    ensures a.handled + InHand(a) <= a.accepted
  {
    if code != [] && code[0] == AdvanceHead(q) {
      var w := Window(a.buffer, a.head, a.size);
      WindowPop(a.buffer, a.head, a.size);
      assert a.handled + w == a.handled + [w[0]] + w[1..];
    }
  }

  lemma BooksInOrder(a: ActiveObject)
    requires ObjectInv(a) && a.handled + InHand(a) <= a.accepted
    ensures a.handled <= BeforeEnd(a.accepted)
    ensures a.finished ==> a.handled == BeforeEnd(a.accepted)
  {
    var rest := a.accepted[|a.handled|..];
    assert a.accepted == a.handled + rest;
    BeforeEndSplit(a.handled, rest);
    if a.finished {
      assert rest[0] == a.accepted[|a.handled|] == (a.handled + InHand(a))[|a.handled|];
    }
  }

  lemma QueueInOrder(s: State, q: nat)
    requires Inv(s) && q < |s.objects|
    ensures var a := s.objects[q];
      && a.handled + InHand(a) <= a.accepted
      && a.handled <= BeforeEnd(a.accepted)
      && (a.finished ==> a.handled == BeforeEnd(a.accepted))
  {
    assert QueueInv(s, q) && ObjectInv(s.objects[q]);
    if Free(s, QueueLock(q)) {
      HandledFirst(s.objects[q], [], q);
    } else {
      var k :| 0 <= k < |s.threads| && QueueLock(q) in s.threads[k].held;
      HandledFirst(s.objects[q], s.threads[k].code, q);
    }
    BooksInOrder(s.objects[q]);
  }

  /** In every interleaving: whenever the mutex of a queue is free, what its
      consumer has handled, then the event in its hand, then the occupied window of
      the ring are the accepted pushes in push order, and head, tail and size agree;
      at all times what has been handled and the event in hand come first among the
      accepted pushes, what is handled precedes the first END, and once the loop has
      exited it is exactly what was pushed before the first END. */
  lemma {:induction false} Delivery(s: State, schedule: seq<Choice>, q: nat)
    requires Initial(s) && Admissible(s, schedule) && q < |After(s, schedule).objects|
    ensures var e := After(s, schedule);
      var a := e.objects[q];
      && (Free(e, QueueLock(q)) ==>
          && 0 <= a.size <= |a.buffer|
          && a.tail == (a.head + a.size) % |a.buffer|
          && a.accepted == a.handled + InHand(a) + Window(a.buffer, a.head, a.size))
      && a.handled + InHand(a) <= a.accepted
      && a.handled <= BeforeEnd(a.accepted)
      && (a.finished ==> a.handled == BeforeEnd(a.accepted))
  {
    InitialInv(s);
    ReachableInv(s, schedule);
    var e := After(s, schedule);
    assert QueueInv(e, q);
    if Free(e, QueueLock(q)) {
      SlotIsModulo(e.objects[q].head, e.objects[q].size, |e.objects[q].buffer|);
    }
    QueueInOrder(e, q);
  }

  /** The history of a queue only grows, by the events stored there and no others,
      each stored under the mutex into a slot that held none still waiting; after
      the loop has exited nothing more is handled. */
  lemma HistoryGrows(s: State, c: Choice, q: nat)
    requires Inv(s) && Enabled(s, c) && q < |s.objects|
    ensures var a, a' := s.objects[q], Apply(s, c).objects[q];
      var t := s.threads[c.thread];
      var stores := c.move.Advance? && t.code[0].Store? && t.code[0].q == q;
      && a.handled <= a'.handled
      && (a.finished ==> a'.finished && a'.handled == a.handled && a'.hand == a.hand)
      && a'.accepted == (if stores then a.accepted + [t.code[0].event] else a.accepted)
      && (stores ==> QueueLock(q) in t.held && 0 <= a.size < |a.buffer| && a.tail == Slot(a.head, a.size, |a.buffer|))
  {
    var t := s.threads[c.thread];
    assert ThreadInv(t, s.objects);
    assert ObjectInv(s.objects[q]) && QueueInv(s, q);
  }
}
