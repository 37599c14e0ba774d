/** The time-of-flight distance sensor (src/ddl/distance/distance_fsm.c). */
module Distance {
  import opened Options
  import opened Bytes
  import opened Fsm
  import opened ReadCycle

  const HEADER_SYNC: Byte := 0x57
  const RESPONSE_MARK: Byte := 0x00
  const FRAME_ID: Byte := 0x00
  const FRAME_SIZE := 16

  /** The response as received: header, mark, reserved, id, system time (4),
      distance (3), status, signal strength (2), precision, checksum. */
  type Frame = f: seq<Byte> | |f| == FRAME_SIZE witness seq(FRAME_SIZE, _ => 0)

  const READ_COMMAND: seq<Byte> := [HEADER_SYNC, 0x10, 0xFF, 0xFF, FRAME_ID, 0xFF, 0xFF, 0x63]

  /** The read command carries the right checksum. */
  lemma ReadCommandChecksum()
    ensures READ_COMMAND[7] == Total(READ_COMMAND[..7]) % 256
  {
    var bytes: seq<Byte> := [];
    for k := 0 to 7
      invariant bytes == READ_COMMAND[..k]
      invariant Total(bytes) == [0, 0x57, 0x67, 0x166, 0x265, 0x265, 0x364, 0x463][k]
    {
      TotalSnoc(bytes, READ_COMMAND[k]);
      bytes := bytes + [READ_COMMAND[k]];
    }
  }

  function SystemTime(f: Frame): nat {
    Le32(f, 4)
  }

  /** What the source promises of an accepted frame: a response to this module's
      request, not the one already seen, with a correct checksum. */
  predicate Acceptable(f: Frame, oldTime: nat) {
    && f[0] == HEADER_SYNC && f[1] == RESPONSE_MARK && f[3] == FRAME_ID
    && SystemTime(f) != oldTime
    && f[15] == Total(f[..15]) % 256
  }

  const SENSOR: Sensor<Frame> := Sensor(Acceptable, SystemTime)

  /** The published measurement: millimetres in 24 bits become metres. */
  datatype DistanceFrame = DistanceFrame(valid: bool, distance: real, status: Byte, precision: Byte, strength: nat)

  function Millimetres(f: Frame): nat {
    f[8] as int + 256 * f[9] as int + 65536 * f[10] as int
  }

  function Decoded(f: Frame): DistanceFrame {
    DistanceFrame(true, Millimetres(f) as real / 1000.0, f[11], f[14], Le16(f, 12))
  }

  method Checksum(f: Frame) returns (sum: Byte)
    ensures sum == Total(f[..15]) % 256
  {
    sum := 0;
    for i := 0 to FRAME_SIZE - 1
      invariant sum == Total(f[..i]) % 256
    {
      assert f[..i + 1][..i] == f[..i];
      ModAdd(Total(f[..i]), f[i]);
      sum := (sum + f[i]) % 256;
    }
  }

  method IsFrameValid(f: Frame, oldTime: nat) returns (ok: bool)
    ensures ok <==> Acceptable(f, oldTime)
  {
    if f[0] != HEADER_SYNC {
      return false;
    }
    if f[1] != RESPONSE_MARK {
      return false;
    }
    if f[3] != FRAME_ID {
      return false;
    }
    if Le32(f, 4) == oldTime {
      return false;
    }
    var sum := Checksum(f);
    ok := f[15] == sum;
  }

  datatype State = InitState | ErrorState | IdleState | ReadState | UpdateState

  datatype DistanceEvent = ReadEvent | TimeoutEvent | FrameReceivedEvent | UnknownEvent

  function AsInput(e: DistanceEvent, buffer: Frame): Input<Frame> {
    match e
    case ReadEvent => ReadRequest
    case TimeoutEvent => Timeout
    case FrameReceivedEvent => FrameReceived(buffer)
    case UnknownEvent => Other
  }

  // ---------------------------------------------------------- the handlers

  /** What the handlers work on: the object, the receive buffer and the timer;
      `effects` and `commands` record what it did. */
  datatype Data = Data(
    frame: DistanceFrame, retry: nat, systemTime: nat, timerArmed: bool, respFrame: Frame, timerCreated: bool,
    lastAccepted: Option<Frame>, effects: seq<Effect<Frame>>, commands: seq<Command>)

  function Invalid(d: Data): Data {
    d.(frame := d.frame.(valid := false))
  }

  /** `retry_handler`. */
  function Retried(d: Data): (Data, Option<State>) {
    var again := d.(retry := d.retry + 1);
    if again.retry < RETRY_MAX then (again, Some(ReadState))
    else (Invalid(again).(effects := d.effects + [GaveUp]), Some(IdleState))
  }

  function Updated(d: Data): Data {
    var f := d.respFrame;
    d.(frame := Decoded(f), systemTime := SystemTime(f), lastAccepted := Some(f), effects := d.effects + [Accepted(f)])
  }

  /** The five state handlers. */
  function Handle(s: State, d: Data, e: Fsm.Event<DistanceEvent>): (Data, Option<State>) {
    match (s, e)
    case (InitState, Init) => (Invalid(d), Some(if d.timerCreated then IdleState else ErrorState))
    case (ErrorState, Entry) => (Invalid(d), None)
    case (IdleState, Entry) => (d.(retry := 0), None)
    case (IdleState, User(ReadEvent)) => (d.(effects := d.effects + [Started]), Some(ReadState))
    case (ReadState, Entry) =>
      (d.(timerArmed := true, commands := d.commands + ENTER_READ, effects := d.effects + [ReadEntered]), None)
    case (ReadState, User(FrameReceivedEvent)) => (d, Some(UpdateState))
    case (ReadState, User(TimeoutEvent)) => Retried(d.(commands := d.commands + [AbortTransfers]))
    case (ReadState, Exit) => (d.(timerArmed := false, commands := d.commands + [DisarmTimer]), None)
    case (UpdateState, Entry) =>
      if Acceptable(d.respFrame, d.systemTime) then (Updated(d), Some(IdleState)) else Retried(d)
    case _ => (d, None)
  }

  const HANDLER: Handler<State, Data, DistanceEvent> := (s, d, e) => Handle(s, d, e)

  /** Only entering update transitions again, to a state whose entry does not. */
  const RANK: State -> nat := s => if s == UpdateState then 1 else 0

  lemma HandlersSettle()
    ensures Settles(HANDLER, RANK)
  {
  }

  type Machine = Configuration<State, Data, DistanceEvent>

  // ------------------------------------- the handlers implement the protocol

  /** What the object looks like to the read/retry protocol. */
  function Protocol(c: Machine): Cycle<Frame> {
    var d := c.data;
    var phase := if c.current == ReadState then Read else Idle;
    Cycle(phase, d.retry, d.timerArmed, d.frame.valid, d.lastAccepted, d.systemTime)
  }

  /** Between two events: neither the initial state nor update is a resting one,
      the timer is armed only in read, and what is published was accepted. */
  ghost predicate Settled(c: Machine) {
    && c.current != InitState && c.current != UpdateState
    && (c.data.timerArmed ==> c.current == ReadState)
    && (c.data.lastAccepted.Some? ==> c.data.frame.(valid := true) == Decoded(c.data.lastAccepted.value))
    && (c.current == ErrorState ==> !c.data.frame.valid)
  }

  /** The object moved, acted and issued commands as one protocol step. */
  ghost predicate Obeys(c: Machine, after: Machine, input: Input<Frame>) {
    var (p, more) := Step(SENSOR, Protocol(c), input);
    && Protocol(after) == p
    && after.data.effects == c.data.effects + more
    && after.data.commands == c.data.commands + Commands(Protocol(c), input, more)
  }

  /** What entering idle or read from a state that has been left does. */
  lemma Enters(c: Machine, next: State)
    requires next == IdleState || next == ReadState
    ensures Settles(HANDLER, RANK)
    ensures var left := Handle(c.current, c.data, Exit).0;
      var e := Transition(HANDLER, RANK, c, next);
      e.current == next && e.data == Handle(next, left, Entry).0
  {
    HandlersSettle();
  }

  /** Entering update from read decides at once. */
  lemma EntersUpdate(c: Machine)
    requires c.current == ReadState
    ensures Settles(HANDLER, RANK)
    ensures var left := c.data.(timerArmed := false, commands := c.data.commands + [DisarmTimer]);
      var (d, next) := Handle(UpdateState, left, Entry);
      var e := Transition(HANDLER, RANK, c, UpdateState);
      && next.Some? && e.current == next.value && (next.value == IdleState || next.value == ReadState)
      && e.data == Handle(next.value, d, Entry).0
  {
    HandlersSettle();
    var left := c.data.(timerArmed := false, commands := c.data.commands + [DisarmTimer]);
    var (d, next) := Handle(UpdateState, left, Entry);
    var entered := Configuration(UpdateState, d, c.calls + [Call(ReadState, Exit), Call(UpdateState, Entry)]);
    Enters(entered, next.value);
  }

  /** The handler of an event, its transition still to come. */
  function Handled(c: Machine, e: Fsm.Event<DistanceEvent>): (Machine, Option<State>) {
    var (d, next) := Handle(c.current, c.data, e);
    (Configuration(c.current, d, c.calls + [Call(c.current, e)]), next)
  }

  lemma StartObeys(c: Machine)
    requires Settled(c) && c.current == IdleState
    ensures Settles(HANDLER, RANK)
    ensures var e := Send(HANDLER, RANK, c, User(ReadEvent));
      Settled(e) && e.current != ErrorState && Obeys(c, e, ReadRequest)
  {
    Enters(Handled(c, User(ReadEvent)).0, ReadState);
    assert c.data.effects + [Started] + [ReadEntered] == c.data.effects + [Started, ReadEntered];
  }

  lemma TimeoutObeys(c: Machine)
    requires Settled(c) && c.current == ReadState
    ensures Settles(HANDLER, RANK)
    ensures var e := Send(HANDLER, RANK, c, User(TimeoutEvent));
      Settled(e) && e.current != ErrorState && Obeys(c, e, Timeout)
  {
    var (called, next) := Handled(c, User(TimeoutEvent));
    Enters(called, next.value);
    var before := c.data.commands;
    assert before + [AbortTransfers] + [DisarmTimer] + ENTER_READ
        == before + ([AbortTransfers] + [DisarmTimer] + ENTER_READ);
    assert before + [AbortTransfers] + [DisarmTimer] == before + ([AbortTransfers] + [DisarmTimer] + []);
  }

  lemma AcceptanceObeys(c: Machine)
    requires Settled(c) && c.current == ReadState && Acceptable(c.data.respFrame, c.data.systemTime)
    ensures Settles(HANDLER, RANK)
    ensures var e := Send(HANDLER, RANK, c, User(FrameReceivedEvent));
      Settled(e) && e.current != ErrorState && Obeys(c, e, FrameReceived(c.data.respFrame))
  {
    EntersUpdate(Handled(c, User(FrameReceivedEvent)).0);
    var before := c.data.commands;
    assert before + [DisarmTimer] == before + ([] + [DisarmTimer] + []);
  }

  lemma RejectionObeys(c: Machine)
    requires Settled(c) && c.current == ReadState && !Acceptable(c.data.respFrame, c.data.systemTime)
    ensures Settles(HANDLER, RANK)
    ensures var e := Send(HANDLER, RANK, c, User(FrameReceivedEvent));
      Settled(e) && e.current != ErrorState && Obeys(c, e, FrameReceived(c.data.respFrame))
  {
    EntersUpdate(Handled(c, User(FrameReceivedEvent)).0);
    var before := c.data.commands;
    assert before + [DisarmTimer] + ENTER_READ == before + ([] + [DisarmTimer] + ENTER_READ);
    assert before + [DisarmTimer] == before + ([] + [DisarmTimer] + []);
  }

  /** Any other event is ignored, as the protocol ignores it. */
  lemma OthersObey(c: Machine, event: DistanceEvent)
    requires Settled(c) && c.current != ErrorState
    requires c.current == IdleState ==> event != ReadEvent
    requires c.current == ReadState ==> event != TimeoutEvent && event != FrameReceivedEvent
    ensures Settles(HANDLER, RANK)
    ensures var e := Send(HANDLER, RANK, c, User(event));
      Settled(e) && e.current != ErrorState && Obeys(c, e, AsInput(event, c.data.respFrame))
  {
    HandlersSettle();
    assert c.data.effects + [] == c.data.effects && c.data.commands + ([] + [] + []) == c.data.commands;
  }

  /** Every event, stale or not, is one step of the protocol; error is never left. */
  lemma SendObeys(c: Machine, event: DistanceEvent)
    requires Settled(c)
    ensures Settles(HANDLER, RANK)
    ensures var e := Send(HANDLER, RANK, c, User(event));
      && Settled(e)
      && (c.current == ErrorState <==> e.current == ErrorState)
      && (c.current == ErrorState ==> e.data == c.data)
      && (c.current != ErrorState ==> Obeys(c, e, AsInput(event, c.data.respFrame)))
  {
    HandlersSettle();
    if c.current == IdleState && event == ReadEvent {
      StartObeys(c);
    } else if c.current == ReadState && event == TimeoutEvent {
      TimeoutObeys(c);
    } else if c.current == ReadState && event == FrameReceivedEvent {
      if Acceptable(c.data.respFrame, c.data.systemTime) {
        AcceptanceObeys(c);
      } else {
        RejectionObeys(c);
      }
    } else if c.current != ErrorState {
      OthersObey(c, event);
    }
  }

  /** At rest after some inputs: the object and what it did are where the protocol
      takes them. */
  ghost predicate Rests(c: Machine, inputs: seq<Input<Frame>>) {
    Settled(c) && (c.current != ErrorState ==> Run(SENSOR, inputs) == (Protocol(c), c.data.effects))
  }

  lemma SendRests(c: Machine, inputs: seq<Input<Frame>>, event: DistanceEvent)
    requires Rests(c, inputs)
    ensures Settles(HANDLER, RANK)
    ensures Rests(Send(HANDLER, RANK, c, User(event)), inputs + [AsInput(event, c.data.respFrame)])
  {
    SendObeys(c, event);
    RunSnoc(SENSOR, inputs, AsInput(event, c.data.respFrame));
  }

  /** The one-shot timer has run out and posted, if it was armed. */
  function RanDown(c: Machine): Machine {
    if !c.data.timerArmed then c
    else c.(data := c.data.(timerArmed := false, effects := c.data.effects + [TimeoutPosted]))
  }

  lemma RunningDownRests(c: Machine, inputs: seq<Input<Frame>>)
    requires Rests(c, inputs)
    ensures Rests(RanDown(c), inputs + [Expiry])
  {
    RunSnoc(SENSOR, inputs, Expiry);
    assert c.data.effects + [] == c.data.effects;
  }

  /** The receive buffer may be overwritten at any time. */
  lemma BufferRests(c: Machine, inputs: seq<Input<Frame>>, buffer: Frame)
    requires Rests(c, inputs)
    ensures Rests(c.(data := c.data.(respFrame := buffer)), inputs)
  {
  }

  // ------------------------------------------------------------- the object

  class DistanceObject {
    var currentState: State
    var frame: DistanceFrame
    var retry: nat
    var systemTime: nat
    var timerArmed: bool
    var respFrame: Frame
    const timerCreated: bool
    ghost var lastAccepted: Option<Frame>
    ghost var effects: seq<Effect<Frame>>
    ghost var commands: seq<Command>
    ghost var inputs: seq<Input<Frame>>
    ghost var calls: seq<Call<State, DistanceEvent>>

    ghost function Now(): Machine
      reads this
    {
      Configuration(
        currentState,
        Data(frame, retry, systemTime, timerArmed, respFrame, timerCreated, lastAccepted, effects, commands),
        calls)
    }

    ghost predicate Resting()
      reads this
    {
      Rests(Now(), inputs)
    }

    /** The thread starts the FSM: INIT reaches the initial state. */
    constructor (timerCreated: bool)
      ensures Resting() && inputs == [] && this.timerCreated == timerCreated
      ensures currentState == if timerCreated then IdleState else ErrorState
      ensures effects == [] && commands == []
    {
      currentState := InitState;
      retry, systemTime, timerArmed := 0, 0, false;
      frame := DistanceFrame(false, 0.0, 0, 0, 0);
      respFrame := seq(FRAME_SIZE, _ => 0);
      this.timerCreated := timerCreated;
      lastAccepted, effects, commands, inputs, calls := None, [], [], [], [];
      new;
      HandlersSettle();
      HandleEvent(Init);
    }

    /** An event from the queue, handled to completion, with whatever the receive
        buffer holds by then. */
    method SendEvent(event: DistanceEvent, buffer: Frame)
      requires Resting()
      modifies this
      ensures Settles(HANDLER, RANK)
      ensures Now() == Send(HANDLER, RANK, old(Now()).(data := old(Now()).data.(respFrame := buffer)), User(event))
      ensures Resting() && inputs == old(inputs) + [AsInput(event, buffer)]
    {
      BufferRests(Now(), inputs, buffer);
      respFrame := buffer;
      SendRests(Now(), inputs, event);
      HandleEvent(User(event));
      inputs := inputs + [AsInput(event, buffer)];
    }

    /** The one-shot timer runs out, and `timeout_handler` posts TIMEOUT. */
    method OnTimerExpired()
      requires Resting()
      modifies this`timerArmed, this`effects, this`inputs
      ensures Resting() && !timerArmed && inputs == old(inputs) + [Expiry]
    {
      ghost var after := RanDown(Now());
      RunningDownRests(Now(), inputs);
      if timerArmed {
        effects := effects + [TimeoutPosted];
      }
      timerArmed := false;
      assert Now() == after;
      inputs := inputs + [Expiry];
    }

    /** The handler of the current state runs. */
    method HandleEvent(e: Fsm.Event<DistanceEvent>)
      requires Settles(HANDLER, RANK)
      modifies this
      ensures inputs == old(inputs) && Now() == Send(HANDLER, RANK, old(Now()), e)
      decreases if e == Entry then RANK(currentState) else if e == Exit then 0 else 2, 0, 1
    {
      match currentState {
        case InitState => HandleInit(e);
        case ErrorState => HandleError(e);
        case IdleState => HandleIdle(e);
        case ReadState => HandleRead(e);
        case UpdateState => HandleUpdate(e);
      }
    }

    method HandleInit(e: Fsm.Event<DistanceEvent>)
      requires Settles(HANDLER, RANK) && currentState == InitState
      modifies this
      ensures inputs == old(inputs) && Now() == Send(HANDLER, RANK, old(Now()), e)
      decreases if e == Entry || e == Exit then 0 else 2, 0, 0
    {
      ghost var called := Handled(Now(), e).0;
      calls := calls + [Call(currentState, e)];
      if e == Init {
        frame := frame.(valid := false);
        assert Now() == called;
        TransitionTo(if timerCreated then IdleState else ErrorState);
      }
    }

    method HandleError(e: Fsm.Event<DistanceEvent>)
      requires Settles(HANDLER, RANK) && currentState == ErrorState
      modifies this
      ensures inputs == old(inputs) && Now() == Send(HANDLER, RANK, old(Now()), e)
      decreases 0, 0, 0
    {
      calls := calls + [Call(currentState, e)];
      if e == Entry {
        frame := frame.(valid := false);
      }
    }

    method HandleIdle(e: Fsm.Event<DistanceEvent>)
      requires Settles(HANDLER, RANK) && currentState == IdleState
      modifies this
      ensures inputs == old(inputs) && Now() == Send(HANDLER, RANK, old(Now()), e)
      decreases if e == Entry || e == Exit then 0 else 2, 0, 0
    {
      ghost var called := Handled(Now(), e).0;
      calls := calls + [Call(currentState, e)];
      if e == Entry {
        retry := 0;
      } else if e == User(ReadEvent) {
        effects := effects + [Started];
        assert Now() == called;
        TransitionTo(ReadState);
      }
    }

    method HandleRead(e: Fsm.Event<DistanceEvent>)
      requires Settles(HANDLER, RANK) && currentState == ReadState
      modifies this
      ensures inputs == old(inputs) && Now() == Send(HANDLER, RANK, old(Now()), e)
      decreases if e == Entry || e == Exit then 0 else 2, 0, 0
    {
      ghost var called := Handled(Now(), e).0;
      calls := calls + [Call(currentState, e)];
      if e == Entry {
        timerArmed := true;
        commands, effects := commands + ENTER_READ, effects + [ReadEntered];
      } else if e == User(FrameReceivedEvent) {
        assert Now() == called;
        TransitionTo(UpdateState);
      } else if e == User(TimeoutEvent) {
        commands := commands + [AbortTransfers];
        RetryHandler();
      } else if e == Exit {
        timerArmed := false;
        commands := commands + [DisarmTimer];
      }
    }

    method HandleUpdate(e: Fsm.Event<DistanceEvent>)
      requires Settles(HANDLER, RANK) && currentState == UpdateState
      modifies this
      ensures inputs == old(inputs) && Now() == Send(HANDLER, RANK, old(Now()), e)
      decreases if e == Entry then 1 else if e == Exit then 0 else 2, 0, 0
    {
      ghost var called := Handled(Now(), e).0;
      calls := calls + [Call(currentState, e)];
      if e == Entry {
        var ok := IsFrameValid(respFrame, systemTime);
        if ok {
          UpdateDistanceFrame();
          assert Now() == called;
          TransitionTo(IdleState);
        } else {
          RetryHandler();
        }
      }
    }

    /** `util_fsm_transition`: entering update may transition again before this
        call returns. */
    method TransitionTo(next: State)
      requires Settles(HANDLER, RANK)
      modifies this
      ensures inputs == old(inputs) && Now() == Transition(HANDLER, RANK, old(Now()), next)
      decreases RANK(next), 1, 0
    {
      TransitionAsSends(HANDLER, RANK, Now(), next);
      HandleEvent(Exit);
      currentState := next;
      HandleEvent(Entry);
    }

    method UpdateDistanceFrame()
      modifies this`frame, this`systemTime, this`lastAccepted, this`effects
      ensures Now() == old(Now()).(data := Updated(old(Now()).data))
    {
      // the three distance bytes are shifted into the top of a word and back
      var f := respFrame;
      var word := f[8] as int * 256 + f[9] as int * 65536 + f[10] as int * 16777216;
      frame := DistanceFrame(true, (word / 256) as real / 1000.0, f[11], f[14], Le16(f, 12));
      systemTime := Le32(f, 4);
      lastAccepted, effects := Some(f), effects + [Accepted(f)];
    }

    method RetryHandler()
      requires Settles(HANDLER, RANK)
      modifies this
      ensures inputs == old(inputs)
      ensures var (d, next) := Retried(old(Now()).data);
        next.Some? && Now() == Transition(HANDLER, RANK, old(Now()).(data := d), next.value)
      decreases 0, 2, 0
    {
      ghost var (d, next) := Retried(Now().data);
      ghost var from := Now().(data := d);
      retry := retry + 1;
      if retry < RETRY_MAX {
        assert Now() == from;
        TransitionTo(ReadState);
      } else {
        frame := frame.(valid := false);
        effects := effects + [GaveUp];
        assert Now() == from;
        TransitionTo(IdleState);
      }
    }
  }

  /** Whatever events an object has been sent, whatever its receive buffer held
      when it handled them, and whenever its timer ran out, it rests with the
      guarantees of the protocol; what it publishes decodes the last frame it
      accepted, and every frame it ever accepted answered this module's request
      with a correct checksum. */
  lemma ObjectGuarantees(o: DistanceObject)
    requires o.Resting() && o.currentState != ErrorState
    ensures Guarantee(SENSOR, Protocol(o.Now()), o.effects)
    ensures o.frame.valid ==> o.lastAccepted.Some? && o.frame == Decoded(o.lastAccepted.value)
    ensures forall f :: f in AcceptedFrames(o.effects) ==>
      f[0] == HEADER_SYNC && f[1] == RESPONSE_MARK && f[3] == FRAME_ID && f[15] == Total(f[..15]) % 256
  {
    AnyRun(SENSOR, o.inputs);
    OnlyAcceptable(SENSOR, o.inputs);
  }
}
