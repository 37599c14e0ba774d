/** The GPS receiver (src/ddl/gps/gps_fsm.c): a configuration sequence, then the
    same read/retry protocol as the distance sensor. */
module Gps {
  import opened Options
  import opened Bytes
  import opened Ubx
  import opened Fsm
  import opened ReadCycle

  const FRAME_SIZE := 100

  /** A UBX-NAV-PVT response: header (6), payload (92), checksum (2). */
  type Frame = f: seq<Byte> | |f| == FRAME_SIZE witness seq(FRAME_SIZE, _ => 0)

  const READ_COMMAND: seq<Byte> := [SYNC_1, SYNC_2, CLS_NAV, ID_NAV_PVT, 0x00, 0x00, 0x08, 0x19]

  /** The poll request is a well-formed frame without payload. */
  lemma ReadCommandWellFormed()
    ensures WellFormed(READ_COMMAND)
  {
    var body: seq<Byte> := [];
    for k := 0 to 4
      invariant body == READ_COMMAND[2..2 + k]
      invariant Total(body) == [0, 1, 8, 8, 8][k] && Weighted(body) == [0, 1, 9, 17, 25][k]
    {
      var b := READ_COMMAND[2 + k];
      assert (body + [b])[..|body|] == body;
      body := body + [b];
    }
  }

  function TimeOfWeek(f: Frame): nat {
    Le32(f, 6)
  }

  /** What the source promises of an accepted frame: a well-formed navigation
      solution that is not the one already seen. */
  ghost predicate Acceptable(f: Frame, oldTime: nat) {
    WellFormed(f) && f[2] == CLS_NAV && f[3] == ID_NAV_PVT && TimeOfWeek(f) != oldTime
  }

  ghost const SENSOR: Sensor<Frame> := Sensor((f, t) => Acceptable(f, t), TimeOfWeek)

  datatype GpsFrame = GpsFrame(
    latitude: real, longitude: real, altitude: real, hAcc: real, valid: bool, fixType: Byte, numSatellites: Byte)

  /** The published fix: degrees from units of 1e-7, metres from millimetres. */
  function Decoded(f: Frame): GpsFrame {
    GpsFrame(
      Signed32(f, 34) as real / 10000000.0, Signed32(f, 30) as real / 10000000.0,
      Signed32(f, 42) as real / 1000.0, Le32(f, 46) as real / 1000.0, true, f[26], f[29])
  }

  method IsFrameValid(f: Frame, oldTime: nat) returns (ok: bool)
    ensures ok <==> Acceptable(f, oldTime)
  {
    if f[0] != SYNC_1 || f[1] != SYNC_2 {
      return false;
    }
    if f[2] != CLS_NAV || f[3] != ID_NAV_PVT {
      return false;
    }
    if Le16(f, 4) != PVT_PAYLOAD_LEN {
      return false;
    }
    if Le32(f, 6) == oldTime {
      return false;
    }
    var a, b := UbxChecksum(f[2..2 + (FRAME_SIZE - 4)]);
    ok := f[98] == a && f[99] == b;
  }

  datatype State = InitState | ErrorState | IdleState | ReadState | UpdateState

  datatype GpsEvent = ReadEvent | TimeoutEvent | FrameReceivedEvent | ConfiguredEvent | UnknownEvent

  function AsInput(e: GpsEvent, buffer: Frame): Input<Frame> {
    match e
    case ReadEvent => ReadRequest
    case TimeoutEvent => Timeout
    case FrameReceivedEvent => FrameReceived(buffer)
    case _ => Other
  }

  // ---------------------------------------------------------- the handlers

  /** What the handlers work on: the object, the receive buffer, the timer and the
      configuration sequence; `configSent`, `stepsCompleted`, `effects` and
      `commands` record what it did. */
  datatype Data = Data(
    frame: GpsFrame, retry: nat, systemTime: nat, timerArmed: bool, respFrame: Frame, timerCreated: bool,
    config: Config, lastAccepted: Option<Frame>, effects: seq<Effect<Frame>>, commands: seq<Command>)

  datatype Config = Config(step: nat, sent: seq<seq<Byte>>, completed: nat)

  function Invalid(d: Data): Data {
    d.(frame := d.frame.(valid := false))
  }

  /** `config_send_current_step`. */
  function SendStep(c: Config): Config
    requires c.step < |CONFIG_SEQUENCE|
  {
    ConfigFits();
    c.(sent := c.sent + [ConfigFrame(CONFIG_SEQUENCE[c.step])])
  }

  function StepCompleted(c: Config): Config {
    var next := c.(step := c.step + 1, completed := c.completed + 1);
    if next.step < |CONFIG_SEQUENCE| then SendStep(next) else next
  }

  /** `retry_handler`. */
  function Retried(d: Data): (Data, Option<State>) {
    var again := d.(retry := d.retry + 1);
    if again.retry < RETRY_MAX then (again, Some(ReadState))
    else (Invalid(again).(effects := d.effects + [GaveUp]), Some(IdleState))
  }

  function Updated(d: Data): Data {
    var f := d.respFrame;
    d.(frame := Decoded(f), systemTime := TimeOfWeek(f), lastAccepted := Some(f), effects := d.effects + [Accepted(f)])
  }

  /** The five state handlers. */
  ghost function Handle(s: State, d: Data, e: Fsm.Event<GpsEvent>): (Data, Option<State>) {
    match (s, e)
    case (InitState, Init) =>
      if d.timerCreated then (Invalid(d).(config := SendStep(d.config.(step := 0))), None)
      else (Invalid(d), Some(ErrorState))
    case (InitState, User(ConfiguredEvent)) =>
      var config := StepCompleted(d.config);
      (d.(config := config), if config.step < |CONFIG_SEQUENCE| then None else Some(IdleState))
    case (ErrorState, Entry) => (Invalid(d), None)
    case (IdleState, Entry) => (d.(retry := 0), None)
    case (IdleState, User(ReadEvent)) => (d.(effects := d.effects + [Started]), Some(ReadState))
    case (ReadState, Entry) =>
      (d.(timerArmed := true, commands := d.commands + ENTER_READ, effects := d.effects + [ReadEntered]), None)
    case (ReadState, User(FrameReceivedEvent)) => (d, Some(UpdateState))
    case (ReadState, User(TimeoutEvent)) => Retried(d.(commands := d.commands + [AbortTransfers]))
    case (ReadState, Exit) => (d.(timerArmed := false, commands := d.commands + [DisarmTimer]), None)
    case (UpdateState, Entry) =>
      if Acceptable(d.respFrame, d.systemTime) then (Updated(d), Some(IdleState)) else Retried(d)
    case _ => (d, None)
  }

  ghost const HANDLER: Handler<State, Data, GpsEvent> := (s, d, e) => Handle(s, d, e)

  /** Only entering update transitions again, to a state whose entry does not. */
  const RANK: State -> nat := s => if s == UpdateState then 1 else 0

  lemma HandlersSettle()
    ensures Settles(HANDLER, RANK)
  {
  }

  type Machine = Configuration<State, Data, GpsEvent>

  // ------------------------------------- the handlers implement the protocol

  /** What the object looks like to the read/retry protocol. */
  function Protocol(c: Machine): Cycle<Frame> {
    var d := c.data;
    var phase := if c.current == ReadState then Read else Idle;
    Cycle(phase, d.retry, d.timerArmed, d.frame.valid, d.lastAccepted, d.systemTime)
  }

  /** The frames written so far carry the first steps of the sequence, in order. */
  ghost predicate Configures(sent: seq<seq<Byte>>) {
    |sent| <= |CONFIG_SEQUENCE| && forall k :: 0 <= k < |sent| ==> Carries(sent[k], CONFIG_SEQUENCE[k])
  }

  /** While configuring, every step but the last one sent has completed. */
  ghost predicate Underway(c: Config) {
    Configures(c.sent) && c.completed == c.step == |c.sent| - 1
  }

  ghost predicate Configured(c: Config) {
    Configures(c.sent) && c.completed == |c.sent| == |CONFIG_SEQUENCE|
  }

  /** Between two events: while configuring nothing has been read; idle and read
      come after all eight steps; the timer is armed only in read, and what is
      published was accepted. */
  ghost predicate Settled(c: Machine) {
    && c.current != UpdateState
    && (c.data.timerArmed ==> c.current == ReadState)
    && (c.data.lastAccepted.Some? ==> c.data.frame.(valid := true) == Decoded(c.data.lastAccepted.value))
    && (c.current == ErrorState ==> !c.data.frame.valid)
    && (c.current == InitState ==> Underway(c.data.config) && Protocol(c) == Initial() && c.data.effects == [])
    && (c.current == IdleState || c.current == ReadState ==> Configured(c.data.config))
  }

  /** The object moved, acted and issued commands as one protocol step. */
  ghost predicate Obeys(c: Machine, after: Machine, input: Input<Frame>) {
    var (p, more) := Step(SENSOR, Protocol(c), input);
    && Protocol(after) == p
    && after.data.effects == c.data.effects + more
    && after.data.commands == c.data.commands + Commands(Protocol(c), input, more)
  }

  /** In the reading part: idle or read. */
  predicate Working(s: State) {
    s == IdleState || s == ReadState
  }

  /** What entering idle or read from a state that has been left does. */
  lemma Enters(c: Machine, next: State)
    requires Working(next)
    ensures Settles(HANDLER, RANK)
    ensures var left := Handle(c.current, c.data, Exit).0;
      var e := Transition(HANDLER, RANK, c, next);
      e.current == next && e.data == Handle(next, left, Entry).0
  {
    HandlersSettle();
  }

  /** Entering update from read decides at once. */
  lemma EntersUpdate(c: Machine)
    requires c.current == ReadState
    ensures Settles(HANDLER, RANK)
    ensures var left := c.data.(timerArmed := false, commands := c.data.commands + [DisarmTimer]);
      var (d, next) := Handle(UpdateState, left, Entry);
      var e := Transition(HANDLER, RANK, c, UpdateState);
      && next.Some? && e.current == next.value && Working(next.value)
      && e.data == Handle(next.value, d, Entry).0
  {
    HandlersSettle();
    var left := c.data.(timerArmed := false, commands := c.data.commands + [DisarmTimer]);
    var (d, next) := Handle(UpdateState, left, Entry);
    var entered := Configuration(UpdateState, d, c.calls + [Call(ReadState, Exit), Call(UpdateState, Entry)]);
    Enters(entered, next.value);
  }

  /** The handler of an event, its transition still to come. */
  ghost function Handled(c: Machine, e: Fsm.Event<GpsEvent>): (Machine, Option<State>) {
    var (d, next) := Handle(c.current, c.data, e);
    (Configuration(c.current, d, c.calls + [Call(c.current, e)]), next)
  }

  /** What a handler called already does, its transition included. */
  ghost function Followed(c: Machine, e: Fsm.Event<GpsEvent>): Machine
    requires Settles(HANDLER, RANK)
  {
    var (d, next) := Handle(c.current, c.data, e);
    if next.Some? then Transition(HANDLER, RANK, c.(data := d), next.value) else c.(data := d)
  }

  lemma StartObeys(c: Machine)
    requires Settled(c) && c.current == IdleState
    ensures Settles(HANDLER, RANK)
    ensures var e := Send(HANDLER, RANK, c, User(ReadEvent));
      Settled(e) && Working(e.current) && Obeys(c, e, ReadRequest)
  {
    Enters(Handled(c, User(ReadEvent)).0, ReadState);
    assert c.data.effects + [Started] + [ReadEntered] == c.data.effects + [Started, ReadEntered];
  }

  lemma TimeoutObeys(c: Machine)
    requires Settled(c) && c.current == ReadState
    ensures Settles(HANDLER, RANK)
    ensures var e := Send(HANDLER, RANK, c, User(TimeoutEvent));
      Settled(e) && Working(e.current) && Obeys(c, e, Timeout)
  {
    var (called, next) := Handled(c, User(TimeoutEvent));
    Enters(called, next.value);
    var before := c.data.commands;
    assert before + [AbortTransfers] + [DisarmTimer] + ENTER_READ
        == before + ([AbortTransfers] + [DisarmTimer] + ENTER_READ);
    assert before + [AbortTransfers] + [DisarmTimer] == before + ([AbortTransfers] + [DisarmTimer] + []);
  }

  lemma AcceptanceObeys(c: Machine)
    requires Settled(c) && c.current == ReadState && Acceptable(c.data.respFrame, c.data.systemTime)
    ensures Settles(HANDLER, RANK)
    ensures var e := Send(HANDLER, RANK, c, User(FrameReceivedEvent));
      Settled(e) && Working(e.current) && Obeys(c, e, FrameReceived(c.data.respFrame))
  {
    EntersUpdate(Handled(c, User(FrameReceivedEvent)).0);
    var before := c.data.commands;
    assert before + [DisarmTimer] == before + ([] + [DisarmTimer] + []);
  }

  lemma RejectionObeys(c: Machine)
    requires Settled(c) && c.current == ReadState && !Acceptable(c.data.respFrame, c.data.systemTime)
    ensures Settles(HANDLER, RANK)
    ensures var e := Send(HANDLER, RANK, c, User(FrameReceivedEvent));
      Settled(e) && Working(e.current) && Obeys(c, e, FrameReceived(c.data.respFrame))
  {
    HandlersSettle();
    if c.data.retry + 1 < RETRY_MAX {
      RejectionRetries(c);
    } else {
      RejectionGivesUp(c);
    }
  }

  lemma RejectionRetries(c: Machine)
    requires Settled(c) && c.current == ReadState && !Acceptable(c.data.respFrame, c.data.systemTime)
    requires c.data.retry + 1 < RETRY_MAX
    ensures Settles(HANDLER, RANK)
    ensures var e := Send(HANDLER, RANK, c, User(FrameReceivedEvent));
      Settled(e) && e.current == ReadState && Obeys(c, e, FrameReceived(c.data.respFrame))
  {
    EntersUpdate(Handled(c, User(FrameReceivedEvent)).0);
    var before := c.data.commands;
    assert before + [DisarmTimer] + ENTER_READ == before + ([] + [DisarmTimer] + ENTER_READ);
  }

  lemma RejectionGivesUp(c: Machine)
    requires Settled(c) && c.current == ReadState && !Acceptable(c.data.respFrame, c.data.systemTime)
    requires RETRY_MAX <= c.data.retry + 1
    ensures Settles(HANDLER, RANK)
    ensures var e := Send(HANDLER, RANK, c, User(FrameReceivedEvent));
      Settled(e) && e.current == IdleState && Obeys(c, e, FrameReceived(c.data.respFrame))
  {
    EntersUpdate(Handled(c, User(FrameReceivedEvent)).0);
    var before := c.data.commands;
    assert before + [DisarmTimer] == before + ([] + [DisarmTimer] + []);
  }

  /** Any other event is ignored, as the protocol ignores it. */
  lemma OthersObey(c: Machine, event: GpsEvent)
    requires Settled(c) && Working(c.current)
    requires c.current == IdleState ==> event != ReadEvent
    requires c.current == ReadState ==> event != TimeoutEvent && event != FrameReceivedEvent
    ensures Settles(HANDLER, RANK)
    ensures var e := Send(HANDLER, RANK, c, User(event));
      Settled(e) && Working(e.current) && Obeys(c, e, AsInput(event, c.data.respFrame))
  {
    HandlersSettle();
    assert c.data.effects + [] == c.data.effects && c.data.commands + ([] + [] + []) == c.data.commands;
  }

  /** In idle and read every event, stale or not, is one step of the protocol. */
  lemma SendObeys(c: Machine, event: GpsEvent)
    requires Settled(c) && Working(c.current)
    ensures Settles(HANDLER, RANK)
    ensures var e := Send(HANDLER, RANK, c, User(event));
      Settled(e) && Working(e.current) && Obeys(c, e, AsInput(event, c.data.respFrame))
  {
    HandlersSettle();
    if c.current == IdleState && event == ReadEvent {
      StartObeys(c);
    } else if c.current == ReadState && event == TimeoutEvent {
      TimeoutObeys(c);
    } else if c.current == ReadState && event == FrameReceivedEvent {
      if Acceptable(c.data.respFrame, c.data.systemTime) {
        AcceptanceObeys(c);
      } else {
        RejectionObeys(c);
      }
    } else {
      OthersObey(c, event);
    }
  }

  /** A completed step sends the next one; the eighth ends the sequence. */
  lemma StepCompletes(c: Config)
    requires Underway(c) || (c.step == 0 && c.sent == [] && c.completed == 0)
    ensures Underway(c) ==>
      var next := StepCompleted(c);
      next.completed == c.completed + 1
      && if next.completed < |CONFIG_SEQUENCE| then Underway(next)
         else Configured(next) && next.step == |CONFIG_SEQUENCE|
    ensures !Underway(c) ==> Underway(SendStep(c))
  {
    ConfigFits();
    if c.step < |CONFIG_SEQUENCE| {
      FrameCarries(CONFIG_SEQUENCE[c.step]);
    }
    if c.step + 1 < |CONFIG_SEQUENCE| {
      FrameCarries(CONFIG_SEQUENCE[c.step + 1]);
    }
  }

  /** While configuring only a completed step counts, and the eighth one completed
      leads to idle; error is never left. */
  lemma ConfiguringObeys(c: Machine, event: GpsEvent)
    requires Settled(c) && !Working(c.current)
    ensures Settles(HANDLER, RANK)
    ensures var e := Send(HANDLER, RANK, c, User(event));
      && Settled(e) && Protocol(e) == Protocol(c) && e.data.effects == c.data.effects
      && (c.current == ErrorState ==> e.current == ErrorState && e.data == c.data)
      && (c.current == InitState ==>
        && e.data.config.completed == c.data.config.completed + (if event == ConfiguredEvent then 1 else 0)
        && e.current == if e.data.config.completed == |CONFIG_SEQUENCE| then IdleState else InitState)
  {
    HandlersSettle();
    if c.current == InitState {
      StepCompletes(c.data.config);
      if event == ConfiguredEvent && Handled(c, User(event)).1.Some? {
        Enters(Handled(c, User(event)).0, IdleState);
      }
    }
  }

  /** At rest after the inputs handled since configuration ended. */
  ghost predicate Rests(c: Machine, inputs: seq<Input<Frame>>) {
    Settled(c) && (c.current != ErrorState ==> Run(SENSOR, inputs) == (Protocol(c), c.data.effects))
  }

  /** The inputs of the protocol: the events since configuration ended. */
  function Counted(c: Machine, inputs: seq<Input<Frame>>, event: GpsEvent): seq<Input<Frame>> {
    if Working(c.current) then inputs + [AsInput(event, c.data.respFrame)] else inputs
  }

  lemma SendRests(c: Machine, inputs: seq<Input<Frame>>, event: GpsEvent)
    requires Rests(c, inputs)
    ensures Settles(HANDLER, RANK)
    ensures Rests(Send(HANDLER, RANK, c, User(event)), Counted(c, inputs, event))
  {
    if Working(c.current) {
      SendObeys(c, event);
      RunSnoc(SENSOR, inputs, AsInput(event, c.data.respFrame));
    } else {
      ConfiguringObeys(c, event);
    }
  }

  /** INIT on a cleared object sends the first step, or ends in error. */
  lemma InitRests(c: Machine)
    requires c.current == InitState && c.data.config == Config(0, [], 0) && c.data.effects == []
    requires Protocol(c) == Initial()
    ensures Settles(HANDLER, RANK)
    ensures var e := Send(HANDLER, RANK, c, Init);
      Rests(e, []) && e.current == if c.data.timerCreated then InitState else ErrorState
  {
    HandlersSettle();
    StepCompletes(c.data.config);
  }

  /** The one-shot timer has run out and posted, if it was armed. */
  function RanDown(c: Machine): Machine {
    if !c.data.timerArmed then c
    else c.(data := c.data.(timerArmed := false, effects := c.data.effects + [TimeoutPosted]))
  }

  lemma RunningDownRests(c: Machine, inputs: seq<Input<Frame>>)
    requires Rests(c, inputs)
    ensures Rests(RanDown(c), inputs + [Expiry])
  {
    RunSnoc(SENSOR, inputs, Expiry);
    assert c.data.effects + [] == c.data.effects;
  }

  /** The receive buffer may be overwritten at any time. */
  lemma BufferRests(c: Machine, inputs: seq<Input<Frame>>, buffer: Frame)
    requires Rests(c, inputs)
    ensures Rests(c.(data := c.data.(respFrame := buffer)), inputs)
  {
  }

  // ------------------------------------------------------------- the object

  class GpsObject {
    var currentState: State
    var frame: GpsFrame
    var retry: nat
    var systemTime: nat
    var timerArmed: bool
    var respFrame: Frame
    var configStep: nat
    const timerCreated: bool
    const transmitBuf: array<Byte>
    ghost var configSent: seq<seq<Byte>>
    ghost var stepsCompleted: nat
    ghost var lastAccepted: Option<Frame>
    ghost var effects: seq<Effect<Frame>>
    ghost var commands: seq<Command>
    ghost var inputs: seq<Input<Frame>>
    ghost var calls: seq<Call<State, GpsEvent>>

    ghost function Now(): Machine
      reads this
    {
      Configuration(
        currentState,
        Data(frame, retry, systemTime, timerArmed, respFrame, timerCreated,
             Config(configStep, configSent, stepsCompleted), lastAccepted, effects, commands),
        calls)
    }

    ghost predicate Resting()
      reads this
    {
      Rests(Now(), inputs) && transmitBuf.Length == TRANSMIT_CAPACITY
    }

    /** The thread starts the FSM: INIT sends the first configuration step. */
    constructor (timerCreated: bool)
      ensures Resting() && fresh(transmitBuf)
      ensures currentState == if timerCreated then InitState else ErrorState
    {
      currentState := InitState;
      retry, systemTime, timerArmed, configStep, stepsCompleted := 0, 0, false, 0, 0;
      frame := GpsFrame(0.0, 0.0, 0.0, 0.0, false, 0, 0);
      respFrame := seq(FRAME_SIZE, _ => 0);
      this.timerCreated := timerCreated;
      lastAccepted, effects, commands, inputs, configSent, calls := None, [], [], [], [], [];
      transmitBuf := new Byte[TRANSMIT_CAPACITY](_ => 0);
      new;
      InitRests(Now());
      HandleEvent(Init);
    }

    /** An event from the queue, handled to completion, with whatever the receive
        buffer holds by then. */
    method SendEvent(event: GpsEvent, buffer: Frame)
      requires Resting()
      modifies this, transmitBuf
      ensures Settles(HANDLER, RANK)
      ensures Now() == Send(HANDLER, RANK, old(Now()).(data := old(Now()).data.(respFrame := buffer)), User(event))
      ensures Resting()
      ensures inputs == if Working(old(currentState)) then old(inputs) + [AsInput(event, buffer)] else old(inputs)
    {
      BufferRests(Now(), inputs, buffer);
      respFrame := buffer;
      SendRests(Now(), inputs, event);
      ghost var counted := Counted(Now(), inputs, event);
      HandleEvent(User(event));
      inputs := counted;
    }

    /** The one-shot timer runs out, and `timeout_handler` posts TIMEOUT. */
    method OnTimerExpired()
      requires Resting()
      modifies this`timerArmed, this`effects, this`inputs
      ensures Resting() && !timerArmed && inputs == old(inputs) + [Expiry]
    {
      ghost var after := RanDown(Now());
      RunningDownRests(Now(), inputs);
      if timerArmed {
        effects := effects + [TimeoutPosted];
      }
      timerArmed := false;
      assert Now() == after;
      inputs := inputs + [Expiry];
    }

    /** The handler of the current state runs. */
    method HandleEvent(e: Fsm.Event<GpsEvent>)
      requires Settles(HANDLER, RANK) && transmitBuf.Length == TRANSMIT_CAPACITY
      modifies this, transmitBuf
      ensures inputs == old(inputs) && Now() == Send(HANDLER, RANK, old(Now()), e)
      decreases if e == Entry then RANK(currentState) else if e == Exit then 0 else 2, 0, 1
    {
      match currentState {
        case InitState => HandleInit(e);
        case ErrorState => HandleError(e);
        case IdleState => HandleIdle(e);
        case ReadState => HandleRead(e);
        case UpdateState => HandleUpdate(e);
      }
    }

    method HandleInit(e: Fsm.Event<GpsEvent>)
      requires Settles(HANDLER, RANK) && currentState == InitState && transmitBuf.Length == TRANSMIT_CAPACITY
      modifies this, transmitBuf
      ensures inputs == old(inputs) && Now() == Send(HANDLER, RANK, old(Now()), e)
      decreases if e == Entry || e == Exit then 0 else 2, 0, 0
    {
      calls := calls + [Call(currentState, e)];
      if e == Init {
        Boot();
      } else if e == User(ConfiguredEvent) {
        StepDone();
      }
    }

    /** gps_init_state, case INIT. */
    method Boot()
      requires Settles(HANDLER, RANK) && currentState == InitState && transmitBuf.Length == TRANSMIT_CAPACITY
      modifies this, transmitBuf
      ensures inputs == old(inputs) && Now() == Followed(old(Now()), Init)
      decreases 1, 0, 0
    {
      ghost var done := Now().(data := Handle(InitState, Now().data, Init).0);
      frame := frame.(valid := false);
      if timerCreated {
        configStep := 0;
        SendCurrentStep();
      }
      assert Now() == done;
      if !timerCreated {
        TransitionTo(ErrorState);
      }
    }

    /** gps_init_state, a configuration step completed: the next one, or idle. */
    method StepDone()
      requires Settles(HANDLER, RANK) && currentState == InitState && transmitBuf.Length == TRANSMIT_CAPACITY
      modifies this, transmitBuf
      ensures inputs == old(inputs) && Now() == Followed(old(Now()), User(ConfiguredEvent))
      decreases 1, 0, 0
    {
      ghost var config := StepCompleted(Now().data.config);
      ghost var done := Now().(data := Now().data.(config := config));
      CompleteStep();
      assert Now() == done;
      if configStep >= |CONFIG_SEQUENCE| {
        TransitionTo(IdleState);
      }
    }

    method CompleteStep()
      requires transmitBuf.Length == TRANSMIT_CAPACITY
      modifies this`stepsCompleted, this`configStep, this`configSent, transmitBuf
      ensures Config(configStep, configSent, stepsCompleted)
           == StepCompleted(old(Config(configStep, configSent, stepsCompleted)))
    {
      stepsCompleted := stepsCompleted + 1;
      configStep := configStep + 1;
      if configStep < |CONFIG_SEQUENCE| {
        SendCurrentStep();
      }
    }

    /** `config_send_current_step`: build the frame and hand it to the UART. */
    method SendCurrentStep()
      requires configStep < |CONFIG_SEQUENCE| && transmitBuf.Length == TRANSMIT_CAPACITY
      modifies this`configSent, transmitBuf
      ensures Config(configStep, configSent, stepsCompleted)
           == SendStep(old(Config(configStep, configSent, stepsCompleted)))
    {
      ConfigFits();
      var frameLen := BuildConfigFrame(CONFIG_SEQUENCE[configStep], transmitBuf);
      configSent := configSent + [transmitBuf[..frameLen]];
    }

    method HandleError(e: Fsm.Event<GpsEvent>)
      requires Settles(HANDLER, RANK) && currentState == ErrorState
      modifies this
      ensures inputs == old(inputs) && Now() == Send(HANDLER, RANK, old(Now()), e)
      decreases 0, 0, 0
    {
      calls := calls + [Call(currentState, e)];
      if e == Entry {
        frame := frame.(valid := false);
      }
    }

    method HandleIdle(e: Fsm.Event<GpsEvent>)
      requires Settles(HANDLER, RANK) && currentState == IdleState && transmitBuf.Length == TRANSMIT_CAPACITY
      modifies this, transmitBuf
      ensures inputs == old(inputs) && Now() == Send(HANDLER, RANK, old(Now()), e)
      decreases if e == Entry || e == Exit then 0 else 2, 0, 0
    {
      ghost var called := Handled(Now(), e).0;
      calls := calls + [Call(currentState, e)];
      if e == Entry {
        retry := 0;
      } else if e == User(ReadEvent) {
        effects := effects + [Started];
        assert Now() == called;
        TransitionTo(ReadState);
      }
    }

    method HandleRead(e: Fsm.Event<GpsEvent>)
      requires Settles(HANDLER, RANK) && currentState == ReadState && transmitBuf.Length == TRANSMIT_CAPACITY
      modifies this, transmitBuf
      ensures inputs == old(inputs) && Now() == Send(HANDLER, RANK, old(Now()), e)
      decreases if e == Entry || e == Exit then 0 else 2, 0, 0
    {
      ghost var called := Handled(Now(), e).0;
      calls := calls + [Call(currentState, e)];
      if e == Entry {
        timerArmed := true;
        commands, effects := commands + ENTER_READ, effects + [ReadEntered];
      } else if e == User(FrameReceivedEvent) {
        assert Now() == called;
        TransitionTo(UpdateState);
      } else if e == User(TimeoutEvent) {
        commands := commands + [AbortTransfers];
        RetryHandler();
      } else if e == Exit {
        timerArmed := false;
        commands := commands + [DisarmTimer];
      }
    }

    method HandleUpdate(e: Fsm.Event<GpsEvent>)
      requires Settles(HANDLER, RANK) && currentState == UpdateState && transmitBuf.Length == TRANSMIT_CAPACITY
      modifies this, transmitBuf
      ensures inputs == old(inputs) && Now() == Send(HANDLER, RANK, old(Now()), e)
      decreases if e == Entry then 1 else if e == Exit then 0 else 2, 0, 0
    {
      ghost var called := Handled(Now(), e).0;
      calls := calls + [Call(currentState, e)];
      if e == Entry {
        var ok := IsFrameValid(respFrame, systemTime);
        if ok {
          UpdateGpsFrame();
          assert Now() == called;
          TransitionTo(IdleState);
        } else {
          RetryHandler();
        }
      }
    }

    /** `util_fsm_transition`: entering update may transition again before this
        call returns. */
    method TransitionTo(next: State)
      requires Settles(HANDLER, RANK) && transmitBuf.Length == TRANSMIT_CAPACITY
      modifies this, transmitBuf
      ensures inputs == old(inputs) && Now() == Transition(HANDLER, RANK, old(Now()), next)
      decreases RANK(next), 1, 0
    {
      TransitionAsSends(HANDLER, RANK, Now(), next);
      HandleEvent(Exit);
      currentState := next;
      HandleEvent(Entry);
    }

    method UpdateGpsFrame()
      modifies this`frame, this`systemTime, this`lastAccepted, this`effects
      ensures Now() == old(Now()).(data := Updated(old(Now()).data))
    {
      frame := Decoded(respFrame);
      systemTime := TimeOfWeek(respFrame);
      lastAccepted, effects := Some(respFrame), effects + [Accepted(respFrame)];
    }

    method RetryHandler()
      requires Settles(HANDLER, RANK) && transmitBuf.Length == TRANSMIT_CAPACITY
      modifies this, transmitBuf
      ensures inputs == old(inputs)
      ensures var (d, next) := Retried(old(Now()).data);
        next.Some? && Now() == Transition(HANDLER, RANK, old(Now()).(data := d), next.value)
      decreases 0, 2, 0
    {
      ghost var (d, next) := Retried(Now().data);
      ghost var from := Now().(data := d);
      retry := retry + 1;
      if retry < RETRY_MAX {
        assert Now() == from;
        TransitionTo(ReadState);
      } else {
        frame := frame.(valid := false);
        effects := effects + [GaveUp];
        assert Now() == from;
        TransitionTo(IdleState);
      }
    }
  }

  /** Whatever events a receiver has been sent, and whenever its timer ran out: it
      reads only after exactly eight completed configuration steps, whose frames
      were the sequence in order, and from then on it rests with the guarantees of
      the protocol; what it publishes decodes the last frame it accepted, and every
      frame it ever accepted is a well-formed navigation solution. */
  lemma ObjectGuarantees(o: GpsObject)
    requires o.Resting() && o.currentState != ErrorState
    ensures Working(o.currentState) ==> o.stepsCompleted == 8 == |o.configSent| && Configures(o.configSent)
    ensures !Working(o.currentState) ==> o.stepsCompleted < 8 && o.effects == []
    ensures Guarantee(SENSOR, Protocol(o.Now()), o.effects)
    ensures o.frame.valid ==> o.lastAccepted.Some? && o.frame == Decoded(o.lastAccepted.value)
    ensures forall f :: f in AcceptedFrames(o.effects) ==> WellFormed(f) && f[2] == CLS_NAV && f[3] == ID_NAV_PVT
  {
    ConfigFits();
    AnyRun(SENSOR, o.inputs);
    OnlyAcceptable(SENSOR, o.inputs);
  }
}
