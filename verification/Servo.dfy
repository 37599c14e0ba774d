/** The pan/tilt servos (src/ddl/servo/servo_fsm.c): angles to PWM counts and
    back, and the scan / noise-scan / target-lock machine. */
module Servo {
  import opened Options
  import opened Sweep
  import opened Fsm

  // ------------------------------------------------------ angles and counts

  const PWM_STEPS := 4096
  const PERIOD_US := 20000.0
  const MIN_PULSE_US := 500.0
  const MAX_PULSE_US := 2500.0
  const MIN_ANGLE := 0.0
  const MAX_ANGLE := 180.0

  function Clamp(x: real, lo: real, hi: real): real {
    if x < lo then lo else if x > hi then hi else x
  }

  const COUNTS_PER_US: real := 4096.0 / PERIOD_US

  function PulseOf(angle: real): real {
    MIN_PULSE_US + angle / (MAX_ANGLE - MIN_ANGLE) * (MAX_PULSE_US - MIN_PULSE_US)
  }

  /** `pulse_us_to_counts`: clamp to the counter's range and round half up. */
  function PulseToCounts(pulse: real): (counts: nat)
    ensures counts < PWM_STEPS
  {
    (Clamp(pulse * COUNTS_PER_US, 0.0, 4095.0) + 0.5).Floor
  }

  /** The OFF count `servo_set_angle` writes. */
  function CountsFor(angle: real): (counts: nat)
    ensures counts < PWM_STEPS
  {
    PulseToCounts(PulseOf(Clamp(angle, MIN_ANGLE, MAX_ANGLE)))
  }

  /** The angle `servo_get_angle` reads back. */
  function AngleFrom(counts: nat): (angle: real)
    ensures MIN_ANGLE <= angle <= MAX_ANGLE
  {
    Clamp((counts as real / COUNTS_PER_US - MIN_PULSE_US) / (MAX_PULSE_US - MIN_PULSE_US) * (MAX_ANGLE - MIN_ANGLE),
      MIN_ANGLE, MAX_ANGLE)
  }

  /** Before clamping and rounding, a count is a fixed number of degrees. */
  lemma CountsLinear(angle: real)
    requires MIN_ANGLE <= angle <= MAX_ANGLE
    ensures PulseOf(angle) * COUNTS_PER_US == 102.4 + angle * (1024.0 / 450.0)
    ensures CountsFor(angle) == (102.4 + angle * (1024.0 / 450.0) + 0.5).Floor
  {
    assert COUNTS_PER_US == 0.2048;
    assert PulseOf(angle) == 500.0 + angle * (100.0 / 9.0);
  }

  /** Every count commanded for an angle in range lies well inside 12 bits. */
  lemma CountsRange(angle: real)
    requires MIN_ANGLE <= angle <= MAX_ANGLE
    ensures 102 <= CountsFor(angle) <= 512
  {
    CountsLinear(angle);
  }

  /** A larger angle never gets a smaller count. */
  lemma CountsMonotone(a: real, b: real)
    requires a <= b
    ensures CountsFor(a) <= CountsFor(b)
  {
    var x, y := Clamp(a, MIN_ANGLE, MAX_ANGLE), Clamp(b, MIN_ANGLE, MAX_ANGLE);
    CountsLinear(x);
    CountsLinear(y);
    assert x * (1024.0 / 450.0) <= y * (1024.0 / 450.0);
  }

  /** Reading back a commanded angle errs by at most half a count, 225/1024 of a
      degree; at 0 and at 180 degrees it does not err at all. */
  lemma ReadBackError(angle: real)
    requires MIN_ANGLE <= angle <= MAX_ANGLE
    ensures -225.0 / 1024.0 <= AngleFrom(CountsFor(angle)) - angle <= 225.0 / 1024.0
    ensures angle == MIN_ANGLE || angle == MAX_ANGLE ==> AngleFrom(CountsFor(angle)) == angle
  {
    CountsLinear(angle);
    var c := CountsFor(angle) as real;
    var exact := 102.4 + angle * (1024.0 / 450.0);
    assert exact - 0.5 <= c <= exact + 0.5;
    var read := (c / COUNTS_PER_US - MIN_PULSE_US) / (MAX_PULSE_US - MIN_PULSE_US) * (MAX_ANGLE - MIN_ANGLE);
    assert read == (c - 102.4) * (450.0 / 1024.0);
  }

  /** The four register bytes of a channel, as written and as read. */
  function Pack(count: nat): (nat, nat) {
    (count % 256, count / 256 % 16)
  }

  function Unpack(low: nat, high: nat): nat {
    low + high % 16 * 256
  }

  /** Packing a 16-bit count into the two register bytes is lossless exactly when
      the count fits the chip's 12-bit counter. */
  lemma PackLossless(count: nat)
    requires count < 0x1_0000
    ensures Unpack(Pack(count).0, Pack(count).1) == count <==> count < PWM_STEPS
  {
  }

  // ---------------------------------------------------------- state machine

  datatype State = InitState | ErrorState | IdleState | ScanState | NoiseScanState | TargetLockState

  datatype ServoEvent = ScanEvent | NoiseDetected | Lock | Directions | RotationTimeout

  datatype Status = Successful | InvalidValue | ActionFailed | DeviceError

  datatype Angles = Angles(hor: real, ver: real)

  /** How the I2C transfers of one event turn out: whether each channel's write
      succeeds, and what a read of each channel's count returns, if anything. */
  datatype Wire = Wire(setHor: bool, setVer: bool, gotHor: Option<nat>, gotVer: Option<nat>)

  /** A count that went out to a channel, and the angle it was commanded for. */
  datatype Written = Written(angle: real, counts: nat)

  predicate Commandable(a: Angles) {
    MIN_ANGLE <= a.hor <= MAX_ANGLE && MIN_ANGLE <= a.ver <= MAX_ANGLE
  }

  /** The scan registers after a failed write: what the chip reports, where it
      reports anything. */
  function ReadBack(s: Scan, w: Wire): Scan {
    Scan(if w.gotHor.Some? then AngleFrom(w.gotHor.value) else s.hor,
         if w.gotVer.Some? then AngleFrom(w.gotVer.value) else s.ver,
         s.increasing)
  }

  /** The outcomes of setting up the chip, the target mutex and the timer. */
  datatype Setup = Setup(chip: bool, mutex: bool, timer: bool)

  // ---------------------------------------------------------- the handlers

  /** What the handlers work on; `ranOut` records that the one-shot timer expired
      since it was last armed, `written` the counts that went out. */
  datatype Data = Data(
    scan: Scan, target: Angles, targetSeq: nat, lastSeq: nat, frame: Angles,
    timerArmed: bool, ranOut: bool, setup: Setup, wire: Wire, written: seq<Written>)

  /** `servo_set_both_angles`: the second channel only after the first took its
      angle, and the frame only after both. */
  function SetBoth(d: Data, a: Angles): Data {
    if !d.wire.setHor then d
    else
      var hor := d.(written := d.written + [Written(a.hor, CountsFor(a.hor))]);
      if !d.wire.setVer then hor else hor.(written := hor.written + [Written(a.ver, CountsFor(a.ver))], frame := a)
  }

  predicate BothTaken(w: Wire) {
    w.setHor && w.setVer
  }

  /** A scan stop, with the read-back after a failed write. */
  function Stopped(d: Data): Data {
    var stop := Next(SERVO_RANGE, d.scan);
    var tried := SetBoth(d.(scan := stop), Angles(stop.hor, stop.ver));
    if BothTaken(d.wire) then tried else tried.(scan := ReadBack(stop, d.wire))
  }

  /** The six state handlers. */
  function Handle(s: State, d: Data, e: Fsm.Event<ServoEvent>): (Data, Option<State>) {
    match (s, e)
    case (InitState, Init) => (d, Some(if d.setup == Setup(true, true, true) then IdleState else ErrorState))
    case (IdleState, Entry) =>
      (SetBoth(d.(target := Angles(0.0, 90.0), targetSeq := 0, scan := Scan(0.0, 90.0, true)), Angles(0.0, 90.0)), None)
    case (IdleState, User(Directions)) => (d, Some(ScanState))
    case (ScanState, Entry) => (SetBoth(d, Angles(d.scan.hor, d.scan.ver)), None)
    case (ScanState, User(Directions)) => (Stopped(d), None)
    case (ScanState, User(NoiseDetected)) => (d, Some(NoiseScanState))
    case (ScanState, User(Lock)) => (d, Some(TargetLockState))
    case (NoiseScanState, Entry) =>
      var jumped := d.(scan := Scan(d.target.hor, d.target.ver, d.scan.increasing));
      (SetBoth(jumped, d.target).(timerArmed := true, ranOut := false),
       None)
    case (NoiseScanState, User(RotationTimeout)) => (d, Some(ScanState))
    case (NoiseScanState, Exit) => (d.(timerArmed := false), None)
    case (TargetLockState, Entry) => (SetBoth(d.(lastSeq := d.targetSeq), d.target), None)
    case (TargetLockState, User(Directions)) =>
      (if d.lastSeq == d.targetSeq then d else SetBoth(d.(lastSeq := d.targetSeq), d.target), None)
    case (TargetLockState, User(ScanEvent)) => (d, Some(ScanState))
    case _ => (d, None)
  }

  const HANDLER: Handler<State, Data, ServoEvent> := (s, d, e) => Handle(s, d, e)

  /** No entry here transitions. */
  const RANK: State -> nat := s => 0

  lemma HandlersSettle()
    ensures Settles(HANDLER, RANK)
  {
  }

  type Machine = Configuration<State, Data, ServoEvent>

  /** A count that is the one for an unclamped angle and fits 12 bits. */
  ghost predicate Faithful(w: Written) {
    && MIN_ANGLE <= w.angle <= MAX_ANGLE
    && w.counts == PulseToCounts(PulseOf(w.angle))
    && Unpack(Pack(w.counts).0, Pack(w.counts).1) == w.counts
  }

  ghost predicate AllFaithful(written: seq<Written>) {
    forall k :: 0 <= k < |written| ==> Faithful(written[k])
  }

  /** What every run keeps: all angles the machine holds can be commanded as they
      are, every count that went out is faithful, and the timer is armed from
      entering noise scan until it has run out. */
  ghost predicate Sound(c: Machine) {
    var d := c.data;
    && InBounds(d.scan) && Commandable(d.target) && d.targetSeq < 0x1_0000_0000
    && c.current != InitState
    && (d.timerArmed ==> c.current == NoiseScanState)
    && (c.current == NoiseScanState ==> (d.timerArmed <==> !d.ranOut))
    && AllFaithful(d.written)
  }

  lemma SetBothFaithful(d: Data, a: Angles)
    requires Commandable(a) && AllFaithful(d.written)
    ensures AllFaithful(SetBoth(d, a).written)
    ensures SetBoth(d, a) == d.(written := SetBoth(d, a).written, frame := if BothTaken(d.wire) then a else d.frame)
  {
    PackLossless(CountsFor(a.hor));
    PackLossless(CountsFor(a.ver));
  }

  lemma EntryKeeps(c: Machine, next: State)
    requires next != InitState && Sound(c) && !c.data.timerArmed
    ensures Sound(Configuration(next, Handle(next, c.data, Entry).0, c.calls))
  {
    var d := c.data;
    var cleared := d.(target := Angles(0.0, 90.0), targetSeq := 0, scan := Scan(0.0, 90.0, true));
    match next
    case IdleState => SetBothFaithful(cleared, Angles(0.0, 90.0));
    case ScanState => SetBothFaithful(d, Angles(d.scan.hor, d.scan.ver));
    case NoiseScanState =>
      SetBothFaithful(d.(scan := Scan(d.target.hor, d.target.ver, d.scan.increasing)), d.target);
    case TargetLockState => SetBothFaithful(d.(lastSeq := d.targetSeq), d.target);
    case ErrorState =>
  }

  /** Entering a state from another one. */
  lemma Enters(c: Machine, next: State)
    requires next != InitState && Sound(c)
    ensures Settles(HANDLER, RANK)
    ensures var left := Handle(c.current, c.data, Exit).0;
      var e := Transition(HANDLER, RANK, c, next);
      && e.current == next && e.data == Handle(next, left, Entry).0
      && Sound(e)
  {
    HandlersSettle();
    var left := Handle(c.current, c.data, Exit).0;
    assert left == c.data.(timerArmed := false);
    EntryKeeps(Configuration(ScanState, left, c.calls), next);
  }

  /** The state an event leads to. */
  function Successor(s: State, e: ServoEvent): State {
    match (s, e)
    case (IdleState, Directions) => ScanState
    case (ScanState, NoiseDetected) => NoiseScanState
    case (ScanState, Lock) => TargetLockState
    case (NoiseScanState, RotationTimeout) => ScanState
    case (TargetLockState, ScanEvent) => ScanState
    case _ => s
  }

  /** The machine is sound and in the right state after an event; the target is
      what it was, and only a scan stop and a noise have moved the scan registers. */
  ghost predicate Followed(c: Machine, event: ServoEvent, e: Machine) {
    && Sound(e) && e.current == Successor(c.current, event)
    && e.data.target == c.data.target && e.data.targetSeq == c.data.targetSeq
    && (c.current == ScanState && event == Directions ==>
        var stop := Next(SERVO_RANGE, c.data.scan);
        && e.data.scan == (if BothTaken(c.data.wire) then stop else ReadBack(stop, c.data.wire))
        && (BothTaken(c.data.wire) ==> e.data.frame == Angles(stop.hor, stop.ver)))
    && (c.current == ScanState && event == NoiseDetected ==>
        e.data.scan == Scan(c.data.target.hor, c.data.target.ver, c.data.scan.increasing))
    && (c.current != ScanState || (event != Directions && event != NoiseDetected) ==> e.data.scan == c.data.scan)
  }

  lemma TransitionFollows(c: Machine, event: ServoEvent)
    requires Sound(c) && Handle(c.current, c.data, User(event)).1.Some?
    ensures Settles(HANDLER, RANK)
    ensures Followed(c, event, Send(HANDLER, RANK, c, User(event)))
  {
    HandlersSettle();
    var (d, next) := Handle(c.current, c.data, User(event));
    Enters(Configuration(c.current, d, c.calls + [Call(c.current, User(event))]), next.value);
    SetBothFaithful(d, Angles(d.scan.hor, d.scan.ver));
    SetBothFaithful(d.(scan := Scan(d.target.hor, d.target.ver, d.scan.increasing)), d.target);
    SetBothFaithful(d.(lastSeq := d.targetSeq), d.target);
  }

  /** Every event, in every state. */
  lemma SendKeeps(c: Machine, event: ServoEvent)
    requires Sound(c)
    ensures Settles(HANDLER, RANK)
    ensures Followed(c, event, Send(HANDLER, RANK, c, User(event)))
  {
    HandlersSettle();
    if Handle(c.current, c.data, User(event)).1.Some? {
      TransitionFollows(c, event);
    } else {
      NextCloser(c.data.scan);
      var stop := Next(SERVO_RANGE, c.data.scan);
      SetBothFaithful(c.data.(scan := stop), Angles(stop.hor, stop.ver));
      SetBothFaithful(c.data.(lastSeq := c.data.targetSeq), c.data.target);
    }
  }

  /** Some DIRECTIONS in a row, each with its own transfers. */
  ghost function Directed(c: Machine, wires: seq<Wire>): Machine
    requires Settles(HANDLER, RANK)
    decreases |wires|
  {
    if wires == [] then c
    else Directed(Send(HANDLER, RANK, c.(data := c.data.(wire := wires[0])), User(Directions)), wires[1..])
  }

  lemma {:induction false} LockWaits(c: Machine, wires: seq<Wire>)
    requires c.current == TargetLockState && c.data.lastSeq == c.data.targetSeq
    ensures Settles(HANDLER, RANK)
    ensures var e := Directed(c, wires);
      e.current == c.current && e.data.frame == c.data.frame && e.data.written == c.data.written
    decreases |wires|
  {
    HandlersSettle();
    if wires != [] {
      LockWaits(Send(HANDLER, RANK, c.(data := c.data.(wire := wires[0])), User(Directions)), wires[1..]);
    }
  }

  /** A locked servo that is told of a new target commands it once: however many
      DIRECTIONS follow, it is on the target exactly if both channels took it then,
      and otherwise where it was, until another target comes. */
  lemma LockFollows(c: Machine, wires: seq<Wire>)
    requires c.current == TargetLockState && c.data.lastSeq != c.data.targetSeq && wires != []
    ensures Settles(HANDLER, RANK)
    ensures var e := Directed(c, wires);
      && e.data.frame == (if BothTaken(wires[0]) then c.data.target else c.data.frame)
      && e.data.written == SetBoth(c.data.(wire := wires[0]), c.data.target).written
  {
    HandlersSettle();
    LockWaits(Send(HANDLER, RANK, c.(data := c.data.(wire := wires[0])), User(Directions)), wires[1..]);
  }

  /** Such a lock: the first transfer of the new target fails, the next would not. */
  lemma LockMissesTarget()
    ensures Settles(HANDLER, RANK)
    ensures var d := Data(
        Scan(0.0, 90.0, true), Angles(45.0, 120.0), 1, 0, Angles(0.0, 90.0),
        false, false, Setup(true, true, true), Wire(true, true, None, None), []);
      var wires := [Wire(false, true, None, None), Wire(true, true, None, None)];
      Directed(Configuration(TargetLockState, d, []), wires).data.frame == Angles(0.0, 90.0)
  {
    var d := Data(
      Scan(0.0, 90.0, true), Angles(45.0, 120.0), 1, 0, Angles(0.0, 90.0),
      false, false, Setup(true, true, true), Wire(true, true, None, None), []);
    LockFollows(Configuration(TargetLockState, d, []), [Wire(false, true, None, None), Wire(true, true, None, None)]);
  }

  // ------------------------------------------------------------- the object

  class ServoObject {
    var currentState: State
    var scan: Scan
    var target: Angles
    var targetSeq: nat
    var lastSeq: nat
    var frame: Angles
    var timerArmed: bool
    const setup: Setup
    var wire: Wire  // how the transfers of the event in hand turn out
    ghost var ranOut: bool
    ghost var written: seq<Written>
    ghost var calls: seq<Call<State, ServoEvent>>

    ghost function Now(): Machine
      reads this
    {
      Configuration(
        currentState, Data(scan, target, targetSeq, lastSeq, frame, timerArmed, ranOut, setup, wire, written), calls)
    }

    ghost predicate Valid()
      reads this
    {
      Sound(Now())
    }

    /** INIT: the chip, the target mutex and the timer are set up in this order,
        and the first failure leads to the error state. */
    constructor (setup: Setup, wire: Wire)
      ensures Valid() && this.setup == setup
      ensures currentState == if setup == Setup(true, true, true) then IdleState else ErrorState
      ensures currentState == IdleState ==>
        scan == Scan(0.0, 90.0, true) && target == Angles(0.0, 90.0) && targetSeq == 0
    {
      currentState := InitState;
      scan, target, frame := Scan(0.0, 0.0, false), Angles(0.0, 0.0), Angles(0.0, 0.0);
      targetSeq, lastSeq, timerArmed, ranOut, written, calls := 0, 0, false, false, [], [];
      this.setup, this.wire := setup, wire;
      new;
      HandlersSettle();
      var cleared := Data(scan, Angles(0.0, 90.0), 0, 0, frame, false, false, setup, wire, []);
      SetBothFaithful(cleared.(scan := Scan(0.0, 90.0, true)), Angles(0.0, 90.0));
      HandleEvent(Init);
    }

    /** An event from the queue, handled to completion; `wire` is how its transfers
        turn out. */
    method SendEvent(event: ServoEvent, wire: Wire)
      requires Valid()
      modifies this
      ensures Settles(HANDLER, RANK)
      ensures Now() == Send(HANDLER, RANK, old(Now()).(data := old(Now()).data.(wire := wire)), User(event))
      ensures Valid() && currentState == Successor(old(currentState), event)
    {
      this.wire := wire;
      SendKeeps(Now(), event);
      HandleEvent(User(event));
    }

    /** The one-shot timer runs out, and `timeout_handler` posts the timeout. */
    method OnTimerExpired()
      requires Valid()
      modifies this`timerArmed, this`ranOut
      ensures Valid() && !timerArmed && (currentState == NoiseScanState ==> ranOut)
    {
      ranOut := ranOut || timerArmed;
      timerArmed := false;
    }

    /** `servo_set_angle` on one channel. */
    method SetAngle(angle: real, ok: bool) returns (status: Status)
      requires MIN_ANGLE <= angle <= MAX_ANGLE
      modifies this`written
      ensures status == if ok then Successful else DeviceError
      ensures written == if ok then old(written) + [Written(angle, CountsFor(angle))] else old(written)
    {
      var counts := PulseToCounts(PulseOf(Clamp(angle, MIN_ANGLE, MAX_ANGLE)));
      if !ok {
        return DeviceError;
      }
      written := written + [Written(angle, counts)];
      status := Successful;
    }

    /** `servo_set_both_angles`: publish the angles once both channels took them. */
    method SetBothAngles(a: Angles) returns (status: Status)
      requires Commandable(a)
      modifies this`written, this`frame
      ensures status == Successful <==> BothTaken(wire)
      ensures Now() == old(Now()).(data := SetBoth(old(Now()).data, a))
    {
      status := SetAngle(a.hor, wire.setHor);
      if status != Successful {
        return;
      }
      status := SetAngle(a.ver, wire.setVer);
      if status == Successful {
        frame := a;
      }
    }

    /** `servo_scan_operation`, branch for branch on the registers. */
    method ScanOperation()
      requires InBounds(scan)
      modifies this`scan
      ensures scan == Next(SERVO_RANGE, old(scan)) && InBounds(scan)
    {
      NextCloser(scan);
      if scan.increasing && scan.hor < SERVO_RANGE.horMax {
        scan := scan.(hor := scan.hor + SERVO_RANGE.step);
      } else if !scan.increasing && scan.hor > SERVO_RANGE.horMin {
        scan := scan.(hor := scan.hor - SERVO_RANGE.step);
      } else {
        if scan.ver < SERVO_RANGE.verMax {
          scan := scan.(ver := scan.ver + SERVO_RANGE.step);
          scan := scan.(increasing := !scan.increasing);
        } else {
          scan := Scan(SERVO_RANGE.horMin, SERVO_RANGE.verMin, true);
        }
      }
    }

    /** `servo_fsm_set_target`: only angles inside the swept rectangle. */
    method SetTarget(hor: real, ver: real) returns (status: Status)
      requires Valid()
      modifies this`target, this`targetSeq
      ensures Valid()
      ensures status ==
        if !(SERVO_RANGE.horMin <= hor <= SERVO_RANGE.horMax && SERVO_RANGE.verMin <= ver <= SERVO_RANGE.verMax)
        then InvalidValue
        else if setup.chip && setup.mutex then Successful
        else ActionFailed
      ensures status == Successful ==>
        target == Angles(hor, ver) && targetSeq == (old(targetSeq) + 1) % 0x1_0000_0000 && targetSeq != old(targetSeq)
      ensures status != Successful ==> target == old(target) && targetSeq == old(targetSeq)
    {
      if hor < SERVO_RANGE.horMin || hor > SERVO_RANGE.horMax {
        return InvalidValue;
      }
      if ver < SERVO_RANGE.verMin || ver > SERVO_RANGE.verMax {
        return InvalidValue;
      }
      if !(setup.chip && setup.mutex) {
        return ActionFailed;
      }
      target := Angles(hor, ver);
      targetSeq := (targetSeq + 1) % 0x1_0000_0000;
      status := Successful;
    }

    /** Angles the handlers may command. */
    ghost predicate Ready()
      reads this
    {
      InBounds(scan) && Commandable(target)
    }

    /** The handler of the current state runs. */
    method HandleEvent(e: Fsm.Event<ServoEvent>)
      requires Settles(HANDLER, RANK) && Ready()
      modifies this
      ensures Now() == Send(HANDLER, RANK, old(Now()), e)
      decreases if e == Entry || e == Exit then 0 else 1, 1
    {
      match currentState {
        case InitState => HandleInit(e);
        case ErrorState => calls := calls + [Call(currentState, e)];
        case IdleState => HandleIdle(e);
        case ScanState => HandleScan(e);
        case NoiseScanState => HandleNoiseScan(e);
        case TargetLockState => HandleTargetLock(e);
      }
    }

    method HandleInit(e: Fsm.Event<ServoEvent>)
      requires Settles(HANDLER, RANK) && Ready() && currentState == InitState
      modifies this
      ensures Now() == Send(HANDLER, RANK, old(Now()), e)
      decreases if e == Entry || e == Exit then 0 else 1, 0
    {
      calls := calls + [Call(currentState, e)];
      if e == Init {
        if !setup.chip || !setup.mutex || !setup.timer {
          TransitionTo(ErrorState);
        } else {
          TransitionTo(IdleState);
        }
      }
    }

    method HandleIdle(e: Fsm.Event<ServoEvent>)
      requires Settles(HANDLER, RANK) && Ready() && currentState == IdleState
      modifies this
      ensures Now() == Send(HANDLER, RANK, old(Now()), e)
      decreases if e == Entry || e == Exit then 0 else 1, 0
    {
      calls := calls + [Call(currentState, e)];
      if e == Entry {
        target, targetSeq := Angles(0.0, 90.0), 0;
        scan := Scan(0.0, 90.0, true);
        var status := SetBothAngles(Angles(scan.hor, scan.ver));
      } else if e == User(Directions) {
        TransitionTo(ScanState);
      }
    }

    /** One DIRECTIONS while scanning: the next stop, read back if it was not taken. */
    method ScanStop()
      requires Ready()
      modifies this`scan, this`written, this`frame
      ensures Now() == old(Now()).(data := Stopped(old(Now()).data))
    {
      ScanOperation();
      var status := SetBothAngles(Angles(scan.hor, scan.ver));
      if status != Successful {
        scan := ReadBack(scan, wire);
      }
    }

    method HandleScan(e: Fsm.Event<ServoEvent>)
      requires Settles(HANDLER, RANK) && Ready() && currentState == ScanState
      modifies this
      ensures Now() == Send(HANDLER, RANK, old(Now()), e)
      decreases if e == Entry || e == Exit then 0 else 1, 0
    {
      calls := calls + [Call(currentState, e)];
      if e == Entry {
        var status := SetBothAngles(Angles(scan.hor, scan.ver));
      } else if e == User(Directions) {
        ScanStop();
      } else if e == User(NoiseDetected) {
        TransitionTo(NoiseScanState);
      } else if e == User(Lock) {
        TransitionTo(TargetLockState);
      }
    }

    method JumpToTarget()
      requires Ready()
      modifies this`scan, this`written, this`frame, this`timerArmed, this`ranOut
      ensures Now() == old(Now()).(data := Handle(NoiseScanState, old(Now()).data, Entry).0)
    {
      scan := Scan(target.hor, target.ver, scan.increasing);
      var status := SetBothAngles(target);
      timerArmed, ranOut := true, false;
    }

    method HandleNoiseScan(e: Fsm.Event<ServoEvent>)
      requires Settles(HANDLER, RANK) && Ready() && currentState == NoiseScanState
      modifies this
      ensures Now() == Send(HANDLER, RANK, old(Now()), e)
      decreases if e == Entry || e == Exit then 0 else 1, 0
    {
      calls := calls + [Call(currentState, e)];
      if e == Entry {
        JumpToTarget();
      } else if e == User(RotationTimeout) {
        TransitionTo(ScanState);
      } else if e == Exit {
        timerArmed := false;
      }
    }

    method HandleTargetLock(e: Fsm.Event<ServoEvent>)
      requires Settles(HANDLER, RANK) && Ready() && currentState == TargetLockState
      modifies this
      ensures Now() == Send(HANDLER, RANK, old(Now()), e)
      decreases if e == Entry || e == Exit then 0 else 1, 0
    {
      calls := calls + [Call(currentState, e)];
      if e == Entry {
        lastSeq := targetSeq;
        var status := SetBothAngles(target);
      } else if e == User(Directions) {
        if lastSeq != targetSeq {
          lastSeq := targetSeq;
          var status := SetBothAngles(target);
        }
      } else if e == User(ScanEvent) {
        TransitionTo(ScanState);
      }
    }

    /** `util_fsm_transition`; no entry here transitions. */
    method TransitionTo(next: State)
      requires Settles(HANDLER, RANK) && Ready()
      modifies this
      ensures Now() == Transition(HANDLER, RANK, old(Now()), next)
      decreases 0, 2
    {
      TransitionAsSends(HANDLER, RANK, Now(), next);
      HandleEvent(Exit);
      currentState := next;
      HandleEvent(Entry);
    }
  }

  /** Wherever a run has left the scan registers, at most 1008 successful scan
      calls bring the sweep home. */
  lemma ReachableComesHome(o: ServoObject) returns (calls: nat)
    requires o.Valid()
    ensures 0 < calls <= 1008 && After(SERVO_RANGE, o.scan, calls) == Home(SERVO_RANGE)
  {
    calls := ComesHome(o.scan);
  }
}
