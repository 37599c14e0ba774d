/** The read/retry protocol the distance sensor and the GPS receiver share, seen
    from outside: between two events the object rests in its idle or its read
    state.  Modules Distance and Gps prove that their nested state handlers
    implement this protocol; here it is proved what any run of it guarantees,
    whatever stale or duplicate events arrive. */
module ReadCycle {
  import opened Options

  const RETRY_MAX := 3

  /** How a sensor judges a frame against the last sensor time, and the sensor
      time a frame carries. */
  datatype Sensor<!F> = Sensor(accepts: (F, nat) -> bool, stamp: F -> nat)

  /** The stale-response guard: an accepted frame carries a new sensor time. */
  ghost predicate Guards<F(!new)>(s: Sensor<F>) {
    forall f, t :: s.accepts(f, t) ==> s.stamp(f) != t
  }

  datatype Phase = Idle | Read

  datatype Cycle<F> = Cycle(phase: Phase, retry: nat, armed: bool, valid: bool, published: Option<F>, time: nat)

  /** The events of the object's queue, of which a reception comes with whatever
      the receive buffer holds when it is handled; and the expiry of the one-shot
      timer, whose handler posts TIMEOUT to that queue, where it may be refused. */
  datatype Input<F> = ReadRequest | Timeout | FrameReceived(frame: F) | Expiry | Other

  datatype Effect<F> = Started | ReadEntered | TimeoutPosted | Accepted(frame: F) | GaveUp

  function Initial<F>(): Cycle<F> {
    Cycle(Idle, 0, false, false, None, 0)
  }

  function Retry<F>(c: Cycle<F>): (Cycle<F>, seq<Effect<F>>) {
    if c.retry + 1 < RETRY_MAX then (c.(retry := c.retry + 1, armed := true), [ReadEntered])
    else (c.(phase := Idle, retry := 0, armed := false, valid := false), [GaveUp])
  }

  function Step<F>(s: Sensor<F>, c: Cycle<F>, input: Input<F>): (Cycle<F>, seq<Effect<F>>) {
    match (c.phase, input)
    case (Idle, ReadRequest) => (c.(phase := Read, armed := true), [Started, ReadEntered])
    case (Read, Timeout) => Retry(c)
    case (Read, FrameReceived(f)) =>
      if s.accepts(f, c.time) then
        (Cycle(Idle, 0, false, true, Some(f), s.stamp(f)), [Accepted(f)])
      else Retry(c)
    case (_, Expiry) => if c.armed then (c.(armed := false), [TimeoutPosted]) else (c, [])
    case _ => (c, [])
  }

  // ---------------------------------------------------------- commands issued

  datatype Command = WriteRequest | SubmitRead | AbortTransfers | ArmTimer | DisarmTimer

  const ENTER_READ: seq<Command> := [WriteRequest, SubmitRead, ArmTimer]

  /** What a step tells the UART and the timer: a timeout aborts the transfers in
      flight, leaving read disarms the timer, entering it sends the request,
      posts the read and arms the timer. */
  function Commands<F>(c: Cycle<F>, input: Input<F>, effects: seq<Effect<F>>): seq<Command> {
    (if c.phase == Read && input == Timeout then [AbortTransfers] else [])
    + (if c.phase == Read && effects != [] && input != Expiry then [DisarmTimer] else [])
    + (if effects != [] && effects[|effects| - 1] == ReadEntered then ENTER_READ else [])
  }

  /** The object after a run, and everything it did on the way. */
  function Run<F>(s: Sensor<F>, inputs: seq<Input<F>>): (Cycle<F>, seq<Effect<F>>) {
    if inputs == [] then (Initial(), [])
    else
      var (c, done) := Run(s, inputs[..|inputs| - 1]);
      var (c', more) := Step(s, c, inputs[|inputs| - 1]);
      (c', done + more)
  }

  lemma RunSnoc<F>(s: Sensor<F>, inputs: seq<Input<F>>, input: Input<F>)
    ensures var (c, done) := Run(s, inputs);
      var (c', more) := Step(s, c, input);
      Run(s, inputs + [input]) == (c', done + more)
  {
    assert (inputs + [input])[..|inputs|] == inputs;
  }

  // ---------------------------------------------- reading a history of effects

  /** The read-state entries since the last accepted READ. */
  function Entries<F>(trace: seq<Effect<F>>): nat {
    if trace == [] then 0
    else
      var before := trace[..|trace| - 1];
      match trace[|trace| - 1]
      case Started => 0
      case ReadEntered => 1 + Entries(before)
      case _ => Entries(before)
  }

  /** How the last completed read cycle ended. */
  function LastOutcome<F>(trace: seq<Effect<F>>): Option<Effect<F>> {
    if trace == [] then None
    else if trace[|trace| - 1].Accepted? || trace[|trace| - 1].GaveUp? then Some(trace[|trace| - 1])
    else LastOutcome(trace[..|trace| - 1])
  }

  /** The frames accepted, in order. */
  function AcceptedFrames<F>(trace: seq<Effect<F>>): seq<F> {
    if trace == [] then []
    else
      var before := AcceptedFrames(trace[..|trace| - 1]);
      if trace[|trace| - 1].Accepted? then before + [trace[|trace| - 1].frame] else before
  }

  /** READs accepted minus cycles ended. */
  function Open<F>(trace: seq<Effect<F>>): int {
    if trace == [] then 0
    else
      var step := match trace[|trace| - 1] { case Started => 1 case Accepted(_) => -1 case GaveUp => -1 case _ => 0 };
      Open(trace[..|trace| - 1]) + step
  }

  /** The timer has run out since it was last armed. */
  function RanOut<F>(trace: seq<Effect<F>>): bool {
    if trace == [] then false
    else
      match trace[|trace| - 1]
      case ReadEntered => false
      case TimeoutPosted => true
      case _ => RanOut(trace[..|trace| - 1])
  }

  // ------------------------------------------------------------- guarantees

  /** At rest: a clear retry count and a disarmed timer in idle; in read, fewer
      retries than the limit, one more read entry than retries since the READ, and
      a timer that is armed until it has run out since the last entry. */
  ghost predicate AtRest<F>(c: Cycle<F>, trace: seq<Effect<F>>) {
    match c.phase
    case Idle => c.retry == 0 && !c.armed && Open(trace) == 0
    case Read =>
      && c.retry < RETRY_MAX && Open(trace) == 1 && Entries(trace) == c.retry + 1
      && (c.armed <==> !RanOut(trace))
  }

  /** No READ costs more than three read entries, one is given up after exactly
      three, and cycles never overlap. */
  ghost predicate Bounded<F>(trace: seq<Effect<F>>) {
    forall k :: 0 <= k <= |trace| ==>
      && Entries(trace[..k]) <= RETRY_MAX
      && 0 <= Open(trace[..k]) <= 1
      && (k < |trace| && trace[k].GaveUp? ==> Entries(trace[..k]) == RETRY_MAX)
  }

  /** `valid` tells how the last completed cycle ended, and what is published
      (with its sensor time) is the last accepted frame. */
  ghost predicate Honest<F>(s: Sensor<F>, c: Cycle<F>, trace: seq<Effect<F>>) {
    && (c.valid <==> LastOutcome(trace).Some? && LastOutcome(trace).value.Accepted?)
    && (c.valid ==> c.published.Some? && LastOutcome(trace) == Some(Accepted(c.published.value)))
    && var frames := AcceptedFrames(trace);
    if frames == [] then c.published == None && c.time == 0
    else c.published == Some(frames[|frames| - 1]) && c.time == s.stamp(frames[|frames| - 1])
  }

  /** Consecutive accepted frames carry different sensor times; the first one
      differs from the zero the object starts with. */
  ghost predicate Fresh<F>(s: Sensor<F>, frames: seq<F>) {
    && (frames != [] ==> s.stamp(frames[0]) != 0)
    && forall k :: 0 < k < |frames| ==> s.stamp(frames[k]) != s.stamp(frames[k - 1])
  }

  ghost predicate Guarantee<F>(s: Sensor<F>, c: Cycle<F>, trace: seq<Effect<F>>) {
    AtRest(c, trace) && Bounded(trace) && Honest(s, c, trace) && Fresh(s, AcceptedFrames(trace))
  }

  lemma {:induction false} Snoc<F>(trace: seq<Effect<F>>, e: Effect<F>)
    ensures Entries(trace + [e])
         == if e.Started? then 0 else if e.ReadEntered? then 1 + Entries(trace) else Entries(trace)
    ensures LastOutcome(trace + [e]) == if e.Accepted? || e.GaveUp? then Some(e) else LastOutcome(trace)
    ensures AcceptedFrames(trace + [e]) == AcceptedFrames(trace) + (if e.Accepted? then [e.frame] else [])
    ensures Open(trace + [e]) == Open(trace) + (if e.Started? then 1 else if e.Accepted? || e.GaveUp? then -1 else 0)
    ensures RanOut(trace + [e]) == if e.ReadEntered? then false else e.TimeoutPosted? || RanOut(trace)
  {
    assert (trace + [e])[..|trace|] == trace;
  }

  lemma {:induction false} BoundedSnoc<F>(trace: seq<Effect<F>>, e: Effect<F>)
    requires Bounded(trace)
    requires Entries(trace + [e]) <= RETRY_MAX && 0 <= Open(trace + [e]) <= 1
    requires e.GaveUp? ==> Entries(trace) == RETRY_MAX
    ensures Bounded(trace + [e])
  {
    forall k | 0 <= k <= |trace| + 1
      ensures var t := trace + [e];
        && Entries(t[..k]) <= RETRY_MAX && 0 <= Open(t[..k]) <= 1
        && (k < |t| && t[k].GaveUp? ==> Entries(t[..k]) == RETRY_MAX)
    {
      if k <= |trace| {
        assert (trace + [e])[..k] == trace[..k];
        assert trace[..|trace|] == trace;
      } else {
        assert (trace + [e])[..k] == trace + [e];
      }
    }
  }

  /** A step's effects, one at a time. */
  lemma {:induction false} SnocStep<F>(s: Sensor<F>, c: Cycle<F>, trace: seq<Effect<F>>, input: Input<F>)
    ensures var more := Step(s, c, input).1;
      || (more == [] && trace + more == trace)
      || (more == [more[0]] && !more[0].Started?)
      || (more == [Started, ReadEntered] && trace + more == (trace + [Started]) + [ReadEntered])
  {
  }

  /** Starting a cycle keeps the bounds. */
  lemma {:induction false} StartRests<F>(c: Cycle<F>, trace: seq<Effect<F>>)
    requires AtRest(c, trace) && Bounded(trace) && c.phase == Idle
    ensures var more := [Started, ReadEntered];
      AtRest(c.(phase := Read, armed := true), trace + more) && Bounded(trace + more)
  {
    Snoc(trace, Started);
    assert trace[..|trace|] == trace;
    BoundedSnoc(trace, Started);
    Snoc(trace + [Started], ReadEntered);
    BoundedSnoc(trace + [Started], ReadEntered);
    assert trace + [Started, ReadEntered] == (trace + [Started]) + [ReadEntered];
  }

  /** A rejected frame or a timeout: another entry, or the end of the cycle. */
  lemma {:induction false} RetryRests<F>(c: Cycle<F>, trace: seq<Effect<F>>)
    requires AtRest(c, trace) && Bounded(trace) && c.phase == Read
    ensures var (c', more) := Retry(c); AtRest(c', trace + more) && Bounded(trace + more)
  {
    var e: Effect<F> := if c.retry + 1 < RETRY_MAX then ReadEntered else GaveUp;
    assert Retry(c).1 == [e];
    Snoc(trace, e);
    BoundedSnoc(trace, e);
  }

  lemma {:induction false} AcceptRests<F>(s: Sensor<F>, c: Cycle<F>, trace: seq<Effect<F>>, f: F)
    requires AtRest(c, trace) && Bounded(trace) && c.phase == Read
    ensures AtRest(Cycle(Idle, 0, false, true, Some(f), s.stamp(f)), trace + [Accepted(f)])
    ensures Bounded(trace + [Accepted(f)])
  {
    AtRestNow(c, trace);
    Snoc(trace, Accepted(f));
    BoundedSnoc(trace, Accepted(f));
  }

  lemma {:induction false} ExpiryRests<F>(c: Cycle<F>, trace: seq<Effect<F>>)
    requires AtRest(c, trace) && Bounded(trace) && c.armed
    ensures AtRest(c.(armed := false), trace + [TimeoutPosted]) && Bounded(trace + [TimeoutPosted])
  {
    AtRestNow(c, trace);
    Snoc(trace, TimeoutPosted);
    BoundedSnoc(trace, TimeoutPosted);
  }

  /** The bounds of a whole history. */
  lemma AtRestNow<F>(c: Cycle<F>, trace: seq<Effect<F>>)
    requires AtRest(c, trace) && Bounded(trace)
    ensures Entries(trace) <= RETRY_MAX && 0 <= Open(trace) <= 1
  {
    assert trace[..|trace|] == trace;
  }

  lemma {:induction false} StepRests<F>(s: Sensor<F>, c: Cycle<F>, trace: seq<Effect<F>>, input: Input<F>)
    requires AtRest(c, trace) && Bounded(trace)
    ensures var (c', more) := Step(s, c, input); AtRest(c', trace + more) && Bounded(trace + more)
  {
    assert trace + [] == trace;
    if c.phase == Idle && input == ReadRequest {
      StartRests(c, trace);
    } else if c.phase == Read && input == Timeout {
      RetryRests(c, trace);
    } else if c.phase == Read && input.FrameReceived? {
      if s.accepts(input.frame, c.time) {
        AcceptRests(s, c, trace, input.frame);
      } else {
        RetryRests(c, trace);
      }
    } else if input == Expiry && c.armed {
      ExpiryRests(c, trace);
    } else {
      assert Step(s, c, input) == (c, []);
    }
  }

  lemma {:induction false} AcceptHonest<F>(s: Sensor<F>, c: Cycle<F>, trace: seq<Effect<F>>, f: F)
    requires Honest(s, c, trace) && Fresh(s, AcceptedFrames(trace)) && s.stamp(f) != c.time
    ensures Honest(s, Cycle(Idle, 0, false, true, Some(f), s.stamp(f)), trace + [Accepted(f)])
    ensures Fresh(s, AcceptedFrames(trace + [Accepted(f)]))
  {
    Snoc(trace, Accepted(f));
    var before := AcceptedFrames(trace);
    var after := before + [f];
    assert AcceptedFrames(trace + [Accepted(f)]) == after;
    forall k | 0 < k < |after|
      ensures s.stamp(after[k]) != s.stamp(after[k - 1])
    {
      if k < |before| {
        assert after[k] == before[k] && after[k - 1] == before[k - 1];
      }
    }
  }

  /** Effects other than an acceptance publish nothing. */
  lemma {:induction false} OtherEffects<F>(s: Sensor<F>, c: Cycle<F>, trace: seq<Effect<F>>, input: Input<F>)
    requires var more := Step(s, c, input).1; more == [] || !more[0].Accepted?
    ensures var more := Step(s, c, input).1;
      && AcceptedFrames(trace + more) == AcceptedFrames(trace)
      && LastOutcome(trace + more) == (if more == [GaveUp] then Some(GaveUp) else LastOutcome(trace))
  {
    var more := Step(s, c, input).1;
    SnocStep(s, c, trace, input);
    if more != [] {
      Snoc(trace, more[0]);
      if more[0].Started? {
        Snoc(trace + [Started], ReadEntered);
      }
    }
  }

  lemma StillHonest<F>(s: Sensor<F>, c: Cycle<F>, trace: seq<Effect<F>>, input: Input<F>)
    requires Honest(s, c, trace)
    requires var more := Step(s, c, input).1; more == [] || !more[0].Accepted?
    ensures var (c', more) := Step(s, c, input);
      Honest(s, c', trace + more) && AcceptedFrames(trace + more) == AcceptedFrames(trace)
  {
    OtherEffects(s, c, trace, input);
    var (c', more) := Step(s, c, input);
    assert c'.published == c.published && c'.time == c.time;
    assert c'.valid == (c.valid && more != [GaveUp]);
  }

  lemma StepHonest<F(!new)>(s: Sensor<F>, c: Cycle<F>, trace: seq<Effect<F>>, input: Input<F>)
    requires Guards(s) && Honest(s, c, trace) && Fresh(s, AcceptedFrames(trace))
    ensures var (c', more) := Step(s, c, input); Honest(s, c', trace + more) && Fresh(s, AcceptedFrames(trace + more))
  {
    if c.phase == Read && input.FrameReceived? && s.accepts(input.frame, c.time) {
      var f := input.frame;
      assert Step(s, c, input) == (Cycle(Idle, 0, false, true, Some(f), s.stamp(f)), [Accepted(f)]);
      AcceptHonest(s, c, trace, f);
    } else {
      StillHonest(s, c, trace, input);
    }
  }

  lemma StepGuarantee<F(!new)>(s: Sensor<F>, c: Cycle<F>, trace: seq<Effect<F>>, input: Input<F>)
    requires Guards(s) && Guarantee(s, c, trace)
    ensures var (c', more) := Step(s, c, input); Guarantee(s, c', trace + more)
  {
    StepRests(s, c, trace, input);
    StepHonest(s, c, trace, input);
  }

  /** Whatever events arrive, in whatever order, the protocol keeps its word. */
  lemma {:induction false} AnyRun<F(!new)>(s: Sensor<F>, inputs: seq<Input<F>>)
    requires Guards(s)
    ensures Guarantee(s, Run(s, inputs).0, Run(s, inputs).1)
  {
    if inputs != [] {
      var before := inputs[..|inputs| - 1];
      AnyRun(s, before);
      StepGuarantee(s, Run(s, before).0, Run(s, before).1, inputs[|inputs| - 1]);
    }
  }

  /** Every frame a run accepts was acceptable against the time before it. */
  lemma {:induction false} OnlyAcceptable<F>(s: Sensor<F>, inputs: seq<Input<F>>)
    ensures forall f :: f in AcceptedFrames(Run(s, inputs).1) ==> exists t :: s.accepts(f, t)
  {
    if inputs != [] {
      var before := inputs[..|inputs| - 1];
      var input := inputs[|inputs| - 1];
      var (c, trace) := Run(s, before);
      OnlyAcceptable(s, before);
      SnocStep(s, c, trace, input);
      var more := Step(s, c, input).1;
      if more != [] {
        Snoc(trace, more[0]);
        if more[0].Started? {
          Snoc(trace + [more[0]], ReadEntered);
        } else if more[0].Accepted? {
          assert s.accepts(more[0].frame, c.time);
        }
      }
    }
  }
}
