/** Starting and stopping a stream (pi-streaming/main.c, process_manager.c):
    which of the detector and FFmpeg are told what, for any order of app
    connects and disconnects, loss of the detector, end of playback, and
    FFmpeg's death at any moment. */
module Lifecycle {
  import opened Options

  const MAX_FFMPEG_TRIES := 4

  /** The managed FFmpeg process, and the FFmpeg processes actually alive. */
  datatype Pm = Pm(pid: nat, running: bool, children: set<nat>)

  datatype Action =
    | Start(sent: bool)  // START to the detector, and whether the send succeeded
    | Stop(sent: bool)
    | Ready              // stream_ready to the app

  /** `fifo` is whether the video path is now a FIFO, `trace` what was sent. */
  datatype App = App(fifo: bool, python: bool, android: bool, streaming: bool, pm: Pm, trace: seq<Action>)

  /** One try at FFmpeg: the pid forked, if any, and whether it outlives its probe. */
  datatype Attempt = Attempt(fork: Option<nat>, survives: bool)

  /** How the system calls and sends of one start turn out. */
  datatype World = World(unlink: bool, mkfifo: bool, start: bool, stop: bool, attempts: seq<Attempt>)

  predicate Sound(w: World) {
    |w.attempts| == MAX_FFMPEG_TRIES
    && forall k :: 0 <= k < |w.attempts| && w.attempts[k].fork.Some? ==> w.attempts[k].fork.value > 0
  }

  // ------------------------------------------------------ process manager

  const IDLE := Pm(0, false, {})

  function StartPm(p: Pm, fork: Option<nat>): Pm {
    if p.running || fork.None? then p else Pm(fork.value, true, p.children + {fork.value})
  }

  /** Terminated or killed, the managed process is gone. */
  function StopPm(p: Pm): Pm {
    if !p.running || p.pid == 0 then p else Pm(0, false, p.children - {p.pid})
  }

  /** `kill(pid, 0)` tells whether the process has exited by itself. */
  function CheckPm(p: Pm): Pm {
    if p.pid > 0 && p.pid !in p.children then Pm(0, false, p.children) else p
  }

  function Exited(p: Pm): Pm {
    p.(children := p.children - {p.pid})
  }

  // ---------------------------------------------------------- the streams

  function Said(s: App, a: Action): App {
    s.(trace := s.trace + [a])
  }

  function Cleared(p: Pm): Pm {
    if CheckPm(p).running then StopPm(CheckPm(p)) else CheckPm(p)
  }

  /** One try at starting FFmpeg: START goes out with the first, and the try
      succeeds only if FFmpeg is still alive after its probe; no verdict means
      try again. */
  function Try(s: App, w: World, attempt: nat): (App, Option<bool>)
    requires Sound(w) && 1 <= attempt <= MAX_FFMPEG_TRIES
  {
    var try := w.attempts[attempt - 1];
    var started := s.(pm := StartPm(s.pm, try.fork));
    if !s.pm.running && try.fork.None? then (Said(started, Stop(w.stop)), Some(false))
    else if attempt == 1 && !w.start then (Said(started, Start(false)).(pm := StopPm(started.pm)), Some(false))
    else
      var told := if attempt == 1 then Said(started, Start(true)) else started;
      var probed := told.(pm := CheckPm(if try.survives then told.pm else Exited(told.pm)));
      if probed.pm.running then (probed.(streaming := true), Some(true)) else (probed, None)
  }

  /** The tries from `attempt` on. */
  function Tries(s: App, w: World, attempt: nat): (App, bool)
    requires Sound(w) && 1 <= attempt <= MAX_FFMPEG_TRIES + 1
    decreases MAX_FFMPEG_TRIES + 1 - attempt
  {
    if attempt > MAX_FFMPEG_TRIES then (Said(s, Stop(w.stop)), false)
    else
      var (next, verdict) := Try(s, w, attempt);
      if verdict.Some? then (next, verdict.value) else Tries(next, w, attempt + 1)
  }

  function StartCamera(s: App, w: World): (App, bool)
    requires Sound(w)
  {
    if s.streaming then (s, true)
    else if !s.python then (s, false)
    else if !w.mkfifo then
      // nobody looks at what unlink answered: where it failed the old FIFO is still there
      (s.(pm := Cleared(s.pm), fifo := !w.unlink), false)
    else Tries(s.(pm := Cleared(s.pm), fifo := true), w, 1)
  }

  function StartFile(s: App, w: World): (App, bool)
    requires Sound(w)
  {
    if s.streaming then (s, true)
    else if !s.python then (s, false)
    else
      var cleared := s.(pm := Cleared(s.pm));
      if !w.start then (Said(cleared, Start(false)), false)
      else
        var told := Said(cleared, Start(true));
        var try := w.attempts[0];
        if !told.pm.running && try.fork.None? then (Said(told, Stop(w.stop)), false)
        else
          var pm := StartPm(told.pm, try.fork);
          (told.(pm := if try.survives then pm else Exited(pm), streaming := true), true)
  }

  datatype Event =
    | Connect(world: World)
    | Disconnect(stop: bool)
    | DetectorLost
    | Tick(stop: bool)
    | FfmpegDies

  function OnConnect(s: App, w: World): App
    requires Sound(w)
  {
    var here := s.(android := true);
    if !here.python then here
    else
      var (after, ok) := if here.fifo then StartCamera(here, w) else StartFile(here, w);
      if ok then Said(after, Ready) else after
  }

  /** Stop a file stream: STOP if the detector is there, then FFmpeg. */
  function OnDisconnect(s: App, stop: bool): App {
    var gone := s.(android := false);
    if gone.fifo || !gone.streaming then gone
    else
      var told := if gone.python then Said(gone, Stop(stop)) else gone;
      told.(pm := StopPm(told.pm), streaming := false)
  }

  function OnLost(s: App): App {
    var gone := s.(python := false);
    if gone.streaming then gone.(pm := StopPm(gone.pm), streaming := false) else gone
  }

  /** The check at the end of each turn of the main loop. */
  function OnTick(loops: bool, s: App, stop: bool): App {
    if !s.streaming || loops || s.fifo then s
    else
      var checked := s.(pm := CheckPm(s.pm));
      if checked.pm.running then checked
      else (if checked.python then Said(checked, Stop(stop)) else checked).(streaming := false)
  }

  predicate SoundEvent(e: Event) {
    e.Connect? ==> Sound(e.world)
  }

  function Step(loops: bool, s: App, e: Event): App
    requires SoundEvent(e)
  {
    match e
    case Connect(w) => OnConnect(s, w)
    case Disconnect(stop) => OnDisconnect(s, stop)
    case DetectorLost => OnLost(s)
    case Tick(stop) => OnTick(loops, s, stop)
    case FfmpegDies => s.(pm := Exited(s.pm))
  }

  /** The detector has connected; a camera is started at once. */
  function Boot(fifo: bool, w: World): App
    requires Sound(w)
  {
    var s := App(fifo, true, false, false, IDLE, []);
    if fifo then StartCamera(s, w).0 else s
  }

  // ------------------------------------------------------------ invariants

  /** The detector was told to start and no STOP has been tried since. */
  function Told(trace: seq<Action>): bool {
    if trace == [] then false
    else
      var last := trace[|trace| - 1];
      if last.Start? && last.sent then true else if last.Stop? then false else Told(trace[..|trace| - 1])
  }

  /** No START is delivered while the detector is told already. */
  ghost predicate Separated(trace: seq<Action>) {
    trace == [] ||
    var n := |trace| - 1;
    Separated(trace[..n]) && (trace[n] == Start(true) ==> !Told(trace[..n]))
  }

  /** At most the managed process is alive. */
  ghost predicate Managed(p: Pm) {
    (p.running <==> p.pid > 0) && p.children <= (if p.running then {p.pid} else {})
  }

  ghost predicate Good(s: App) {
    && Managed(s.pm)
    && Separated(s.trace)
    && (s.pm.running ==> s.streaming)
    && (s.streaming ==> s.python)
    && (s.streaming && !s.fifo ==> s.android)
    && (s.python ==> (Told(s.trace) <==> s.streaming))
  }

  lemma SaidTold(s: App, a: Action)
    ensures Told(Said(s, a).trace) == if a == Start(true) then true else if a.Stop? then false else Told(s.trace)
    ensures Separated(Said(s, a).trace) <==> Separated(s.trace) && (a == Start(true) ==> !Told(s.trace))
  {
    assert (s.trace + [a])[..|s.trace|] == s.trace;
  }

  /** Good but for FFmpeg, which a start in progress has not verified yet. */
  ghost predicate Starting(s: App, attempt: nat) {
    && Managed(s.pm) && !s.pm.running && Separated(s.trace)
    && s.python && !s.streaming && (Told(s.trace) <==> attempt > 1)
  }

  /** One FFmpeg process from fork to death. */
  lemma OneProcess(p: Pm, pid: nat)
    requires Managed(p) && !p.running && pid > 0
    ensures p == IDLE
    ensures var q := StartPm(p, Some(pid));
      q == Pm(pid, true, {pid}) && CheckPm(q) == q && StopPm(q) == IDLE && CheckPm(Exited(q)) == IDLE
  {
    assert {pid} - {pid} == {};
  }

  /** A try fails and gives up, finds FFmpeg alive, or leaves things as they were
      but for the START that went out. */
  function Outcome(s: App, w: World, attempt: nat): (App, Option<bool>)
    requires Sound(w) && 1 <= attempt <= MAX_FFMPEG_TRIES
  {
    var try := w.attempts[attempt - 1];
    var told := if attempt == 1 then Said(s, Start(w.start)) else s;
    if try.fork.None? then (Said(s, Stop(w.stop)), Some(false))
    else if attempt == 1 && !w.start then (told, Some(false))
    else if try.survives then
      (told.(pm := Pm(try.fork.value, true, {try.fork.value}), streaming := true), Some(true))
    else (told, None)
  }

  lemma TryOutcome(s: App, w: World, attempt: nat)
    requires Sound(w) && 1 <= attempt <= MAX_FFMPEG_TRIES && s.pm == IDLE
    ensures Try(s, w, attempt) == Outcome(s, w, attempt)
  {
    var fork := w.attempts[attempt - 1].fork;
    if fork.Some? {
      OneProcess(IDLE, fork.value);
    }
  }

  /** What a start is worth after a try. */
  ghost predicate Tried(s: App, next: App, verdict: Option<bool>, attempt: nat) {
    && next.fifo == s.fifo && next.python && next.android == s.android
    && (verdict == None ==> Starting(next, attempt + 1))
    && (verdict.Some? ==> Good(next) && verdict.value == next.streaming)
    && (verdict == Some(true) ==> next.pm.pid in next.pm.children)
  }

  lemma OutcomeGood(s: App, w: World, attempt: nat)
    requires Sound(w) && 1 <= attempt <= MAX_FFMPEG_TRIES && Starting(s, attempt) && s.fifo && s.pm == IDLE
    ensures var (next, verdict) := Outcome(s, w, attempt); Tried(s, next, verdict, attempt)
  {
    SaidTold(s, Start(w.start));
    SaidTold(s, Stop(w.stop));
  }

  lemma NothingManaged(p: Pm)
    requires Managed(p) && !p.running
    ensures p == IDLE
  {
  }

  lemma TryGood(s: App, w: World, attempt: nat)
    requires Sound(w) && 1 <= attempt <= MAX_FFMPEG_TRIES && Starting(s, attempt) && s.fifo
    ensures var (next, verdict) := Try(s, w, attempt); Tried(s, next, verdict, attempt)
  {
    NothingManaged(s.pm);
    TryOutcome(s, w, attempt);
    OutcomeGood(s, w, attempt);
  }

  /** What it is worth in the end: a live FFmpeg, or nothing running and STOP tried. */
  ghost predicate Ended(s: App, after: App, ok: bool) {
    && Good(after) && (ok <==> after.streaming) && (ok ==> after.pm.pid in after.pm.children)
    && after.fifo == s.fifo && after.android == s.android
  }

  lemma GivesUp(s: App, w: World)
    requires Sound(w) && Starting(s, MAX_FFMPEG_TRIES + 1)
    ensures var (after, ok) := Tries(s, w, MAX_FFMPEG_TRIES + 1); Ended(s, after, ok)
  {
    SaidTold(s, Stop(w.stop));
  }

  /** A verdict ends the start; without one it goes on from where the try left it. */
  lemma TriesNext(s: App, w: World, attempt: nat)
    requires Sound(w) && 1 <= attempt <= MAX_FFMPEG_TRIES && Starting(s, attempt) && s.fifo
    ensures var (next, verdict) := Try(s, w, attempt);
      var (after, ok) := Tries(s, w, attempt);
      if verdict.Some? then Ended(s, after, ok)
      else
        && Starting(next, attempt + 1) && next.fifo && next.android == s.android
        && (after, ok) == Tries(next, w, attempt + 1)
  {
    TryGood(s, w, attempt);
  }

  lemma {:induction false} TriesGood(s: App, w: World, attempt: nat, after: App, ok: bool)
    requires Sound(w) && 1 <= attempt <= MAX_FFMPEG_TRIES + 1 && Starting(s, attempt) && s.fifo
    requires Tries(s, w, attempt) == (after, ok)
    ensures Ended(s, after, ok)
    decreases MAX_FFMPEG_TRIES + 1 - attempt
  {
    if attempt > MAX_FFMPEG_TRIES {
      GivesUp(s, w);
    } else {
      TriesNext(s, w, attempt);
      var (next, verdict) := Try(s, w, attempt);
      if verdict == None {
        TriesGood(next, w, attempt + 1, after, ok);
      }
    }
  }

  lemma StartCameraGood(s: App, w: World)
    requires Sound(w) && Good(s) && s.fifo
    ensures var (after, ok) := StartCamera(s, w);
      && Good(after) && (ok <==> after.streaming) && after.android == s.android
      && (ok && !s.streaming ==> after.pm.pid in after.pm.children)
  {
    if !s.streaming && s.python && w.mkfifo {
      var (after, ok) := StartCamera(s, w);
      TriesGood(s.(pm := Cleared(s.pm), fifo := true), w, 1, after, ok);
    }
  }

  /** Nothing runs once FFmpeg has been cleared away. */
  lemma ClearedIsIdle(p: Pm)
    requires Managed(p)
    ensures Cleared(p) == IDLE
  {
    if p.running && p.pid !in p.children {
      assert p.children == {};
    } else if p.running {
      assert p.children == {p.pid} && p.children - {p.pid} == {};
    }
  }

  /** Starting a file with nothing running: one START, one try, no probe. */
  function FileOutcome(s: App, w: World): (App, bool)
    requires Sound(w)
  {
    var try := w.attempts[0];
    var told := Said(s, Start(w.start));
    if !w.start then (told, false)
    else if try.fork.None? then (Said(told, Stop(w.stop)), false)
    else
      var pid := try.fork.value;
      (told.(pm := Pm(pid, true, if try.survives then {pid} else {}), streaming := true), true)
  }

  lemma FileStarts(s: App, w: World)
    requires Sound(w) && Managed(s.pm) && !s.streaming && s.python
    ensures StartFile(s, w) == FileOutcome(s.(pm := IDLE), w)
  {
    ClearedIsIdle(s.pm);
    var fork := w.attempts[0].fork;
    if fork.Some? {
      OneProcess(IDLE, fork.value);
      assert Exited(Pm(fork.value, true, {fork.value})) == Pm(fork.value, true, {});
    }
  }

  lemma FileOutcomeGood(s: App, w: World)
    requires Sound(w) && Good(s) && !s.streaming && s.python && s.android && s.pm == IDLE
    ensures var (after, ok) := FileOutcome(s, w); Good(after) && (ok <==> after.streaming)
  {
    SaidTold(s, Start(w.start));
    SaidTold(Said(s, Start(w.start)), Stop(w.stop));
  }

  lemma StartFileGood(s: App, w: World)
    requires Sound(w) && Good(s) && !s.fifo && s.android
    ensures var (after, ok) := StartFile(s, w); Good(after) && (ok <==> after.streaming)
  {
    if !s.streaming && s.python {
      FileStarts(s, w);
      FileOutcomeGood(s.(pm := IDLE), w);
    }
  }

  lemma ConnectGood(s: App, w: World)
    requires Sound(w) && Good(s)
    ensures Good(OnConnect(s, w))
  {
    var here := s.(android := true);
    if here.python {
      if here.fifo {
        StartCameraGood(here, w);
        SaidTold(StartCamera(here, w).0, Ready);
      } else {
        StartFileGood(here, w);
        SaidTold(StartFile(here, w).0, Ready);
      }
    }
  }

  lemma DisconnectGood(s: App, stop: bool)
    requires Good(s)
    ensures Good(OnDisconnect(s, stop))
  {
    SaidTold(s.(android := false), Stop(stop));
  }

  lemma LostGood(s: App)
    requires Good(s)
    ensures Good(OnLost(s))
  {
  }

  lemma TickGood(loops: bool, s: App, stop: bool)
    requires Good(s)
    ensures Good(OnTick(loops, s, stop))
  {
    SaidTold(s.(pm := CheckPm(s.pm)), Stop(stop));
  }

  lemma StepGood(loops: bool, s: App, e: Event)
    requires SoundEvent(e) && Good(s)
    ensures Good(Step(loops, s, e))
  {
    match e
    case Connect(w) => ConnectGood(s, w);
    case Disconnect(stop) => DisconnectGood(s, stop);
    case DetectorLost => LostGood(s);
    case Tick(stop) => TickGood(loops, s, stop);
    case FfmpegDies =>
  }

  // ------------------------------------------------------------- over runs

  function Run(fifo: bool, loops: bool, boot: World, events: seq<Event>): (s: App)
    requires Sound(boot) && forall k :: 0 <= k < |events| ==> SoundEvent(events[k])
    ensures Good(s)
  {
    if events == [] then
      assert Good(App(fifo, true, false, false, IDLE, []));
      StartCameraGood(App(true, true, false, false, IDLE, []), boot);
      Boot(fifo, boot)
    else
      var before := Run(fifo, loops, boot, events[..|events| - 1]);
      StepGood(loops, before, events[|events| - 1]);
      Step(loops, before, events[|events| - 1])
  }

  /** In every run: at most one FFmpeg is alive, it is the managed one, and only
      while streaming; streaming needs the detector, and for a file the app. */
  lemma AtMostOneFfmpeg(fifo: bool, loops: bool, boot: World, events: seq<Event>)
    requires Sound(boot) && forall k :: 0 <= k < |events| ==> SoundEvent(events[k])
    ensures var s := Run(fifo, loops, boot, events);
      && |s.pm.children| <= 1
      && (s.pm.children != {} ==> s.pm.children == {s.pm.pid} && s.streaming)
      && (s.streaming ==> s.python && (s.fifo || s.android))
  {
    var s := Run(fifo, loops, boot, events);
    if s.pm.children != {} {
      assert s.pm.pid in s.pm.children;
      assert s.pm.children == {s.pm.pid};
    }
  }

  /** The last START before `j` is followed by a STOP, or else still stands. */
  lemma {:induction false} ToldUnlessStopped(trace: seq<Action>, i: nat)
    requires i < |trace| && trace[i] == Start(true)
    ensures Told(trace) || exists k :: i < k < |trace| && trace[k].Stop?
  {
    var n := |trace| - 1;
    if i < n && !trace[n].Stop? && trace[n] != Start(true) {
      ToldUnlessStopped(trace[..n], i);
      if !Told(trace[..n]) {
        var k :| i < k < n && trace[..n][k].Stop?;
        assert trace[k].Stop?;
      }
    }
  }

  lemma {:induction false} SeparatedPrefix(trace: seq<Action>, j: nat)
    requires Separated(trace) && j < |trace|
    ensures Separated(trace[..j]) && (trace[j] == Start(true) ==> !Told(trace[..j]))
  {
    var n := |trace| - 1;
    if j < n {
      SeparatedPrefix(trace[..n], j);
      assert trace[..n][..j] == trace[..j];
    }
  }

  /** In every run, no two STARTs are delivered without a STOP tried in between. */
  lemma StartsSeparated(fifo: bool, loops: bool, boot: World, events: seq<Event>, i: nat, j: nat)
    requires Sound(boot) && forall k :: 0 <= k < |events| ==> SoundEvent(events[k])
    requires var trace := Run(fifo, loops, boot, events).trace;
      i < j < |trace| && trace[i] == trace[j] == Start(true)
    ensures var trace := Run(fifo, loops, boot, events).trace;
      exists k :: i < k < j && trace[k].Stop?
  {
    var trace := Run(fifo, loops, boot, events).trace;
    SeparatedPrefix(trace, j);
    ToldUnlessStopped(trace[..j], i);
    var k :| i < k < j && trace[..j][k].Stop?;
    assert trace[k].Stop?;
  }

  /** What the detector has heard last: START, rather than STOP or nothing. */
  function Heard(trace: seq<Action>): bool {
    if trace == [] then false
    else if Delivers(trace[|trace| - 1]) then trace[|trace| - 1].Start?
    else Heard(trace[..|trace| - 1])
  }

  /** A command that reached the detector. */
  predicate Delivers(a: Action) {
    a == Start(true) || a == Stop(true)
  }

  /** The STOP at `k` failed to be sent to a detector that had been started, and
      it has heard nothing since. */
  ghost predicate LostStop(trace: seq<Action>, k: nat) {
    && k < |trace| && trace[k] == Stop(false) && Heard(trace[..k])
    && forall m :: k < m < |trace| ==> !Delivers(trace[m])
  }

  lemma {:induction false} LostStopIsHeard(trace: seq<Action>, k: nat)
    requires LostStop(trace, k)
    ensures Heard(trace)
  {
    var n := |trace| - 1;
    if k < n {
      assert trace[..n][..k] == trace[..k];
      LostStopIsHeard(trace[..n], k);
    }
  }

  lemma {:induction false} HeardNotTold(trace: seq<Action>) returns (k: nat)
    requires Heard(trace) && !Told(trace)
    ensures LostStop(trace, k)
  {
    var n := |trace| - 1;
    if trace[n] == Stop(false) {
      k := n;
    } else {
      k := HeardNotTold(trace[..n]);
      assert trace[..n][..k] == trace[..k];
    }
  }

  /** In every run, a START is delivered to a detector that has already heard one,
      with no STOP since, exactly when the last STOP tried failed to be sent. */
  lemma HearsTwoStartsIff(fifo: bool, loops: bool, boot: World, events: seq<Event>, j: nat)
    requires Sound(boot) && forall k :: 0 <= k < |events| ==> SoundEvent(events[k])
    requires var trace := Run(fifo, loops, boot, events).trace; j < |trace| && trace[j] == Start(true)
    ensures var heard := Run(fifo, loops, boot, events).trace[..j];
      Heard(heard) <==> exists k :: LostStop(heard, k)
  {
    var trace := Run(fifo, loops, boot, events).trace;
    var heard := trace[..j];
    SeparatedPrefix(trace, j);
    if Heard(heard) {
      var k := HeardNotTold(heard);
    }
    if k :| LostStop(heard, k) {
      LostStopIsHeard(heard, k);
    }
  }

  /** What a step sends. */
  function Sent(loops: bool, s: App, e: Event): seq<Action>
    requires SoundEvent(e) && s.trace <= Step(loops, s, e).trace
  {
    Step(loops, s, e).trace[|s.trace|..]
  }

  lemma TrySends(s: App, w: World, attempt: nat)
    requires Sound(w) && 1 <= attempt <= MAX_FFMPEG_TRIES
    ensures var next := Try(s, w, attempt).0.trace; next == s.trace || exists a :: a != Ready && next == s.trace + [a]
  {
  }

  lemma {:induction false} TriesSend(s: App, w: World, attempt: nat)
    requires Sound(w) && 1 <= attempt <= MAX_FFMPEG_TRIES + 1
    ensures var after := Tries(s, w, attempt).0.trace;
      s.trace <= after && forall k :: |s.trace| <= k < |after| ==> after[k] != Ready
    decreases MAX_FFMPEG_TRIES + 1 - attempt
  {
    if attempt <= MAX_FFMPEG_TRIES {
      TrySends(s, w, attempt);
      var (next, verdict) := Try(s, w, attempt);
      if verdict == None {
        TriesSend(next, w, attempt + 1);
      }
    }
  }

  /** Nothing but Ready is news to the app: `after` says more than `s`, but not that. */
  ghost predicate Quiet(s: App, after: App) {
    s.trace <= after.trace && forall k :: |s.trace| <= k < |after.trace| ==> after.trace[k] != Ready
  }

  lemma CameraSends(s: App, w: World)
    requires Sound(w)
    ensures Quiet(s, StartCamera(s, w).0)
  {
    if !s.streaming && s.python && w.mkfifo {
      TriesSend(s.(pm := Cleared(s.pm), fifo := true), w, 1);
    }
  }

  lemma FileSends(s: App, w: World)
    requires Sound(w)
    ensures Quiet(s, StartFile(s, w).0)
  {
  }

  lemma ConnectSends(s: App, w: World)
    requires Sound(w) && Good(s)
    ensures s.trace <= OnConnect(s, w).trace
    ensures Ready in OnConnect(s, w).trace[|s.trace|..] <==> OnConnect(s, w).streaming
  {
    var here := s.(android := true);
    if here.python {
      if here.fifo {
        StartCameraGood(here, w);
        CameraSends(here, w);
      } else {
        StartFileGood(here, w);
        FileSends(here, w);
      }
      var (after, ok) := if here.fifo then StartCamera(here, w) else StartFile(here, w);
      assert Quiet(here, after) && (ok <==> after.streaming);
      assert ok ==> OnConnect(s, w).trace[|after.trace|] == Ready;
    }
  }

  /** `stream_ready` is sent exactly when an app connects and the stream is then
      active. */
  lemma ReadyIff(loops: bool, s: App, e: Event)
    requires SoundEvent(e) && Good(s)
    ensures s.trace <= Step(loops, s, e).trace
    ensures Ready in Sent(loops, s, e) <==> e.Connect? && Step(loops, s, e).streaming
  {
    if e.Connect? {
      ConnectSends(s, e.world);
    }
  }

  predicate Publishing(s: App) {
    s.pm.pid in s.pm.children
  }

  /** When the app is told a stream is ready, FFmpeg is publishing it exactly if:
      it already was, where the stream was taken to be active; otherwise, for a
      camera, always, since the start verified it; and for a file, when it survives
      its start, which is not checked. */
  lemma ReadyIsPublishedIff(loops: bool, s: App, w: World)
    requires Sound(w) && Good(s) && Step(loops, s, Connect(w)).streaming
    ensures Publishing(Step(loops, s, Connect(w)))
       <==> if s.streaming then Publishing(s) else s.fifo || w.attempts[0].survives
  {
    var here := s.(android := true);
    if !s.streaming {
      assert here.python;
      if here.fifo {
        StartCameraGood(here, w);
      } else {
        StartFileGood(here, w);
        assert Cleared(here.pm) == IDLE;
        OneProcess(IDLE, w.attempts[0].fork.value);
      }
    }
  }

  /** A boot whose first try succeeds. */
  lemma CameraUp(w: World, pid: nat)
    requires Sound(w) && w.mkfifo && w.start && w.attempts[0] == Attempt(Some(pid), true)
    ensures Boot(true, w) == App(true, true, false, true, Pm(pid, true, {pid}), [Start(true)])
  {
    OneProcess(IDLE, pid);
    var s := App(true, true, false, false, IDLE, []);
    var told := Said(s.(pm := StartPm(IDLE, Some(pid))), Start(true));
    assert told == s.(pm := Pm(pid, true, {pid}), trace := [Start(true)]);
    assert Try(s, w, 1) == (told.(streaming := true), Some(true));
  }

  /** So a camera whose FFmpeg has died goes on being announced. */
  lemma ReadyWithNothingPublished(w: World, pid: nat)
    requires Sound(w) && w.mkfifo && w.start && w.attempts[0] == Attempt(Some(pid), true)
    ensures var s := Run(true, false, w, [FfmpegDies, Tick(true), Connect(w)]);
      s.trace == [Start(true), Ready] && s.streaming && s.pm.children == {}
  {
    var e := [FfmpegDies, Tick(true), Connect(w)];
    assert e[..2][..1][..0] == [] && e[..2][..1] == [FfmpegDies] && e[..2] == [FfmpegDies, Tick(true)];
    CameraUp(w, pid);
    var live := App(true, true, false, true, Pm(pid, true, {pid}), [Start(true)]);
    assert Run(true, false, w, e[..2][..1][..0]) == live;
    assert Run(true, false, w, e[..2][..1]) == live.(pm := Pm(pid, true, {}));
    assert Run(true, false, w, e[..2]) == live.(pm := Pm(pid, true, {}));
    assert Run(true, false, w, e) == Said(live.(android := true, pm := Pm(pid, true, {})), Ready);
  }

  /** A camera stays a camera except where a connect tries to start it again, the
      old FIFO is removed and mkfifo fails. */
  lemma StaysCameraIff(loops: bool, s: App, e: Event)
    requires SoundEvent(e) && Good(s) && s.fifo
    ensures Step(loops, s, e).fifo <==> !(e.Connect? && s.python && !s.streaming && e.world.unlink && !e.world.mkfifo)
  {
    if e.Connect? && s.python {
      var here := s.(android := true);
      if !here.streaming && e.world.mkfifo {
        var (after, ok) := StartCamera(here, e.world);
        TriesGood(here.(pm := Cleared(here.pm), fifo := true), e.world, 1, after, ok);
      }
    }
  }

  /** Such a run: at boot the FIFO is removed and mkfifo fails, and the app that
      connects then is served the path as a file. */
  lemma CameraBecomesFile(boot: World, w: World, pid: nat)
    requires Sound(boot) && boot.unlink && !boot.mkfifo
    requires Sound(w) && w.start && w.attempts[0] == Attempt(Some(pid), true)
    ensures Run(true, false, boot, [Connect(w)])
         == App(false, true, true, true, Pm(pid, true, {pid}), [Start(true), Ready])
  {
    var e := [Connect(w)];
    OneProcess(IDLE, pid);
    assert e[..0] == [] && Cleared(IDLE) == IDLE;
    assert Run(true, false, boot, e[..0]) == App(false, true, false, false, IDLE, []);
    assert Run(true, false, boot, e) == Step(false, App(false, true, false, false, IDLE, []), Connect(w));
    var told := Said(App(false, true, true, false, IDLE, []), Start(true));
    assert told.trace == [Start(true)];
    assert [Start(true)] + [Ready] == [Start(true), Ready];
  }

  /** In every run of a file that is not looped: a turn of the main loop leaves it
      streaming exactly if FFmpeg is still alive, and otherwise tries one STOP. */
  lemma TickNotices(boot: World, events: seq<Event>, stop: bool)
    requires Sound(boot) && forall k :: 0 <= k < |events| ==> SoundEvent(events[k])
    ensures var s := Run(false, false, boot, events);
      var t := Run(false, false, boot, events + [Tick(stop)]);
      && (t.streaming <==> s.streaming && s.pm.children == {s.pm.pid})
      && (t.streaming ==> t.pm.children == {t.pm.pid})
      && t.trace == if s.streaming && !t.streaming then s.trace + [Stop(stop)] else s.trace
  {
    var s := Run(false, false, boot, events);
    assert (events + [Tick(stop)])[..|events|] == events;
    assert Run(false, false, boot, events + [Tick(stop)]) == OnTick(false, s, stop);
    StaysFile(boot, events);
  }

  lemma FileStays(s: App, e: Event)
    requires SoundEvent(e) && !s.fifo
    ensures !Step(false, s, e).fifo
  {
  }

  lemma {:induction false} StaysFile(boot: World, events: seq<Event>)
    requires Sound(boot) && forall k :: 0 <= k < |events| ==> SoundEvent(events[k])
    ensures !Run(false, false, boot, events).fifo
  {
    if events != [] {
      var n := |events| - 1;
      var before := Run(false, false, boot, events[..n]);
      StaysFile(boot, events[..n]);
      FileStays(before, events[n]);
      assert Run(false, false, boot, events) == Step(false, before, events[n]);
    }
  }

  /** A STOP that fails to be sent is not tried again: the detector then hears two
      STARTs in a row. */
  lemma TwoStarts(w: World, pid: nat)
    requires Sound(w) && w.start && w.attempts[0] == Attempt(Some(pid), true)
    ensures Run(false, true, w, [Connect(w), Disconnect(false), Connect(w)]).trace
         == [Start(true), Ready, Stop(false), Start(true), Ready]
  {
    var e := [Connect(w), Disconnect(false), Connect(w)];
    assert e[..2][..1][..0] == [] && e[..2][..1] == [Connect(w)] && e[..2] == [Connect(w), Disconnect(false)];
    OneProcess(IDLE, pid);
    var first := App(false, true, false, false, IDLE, []);
    assert Run(false, true, w, e[..2][..1][..0]) == first;
    var up := App(false, true, true, true, Pm(pid, true, {pid}), [Start(true), Ready]);
    assert Run(false, true, w, e[..2][..1]) == up;
    assert Run(false, true, w, e[..2]) == App(false, true, false, false, IDLE, [Start(true), Ready, Stop(false)]);
  }

  // ---------------------------------------------------------- the program

  /** FFmpeg's part of the process manager; `alive` is the system's process table,
      which only fork and kill consult. */
  class ProcessManager {
    var ffmpegPid: nat
    var ffmpegRunning: bool
    var alive: set<nat>

    ghost function Abs(): Pm
      reads this
    {
      Pm(ffmpegPid, ffmpegRunning, alive)
    }

    constructor ()
      ensures Abs() == IDLE
    {
      ffmpegPid, ffmpegRunning, alive := 0, false, {};
    }

    method StartFfmpeg(fork: Option<nat>) returns (status: int)
      modifies this
      ensures Abs() == StartPm(old(Abs()), fork)
      ensures status == if old(ffmpegRunning) || fork.Some? then 0 else -1
    {
      if ffmpegRunning {
        return 0;
      }
      if fork.None? {
        return -1;
      }
      alive := alive + {fork.value};
      ffmpegPid, ffmpegRunning := fork.value, true;
      status := 0;
    }

    /** SIGTERM, up to 20 looks whether the process is gone, then SIGKILL; `exits`
        is the number of looks it takes to exit. */
    method StopFfmpeg(exits: nat)
      modifies this
      ensures Abs() == StopPm(old(Abs()))
    {
      if !ffmpegRunning || ffmpegPid <= 0 {
        return;
      }
      if ffmpegPid in alive {
        var waitCount := 0;
        while waitCount < 20
          invariant unchanged(this)
        {
          if waitCount == exits {
            alive := alive - {ffmpegPid};
            ffmpegPid, ffmpegRunning := 0, false;
            return;
          }
          waitCount := waitCount + 1;
        }
        alive := alive - {ffmpegPid};
      }
      assert alive == old(alive) - {ffmpegPid};
      ffmpegPid, ffmpegRunning := 0, false;
    }

    method CheckProcesses()
      modifies this
      ensures Abs() == CheckPm(old(Abs()))
    {
      if ffmpegPid > 0 && ffmpegPid !in alive {
        ffmpegPid, ffmpegRunning := 0, false;
      }
    }

    method IsFfmpegRunning() returns (running: bool)
      modifies this
      ensures Abs() == CheckPm(old(Abs())) && running == ffmpegRunning
    {
      CheckProcesses();
      running := ffmpegRunning;
    }

    /** FFmpeg exits by itself. */
    method Exits()
      modifies this
      ensures Abs() == Exited(old(Abs()))
    {
      alive := alive - {ffmpegPid};
    }
  }

  /** The application state, with the callbacks and loop checks that change it. */
  class Application {
    const pm: ProcessManager
    const loopVideo: bool
    var isFifo: bool
    var pythonConnected: bool
    var androidConnected: bool
    var streamingActive: bool
    ghost var trace: seq<Action>

    ghost function Abs(): App
      reads this, pm
    {
      App(isFifo, pythonConnected, androidConnected, streamingActive, pm.Abs(), trace)
    }

    /** The state in which the main loop is entered. */
    constructor (manager: ProcessManager, fifo: bool, loops: bool, w: World, exits: nat)
      requires Sound(w) && manager.Abs() == IDLE
      modifies manager
      ensures Abs() == Boot(fifo, w) && loopVideo == loops && pm == manager
    {
      pm, loopVideo, isFifo := manager, loops, fifo;
      pythonConnected, androidConnected, streamingActive := true, false, false;
      trace := [];
      new;
      if isFifo {
        var ok := StartCameraStream(w, exits);
      }
    }

    method Send(ghost a: Action)
      modifies this`trace
      ensures Abs() == Said(old(Abs()), a)
    {
      trace := trace + [a];
    }

    method ClearFfmpeg(exits: nat)
      modifies pm
      ensures pm.Abs() == Cleared(old(pm.Abs()))
    {
      var running := pm.IsFfmpegRunning();
      if running {
        pm.StopFfmpeg(exits);
      }
    }

    /** The body of the retry loop. */
    method TryFfmpeg(w: World, attempt: nat, exits: nat) returns (verdict: Option<bool>)
      requires Sound(w) && 1 <= attempt <= MAX_FFMPEG_TRIES
      modifies this`trace, this`streamingActive, pm
      ensures (Abs(), verdict) == Try(old(Abs()), w, attempt)
    {
      var status := pm.StartFfmpeg(w.attempts[attempt - 1].fork);
      if status != 0 {
        Send(Stop(w.stop));
        return Some(false);
      }
      if attempt == 1 {
        Send(Start(w.start));
        if !w.start {
          pm.StopFfmpeg(exits);
          return Some(false);
        }
      }
      if !w.attempts[attempt - 1].survives {
        pm.Exits();
      }
      var running := pm.IsFfmpegRunning();
      if running {
        streamingActive := true;
        return Some(true);
      }
      verdict := None;
    }

    method StartCameraStream(w: World, exits: nat) returns (ok: bool)
      requires Sound(w)
      modifies this`trace, this`streamingActive, this`isFifo, pm
      ensures (Abs(), ok) == StartCamera(old(Abs()), w)
    {
      if streamingActive {
        return true;
      }
      if !pythonConnected {
        return false;
      }
      ClearFfmpeg(exits);
      isFifo := !w.unlink || w.mkfifo;
      if !w.mkfifo {
        return false;
      }
      ghost var first := Abs();
      var attempt := 1;
      while attempt <= MAX_FFMPEG_TRIES
        invariant 1 <= attempt <= MAX_FFMPEG_TRIES + 1
        invariant Tries(Abs(), w, attempt) == Tries(first, w, 1)
      {
        var verdict := TryFfmpeg(w, attempt, exits);
        if verdict.Some? {
          return verdict.value;
        }
        attempt := attempt + 1;
      }
      Send(Stop(w.stop));
      ok := false;
    }

    method StartFileStream(w: World, exits: nat) returns (ok: bool)
      requires Sound(w)
      modifies this`trace, this`streamingActive, pm
      ensures (Abs(), ok) == StartFile(old(Abs()), w)
    {
      if streamingActive {
        return true;
      }
      if !pythonConnected {
        return false;
      }
      ClearFfmpeg(exits);
      Send(Start(w.start));
      if !w.start {
        return false;
      }
      var status := pm.StartFfmpeg(w.attempts[0].fork);
      if status != 0 {
        Send(Stop(w.stop));
        return false;
      }
      if !w.attempts[0].survives {
        pm.Exits();
      }
      streamingActive := true;
      ok := true;
    }

    method OnAndroidConnect(w: World, exits: nat)
      requires Sound(w)
      modifies this, pm
      ensures Abs() == Step(loopVideo, old(Abs()), Connect(w))
    {
      androidConnected := true;
      if !pythonConnected {
        return;
      }
      var ok;
      if isFifo {
        ok := StartCameraStream(w, exits);
      } else {
        ok := StartFileStream(w, exits);
      }
      if ok {
        Send(Ready);
      }
    }

    method OnAndroidDisconnect(stop: bool, exits: nat)
      modifies this, pm
      ensures Abs() == Step(loopVideo, old(Abs()), Disconnect(stop))
    {
      androidConnected := false;
      if !isFifo && streamingActive {
        if pythonConnected {
          Send(Stop(stop));
        }
        pm.StopFfmpeg(exits);
        streamingActive := false;
      }
    }

    /** The main loop finds the detector gone. */
    method OnDetectorLost(exits: nat)
      modifies this, pm
      ensures Abs() == Step(loopVideo, old(Abs()), DetectorLost)
    {
      pythonConnected := false;
      if streamingActive {
        pm.StopFfmpeg(exits);
        streamingActive := false;
      }
    }

    /** The playback check that ends each turn of the main loop. */
    method CheckPlayback(stop: bool)
      modifies this, pm
      ensures Abs() == Step(loopVideo, old(Abs()), Tick(stop))
    {
      if streamingActive && !loopVideo && !isFifo {
        pm.CheckProcesses();
        var running := pm.IsFfmpegRunning();
        if !running {
          if pythonConnected {
            Send(Stop(stop));
          }
          streamingActive := false;
        }
      }
    }
  }
}
