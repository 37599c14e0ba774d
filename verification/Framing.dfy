/** Newline framing of a byte stream, whatever pieces it arrives in
    (pi-streaming/unix_socket.c, ipc_client.py). */
module Framing {
  import opened Bytes

  const LF: Byte := 10
  const NUL: Byte := 0

  type Line = seq<Byte>

  /** Lines as they travel: each followed by a newline. */
  function Flatten(lines: seq<Line>): seq<Byte> {
    if lines == [] then [] else lines[0] + [LF] + Flatten(lines[1..])
  }

  /** Where `strchr` stops: at the first newline, at a NUL, or at the end. */
  function Stop(pending: seq<Byte>): (k: nat)
    ensures k <= |pending|
    ensures forall i :: 0 <= i < k ==> pending[i] != LF && pending[i] != NUL
    ensures k < |pending| ==> pending[k] == LF || pending[k] == NUL
  {
    if pending == [] || pending[0] == LF || pending[0] == NUL then 0 else 1 + Stop(pending[1..])
  }

  predicate HasLine(pending: seq<Byte>) {
    Stop(pending) < |pending| && pending[Stop(pending)] == LF
  }

  function FirstLine(pending: seq<Byte>): Line
    requires HasLine(pending)
  {
    pending[..Stop(pending)]
  }

  function AfterLine(pending: seq<Byte>): seq<Byte>
    requires HasLine(pending)
  {
    pending[Stop(pending) + 1..]
  }

  // ---------------------------------------------- reading, one call at a time

  /** What has been taken out of the stream and what is still buffered. */
  datatype Reader = Reader(lines: seq<Line>, pending: seq<Byte>)

  /** One call that got `chunk` (possibly nothing): at most one line comes out. */
  function Call(r: Reader, chunk: seq<Byte>): Reader {
    var p := r.pending + chunk;
    if HasLine(p) then Reader(r.lines + [FirstLine(p)], AfterLine(p)) else Reader(r.lines, p)
  }

  function Calls(r: Reader, chunks: seq<seq<Byte>>): Reader {
    if chunks == [] then r else Call(Calls(r, chunks[..|chunks| - 1]), chunks[|chunks| - 1])
  }

  function Concat(chunks: seq<seq<Byte>>): seq<Byte> {
    if chunks == [] then [] else Concat(chunks[..|chunks| - 1]) + chunks[|chunks| - 1]
  }

  lemma {:induction false} FlattenSnoc(lines: seq<Line>, line: Line)
    ensures Flatten(lines + [line]) == Flatten(lines) + line + [LF]
  {
    if lines == [] {
      assert lines + [line] == [line];
    } else {
      FlattenSnoc(lines[1..], line);
      assert (lines + [line])[1..] == lines[1..] + [line];
      assert lines[0] + [LF] + (Flatten(lines[1..]) + line + [LF]) == Flatten(lines) + line + [LF];
    }
  }

  lemma CallConserves(r: Reader, chunk: seq<Byte>)
    ensures var r' := Call(r, chunk); Flatten(r'.lines) + r'.pending == Flatten(r.lines) + r.pending + chunk
  {
    var p := r.pending + chunk;
    if HasLine(p) {
      FlattenSnoc(r.lines, FirstLine(p));
      assert p == FirstLine(p) + [LF] + AfterLine(p);
      assert Flatten(r.lines) + (FirstLine(p) + [LF] + AfterLine(p)) == Flatten(r.lines) + r.pending + chunk;
    } else {
      assert Flatten(r.lines) + p == Flatten(r.lines) + r.pending + chunk;
    }
  }

  /** For any stream and any split of it into calls, nothing is lost, added or
      reordered: the lines taken out, each with its newline, and then the buffer
      are the bytes received. */
  lemma {:induction false} CallsConserve(r: Reader, chunks: seq<seq<Byte>>)
    ensures var r' := Calls(r, chunks); Flatten(r'.lines) + r'.pending == Flatten(r.lines) + r.pending + Concat(chunks)
  {
    if chunks == [] {
      assert Concat(chunks) == [];
    } else {
      var before, last := chunks[..|chunks| - 1], chunks[|chunks| - 1];
      CallsConserve(r, before);
      CallConserves(Calls(r, before), last);
    }
  }

  /** Lines that hold no newline. */
  ghost predicate Plain(lines: seq<Line>) {
    forall k :: 0 <= k < |lines| ==> LF !in lines[k]
  }

  /** Lines as the reader takes them out: no newline and no NUL. */
  ghost predicate Clean(lines: seq<Line>) {
    forall k :: 0 <= k < |lines| ==> LF !in lines[k] && NUL !in lines[k]
  }

  lemma {:induction false} CallsClean(r: Reader, chunks: seq<seq<Byte>>)
    requires Clean(r.lines)
    ensures Clean(Calls(r, chunks).lines)
  {
    if chunks != [] {
      CallsClean(r, chunks[..|chunks| - 1]);
    }
  }

  // ------------------------------------------------- independence of the split

  /** A clean line with its newline is what the next call takes out. */
  lemma {:induction false} LineIsNext(line: Line, rest: seq<Byte>)
    requires LF !in line && NUL !in line
    ensures Stop(line + [LF] + rest) == |line| && HasLine(line + [LF] + rest)
  {
    var p := line + [LF] + rest;
    if line != [] {
      assert p[0] == line[0] && p[0] in line && p[1..] == line[1..] + [LF] + rest;
      LineIsNext(line[1..], rest);
    }
  }

  /** A stream reads one way only: two decompositions into clean lines and a rest
      that no call can take a line from agree; and any other has fewer lines. */
  lemma {:induction false} ReadsOneWay(a: seq<Line>, x: seq<Byte>, b: seq<Line>, y: seq<Byte>)
    requires Clean(a) && Clean(b) && !HasLine(x)
    requires Flatten(a) + x == Flatten(b) + y
    ensures b <= a
    ensures !HasLine(y) ==> a == b && x == y
    decreases b
  {
    assert a == [] ==> Flatten(a) + x == x;
    assert b == [] ==> Flatten(b) + y == y;
    assert a != [] ==> Flatten(a) + x == a[0] + [LF] + (Flatten(a[1..]) + x);
    assert b != [] ==> Flatten(b) + y == b[0] + [LF] + (Flatten(b[1..]) + y);
    if a != [] {
      LineIsNext(a[0], Flatten(a[1..]) + x);
    }
    if b != [] {
      LineIsNext(b[0], Flatten(b[1..]) + y);
    }
    if a != [] && b != [] {
      FirstCut(a[0], Flatten(a[1..]) + x, b[0], Flatten(b[1..]) + y);
      ReadsOneWay(a[1..], x, b[1..], y);
    }
  }

  /** The first newline of a stream ends its first line. */
  lemma FirstCut(a: Line, x: seq<Byte>, b: Line, y: seq<Byte>)
    requires LF !in a && LF !in b && a + [LF] + x <= b + [LF] + y
    ensures a == b && x <= y
    ensures a + [LF] + x == b + [LF] + y ==> x == y
  {
    var s := b + [LF] + y;
    assert s[|a|] == (a + [LF] + x)[|a|] == LF && s[|b|] == LF;
    assert forall i :: 0 <= i < |b| ==> s[i] == b[i] != LF;
    assert forall i :: 0 <= i < |a| ==> s[i] == (a + [LF] + x)[i] == a[i] != LF;
    assert |a| == |b| && a == s[..|a|] && b == s[..|b|];
    assert x == (a + [LF] + x)[|a| + 1..] && y == s[|a| + 1..];
  }

  /** Framing is independent of chunking: however the same bytes arrive, two
      readers that have both been drained have taken out the same lines and buffer
      the same rest; one that has not been drained yet has a prefix. */
  lemma ChunkingIndependent(one: seq<seq<Byte>>, two: seq<seq<Byte>>)
    requires Concat(one) == Concat(two)
    requires !HasLine(Calls(Reader([], []), one).pending)
    ensures Calls(Reader([], []), two).lines <= Calls(Reader([], []), one).lines
    ensures !HasLine(Calls(Reader([], []), two).pending) ==> Calls(Reader([], []), two) == Calls(Reader([], []), one)
  {
    var a, b := Calls(Reader([], []), one), Calls(Reader([], []), two);
    CallsConserve(Reader([], []), one);
    CallsConserve(Reader([], []), two);
    assert Flatten([]) + [] == [];
    CallsClean(Reader([], []), one);
    CallsClean(Reader([], []), two);
    ReadsOneWay(a.lines, a.pending, b.lines, b.pending);
  }

  // ---------------------------------------------------------- what NULs do

  /** A drained reader still buffers a newline exactly when a NUL stands before
      one in its buffer. */
  lemma NewlineLeftIff(pending: seq<Byte>)
    requires !HasLine(pending)
    ensures LF in pending <==> exists i, j :: 0 <= i < j < |pending| && pending[i] == NUL && pending[j] == LF
  {
    if LF in pending {
      var j :| 0 <= j < |pending| && pending[j] == LF;
      assert Stop(pending) <= j;
      assert pending[Stop(pending)] == NUL;
    }
  }

  /** The next newline is behind a NUL. */
  predicate Blocked(pending: seq<Byte>) {
    Stop(pending) < |pending| && pending[Stop(pending)] == NUL
  }

  /** A NUL before the first newline blocks the stream for good: no later call
      takes out another line, whatever arrives. */
  lemma {:induction false} NulStalls(r: Reader, chunks: seq<seq<Byte>>)
    requires Blocked(r.pending)
    ensures Calls(r, chunks).lines == r.lines
    ensures var p := Calls(r, chunks).pending; r.pending <= p && Stop(p) == Stop(r.pending)
  {
    if chunks != [] {
      var before := chunks[..|chunks| - 1];
      NulStalls(r, before);
      var p := Calls(r, before).pending;
      StopPrefix(p, chunks[|chunks| - 1]);
    }
  }

  /** And nothing else does: exactly the readers that are not blocked take out
      another line if the right bytes arrive. */
  lemma {:induction false} StallsForGoodIff(r: Reader)
    ensures Blocked(r.pending) <==> forall chunks :: Calls(r, chunks).lines == r.lines
  {
    if Blocked(r.pending) {
      forall chunks
        ensures Calls(r, chunks).lines == r.lines
      {
        NulStalls(r, chunks);
      }
    } else {
      var more: seq<Byte> := if HasLine(r.pending) then [] else [LF];
      if more == [] {
        assert r.pending + more == r.pending;
      } else {
        LineIsNext(r.pending, []);
        assert r.pending + more == r.pending + [LF] + [];
      }
      var chunks := [more];
      assert chunks[..0] == [] && Calls(r, []) == r;
      assert |Call(r, more).lines| == |r.lines| + 1;
      assert Calls(r, chunks).lines != r.lines;
    }
  }

  /** The newlines before the first NUL: the lines a reader can still take out. */
  function Complete(bytes: seq<Byte>): nat {
    if bytes == [] || bytes[0] == NUL then 0 else (if bytes[0] == LF then 1 else 0) + Complete(bytes[1..])
  }

  lemma {:induction false} CompleteIff(p: seq<Byte>)
    ensures HasLine(p) <==> 0 < Complete(p)
    ensures HasLine(p) ==> Complete(p) == 1 + Complete(AfterLine(p))
  {
    if p != [] && p[0] != NUL && p[0] != LF {
      CompleteIff(p[1..]);
      assert HasLine(p) ==> AfterLine(p) == AfterLine(p[1..]);
    }
  }

  lemma {:induction false} CompleteLines(lines: seq<Line>, rest: seq<Byte>)
    requires Clean(lines)
    ensures Complete(Flatten(lines) + rest) == |lines| + Complete(rest)
  {
    if lines == [] {
      assert Flatten(lines) + rest == rest;
    } else {
      var more := Flatten(lines[1..]) + rest;
      var p := lines[0] + [LF] + more;
      assert Flatten(lines) + rest == p;
      LineIsNext(lines[0], more);
      CompleteIff(p);
      assert AfterLine(p) == more;
      CompleteLines(lines[1..], rest);
    }
  }

  /** Calls that receive nothing. */
  function Idle(n: nat): seq<seq<Byte>> {
    seq(n, _ => [])
  }

  /** Calls that receive nothing take out the complete lines, one a call. */
  lemma {:induction false} IdleTakes(r: Reader, n: nat)
    requires n <= Complete(r.pending)
    ensures var q := Calls(r, Idle(n)); |q.lines| == |r.lines| + n && Complete(q.pending) == Complete(r.pending) - n
  {
    if n > 0 {
      var before := Calls(r, Idle(n - 1));
      IdleTakes(r, n - 1);
      assert Idle(n)[..n - 1] == Idle(n - 1) && before.pending + [] == before.pending;
      CompleteIff(before.pending);
      assert Calls(r, Idle(n)) == Call(before, []);
    }
  }

  /** What a reader has not taken out yet, counted in the bytes it was given: idle
      calls bring it out, and leave no line. */
  lemma MissingLines(r: Reader, all: seq<Byte>)
    requires Clean(r.lines) && all == Flatten(r.lines) + r.pending
    ensures |r.lines| <= Complete(all)
    ensures var q := Calls(r, Idle(Complete(all) - |r.lines|));
      |q.lines| == Complete(all) && !HasLine(q.pending)
  {
    CompleteLines(r.lines, r.pending);
    var missing := Complete(r.pending);
    IdleTakes(r, missing);
    CompleteIff(Calls(r, Idle(missing)).pending);
  }

  lemma {:induction false} FlattenHasNoNul(lines: seq<Line>)
    requires Clean(lines)
    ensures NUL !in Flatten(lines)
  {
    if lines != [] {
      FlattenHasNoNul(lines[1..]);
    }
  }

  lemma PrefixesCompare(a: seq<Byte>, b: seq<Byte>, all: seq<Byte>)
    requires a <= all && b <= all && |a| <= |b|
    ensures a <= b
  {
  }

  /** Once a NUL is buffered only what stands before it can still come out, and a
      reader that has been drained is blocked. */
  lemma NulEnds(before: seq<Byte>, pending: seq<Byte>, chunks: seq<seq<Byte>>)
    requires before + [NUL] <= pending
    ensures var q := Calls(Reader([], pending), chunks);
      Flatten(q.lines) <= before && (!HasLine(q.pending) ==> Blocked(q.pending))
  {
    var q := Calls(Reader([], pending), chunks);
    var all := pending + Concat(chunks);
    CallsConserve(Reader([], pending), chunks);
    assert Flatten([]) + pending + Concat(chunks) == all;
    CallsClean(Reader([], pending), chunks);
    FlattenHasNoNul(q.lines);
    NulBehind(before, Flatten(q.lines), q.pending, all);
  }

  lemma NulBehind(before: seq<Byte>, taken: seq<Byte>, left: seq<Byte>, all: seq<Byte>)
    requires before + [NUL] <= all && all == taken + left && NUL !in taken
    ensures taken <= before && (!HasLine(left) ==> Blocked(left))
  {
    assert all[|before|] == (before + [NUL])[|before|] == NUL;
    assert taken == all[..|taken|] && before <= all;
    PrefixesCompare(taken, before, all);
    assert left[|before| - |taken|] == NUL;
    assert Stop(left) <= |before| - |taken|;
  }

  /** Such a stream: a letter, a NUL, a newline. */
  lemma {:induction false} StalledStream()
    ensures var r := Calls(Reader([], []), [[65, NUL, LF]]); r == Reader([], [65, NUL, LF]) && Blocked(r.pending)
  {
    var bytes: seq<Byte> := [65, NUL, LF];
    var chunks := [bytes];
    assert chunks[..0] == [] && Calls(Reader([], []), []) == Reader([], []);
    assert [] + bytes == bytes && bytes[1..] == [NUL, LF];
    assert Stop(bytes[1..]) == 0 && Stop(bytes) == 1;
    assert Calls(Reader([], []), chunks) == Call(Reader([], []), bytes);
  }

  lemma {:induction false} StopPrefix(p: seq<Byte>, more: seq<Byte>)
    requires Stop(p) < |p|
    ensures Stop(p + more) == Stop(p)
  {
    if p[0] != LF && p[0] != NUL {
      StopPrefix(p[1..], more);
      assert (p + more)[1..] == p[1..] + more;
    }
  }

  /** What a sender framed is what a reader takes out: if the bytes received are
      a prefix of the sender's framed lines, the lines taken out are the first of
      the sender's lines, and the buffer holds the start of what follows. */
  lemma {:induction false} ReadsWhatWasSent(sent: seq<Line>, lines: seq<Line>, pending: seq<Byte>)
    requires Plain(sent) && Plain(lines)
    requires Flatten(lines) + pending <= Flatten(sent)
    ensures lines <= sent
    ensures pending <= Flatten(sent[|lines|..])
    decreases lines
  {
    var s := Flatten(sent);
    if lines == [] {
      assert Flatten(lines) + pending == pending && sent[0..] == sent;
    } else {
      FirstCut(lines[0], Flatten(lines[1..]) + pending, sent[0], Flatten(sent[1..]));
      ReadsWhatWasSent(sent[1..], lines[1..], pending);
      assert sent[|lines|..] == sent[1..][|lines| - 1..];
    }
  }
}
