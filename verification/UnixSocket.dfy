/** The detector's socket (pi-streaming/unix_socket.c): the receive buffer is
    filled at its end and shifted down in place, one line a call. */
module UnixSocket {
  import opened Options
  import opened Bytes
  import opened Framing

  const RECV_BUFFER_SIZE := 65536
  const MAX_MSG_SIZE := 4096

  /** What a non-blocking `recv` answers. */
  datatype Received = Data(bytes: seq<Byte>) | Closed | WouldBlock | Failed

  /** What one `send` answers: how much it took, try again, or an error. */
  datatype Sent = Took(count: nat) | Busy | Broken

  // -------------------------------------------------- taking a line out

  /** How much of a line the caller's buffer has room for. */
  function Handed(length: nat, buffsize: nat): nat
    requires 0 < buffsize
  {
    if length < buffsize then length else buffsize - 1
  }

  /** One past the last byte that is moved down once a line is taken out. */
  function MoveEnd(pending: seq<Byte>, buffsize: nat): nat
    requires HasLine(pending) && 0 < buffsize
  {
    Stop(pending) + |pending| - Handed(Stop(pending), buffsize)
  }

  /** A line taken out of the received bytes, and what is buffered then.  How much
      follows the line is reckoned from the bytes handed out, so after a line that
      had to be cut some of the bytes beyond the received ones move along. */
  function Taken(pending: seq<Byte>, beyond: seq<Byte>, buffsize: nat): (Line, seq<Byte>)
    requires HasLine(pending) && 0 < buffsize && MoveEnd(pending, buffsize) <= |pending| + |beyond|
  {
    Parts(pending, beyond, Stop(pending), Handed(Stop(pending), buffsize))
  }

  function Parts(pending: seq<Byte>, beyond: seq<Byte>, newline: nat, handed: nat): (Line, seq<Byte>)
    requires handed <= newline < |pending| && newline + |pending| - handed <= |pending| + |beyond|
  {
    (pending[..handed], (pending + beyond)[newline + 1..newline + |pending| - handed])
  }

  lemma WholeParts(pending: seq<Byte>, beyond: seq<Byte>, newline: nat)
    requires newline < |pending| && pending[newline] == LF
    ensures Parts(pending, beyond, newline, newline) == (pending[..newline], pending[newline + 1..])
    ensures pending[..newline] + [LF] + pending[newline + 1..] == pending
  {
  }

  lemma CutParts(pending: seq<Byte>, beyond: seq<Byte>, newline: nat, handed: nat)
    requires handed < newline < |pending| && newline + |pending| - handed <= |pending| + |beyond|
    requires beyond != [] && beyond[0] == NUL && pending[handed] != LF
    ensures var (message, rest) := Parts(pending, beyond, newline, handed);
      && message == pending[..newline][..handed] && pending[newline + 1..] + [NUL] <= rest
      && message + [LF] + rest != pending
  {
    var (message, rest) := Parts(pending, beyond, newline, handed);
    assert rest[..|pending| - newline] == pending[newline + 1..] + [NUL];
    assert (message + [LF] + rest)[handed] == LF;
  }

  /** Taking a line out keeps every byte exactly when the line is shorter than the
      caller's buffer; otherwise the received bytes behind it are followed by the
      terminator. */
  lemma TakenWholeIff(pending: seq<Byte>, beyond: seq<Byte>, buffsize: nat)
    requires HasLine(pending) && 0 < buffsize && beyond != [] && beyond[0] == NUL
    requires MoveEnd(pending, buffsize) <= |pending| + |beyond|
    ensures var (message, rest) := Taken(pending, beyond, buffsize);
      && (message + [LF] + rest == pending <==> Stop(pending) < buffsize)
      && (buffsize <= Stop(pending) ==>
          message == FirstLine(pending)[..buffsize - 1] && AfterLine(pending) + [NUL] <= rest)
  {
    PartsWholeIff(pending, beyond, Stop(pending), buffsize);
  }

  lemma PartsWholeIff(pending: seq<Byte>, beyond: seq<Byte>, newline: nat, buffsize: nat)
    requires newline < |pending| && pending[newline] == LF && LF !in pending[..newline]
    requires 0 < buffsize && beyond != [] && beyond[0] == NUL
    requires newline + |pending| - Handed(newline, buffsize) <= |pending| + |beyond|
    ensures var (message, rest) := Parts(pending, beyond, newline, Handed(newline, buffsize));
      && (message + [LF] + rest == pending <==> newline < buffsize)
      && (buffsize <= newline ==>
          message == pending[..newline][..buffsize - 1] && pending[newline + 1..] + [NUL] <= rest)
  {
    if newline < buffsize {
      WholeParts(pending, beyond, newline);
    } else {
      assert pending[..newline][buffsize - 1] != LF;
      CutParts(pending, beyond, newline, buffsize - 1);
    }
  }

  /** For lines that fit the caller's buffer a call is one of the reader that module
      Framing describes. */
  lemma TakenIsCall(lines: seq<Line>, pending: seq<Byte>, chunk: seq<Byte>, beyond: seq<Byte>, buffsize: nat)
    requires HasLine(pending + chunk) && |FirstLine(pending + chunk)| < buffsize
    ensures MoveEnd(pending + chunk, buffsize) == |pending + chunk|
    ensures var (message, rest) := Taken(pending + chunk, beyond, buffsize);
      Call(Reader(lines, pending), chunk) == Reader(lines + [message], rest)
  {
    WholeParts(pending + chunk, beyond, Stop(pending + chunk));
  }

  /** A line too long for the caller's buffer ends the stream: of the bytes
      received by then the lines that are complete still come out, and nothing
      after them ever does. */
  lemma CutEndsStream(pending: seq<Byte>, beyond: seq<Byte>, buffsize: nat, chunks: seq<seq<Byte>>)
    requires HasLine(pending) && 0 < buffsize <= Stop(pending) && beyond != [] && beyond[0] == NUL
    requires MoveEnd(pending, buffsize) <= |pending| + |beyond|
    ensures var q := Calls(Reader([], Taken(pending, beyond, buffsize).1), chunks);
      Flatten(q.lines) <= AfterLine(pending) && (!HasLine(q.pending) ==> Blocked(q.pending))
  {
    CutParts(pending, beyond, Stop(pending), buffsize - 1);
    NulEnds(AfterLine(pending), Taken(pending, beyond, buffsize).1, chunks);
  }

  /** Such a line: three letters for a caller with room for one, a second line
      behind it, and an old byte in the buffer. */
  lemma {:induction false} CutLine()
    ensures var pending: seq<Byte> := [65, 66, 67, LF, 68, LF];
      && Stop(pending) == 3 && MoveEnd(pending, 2) == 8
      && Taken(pending, [NUL, 69], 2) == ([65], [68, LF, NUL, 69])
  {
    var p: seq<Byte> := [65, 66, 67, LF, 68, LF];
    assert p[1..] == [66, 67, LF, 68, LF] && p[1..][1..] == [67, LF, 68, LF] && p[1..][1..][1..] == [LF, 68, LF];
    assert Stop(p[1..][1..][1..]) == 0 && Stop(p[1..][1..]) == 1 && Stop(p[1..]) == 2 && Stop(p) == 3;
    assert (p + [NUL, 69])[4..8] == [68, LF, NUL, 69] && p[..1] == [65];
  }

  class Connection {
    const recvBuffer: array<Byte>
    var recvLen: nat
    var connected: bool  // client_fd != -1

    /** The received bytes are followed by a terminator inside the buffer. */
    ghost predicate Valid()
      reads this, recvBuffer
    {
      recvBuffer.Length == RECV_BUFFER_SIZE && recvLen < RECV_BUFFER_SIZE && recvBuffer[recvLen] == NUL
    }

    /** The bytes received and not yet taken out. */
    ghost function Pending(): seq<Byte>
      requires Valid()
      reads this, recvBuffer
    {
      recvBuffer[..recvLen]
    }

    /** `ipc_accept_client` with its client accepted. */
    constructor ()
      ensures Valid() && connected && Pending() == [] && fresh(recvBuffer)
    {
      recvBuffer := new Byte[RECV_BUFFER_SIZE](_ => NUL);
      recvLen, connected := 0, true;
    }

    /** Room `recv` is offered. */
    ghost function Room(): nat
      requires Valid()
      reads this, recvBuffer
    {
      RECV_BUFFER_SIZE - recvLen - 1
    }

    /** The bytes a call adds to the buffer: none when there is no room, since
        then `recv` is not called. */
    ghost function Arriving(r: Received): seq<Byte>
      requires Valid()
      reads this, recvBuffer
    {
      if Room() > 0 && r.Data? then r.bytes else []
    }

    /** `strchr(recv_buffer, '\n')` on the terminated buffer. */
    method FindNewline() returns (at: Option<nat>)
      requires Valid()
      ensures at == if HasLine(Pending()) then Some(Stop(Pending())) else None
    {
      var i := 0;
      while recvBuffer[i] != LF && recvBuffer[i] != NUL
        invariant i <= recvLen
        invariant Stop(recvBuffer[..recvLen]) == i + Stop(recvBuffer[i..recvLen])
        decreases recvLen - i
      {
        assert recvBuffer[i..recvLen][1..] == recvBuffer[i + 1..recvLen];
        i := i + 1;
      }
      at := if recvBuffer[i] == LF && i < recvLen then Some(i) else None;
    }

    /** Append received bytes and the terminator. */
    method Append(bytes: seq<Byte>)
      requires Valid() && |bytes| <= Room()
      modifies this`recvLen, recvBuffer
      ensures Valid() && Pending() == old(Pending()) + bytes
      ensures recvBuffer[recvLen + 1..] == old(recvBuffer[..])[recvLen + 1..]
    {
      for i := 0 to |bytes|
        invariant recvLen == old(recvLen)
        invariant forall k :: recvLen + |bytes| <= k < RECV_BUFFER_SIZE ==> recvBuffer[k] == old(recvBuffer[k])
        invariant recvBuffer[..recvLen + i] == old(Pending()) + bytes[..i]
      {
        recvBuffer[recvLen + i] := bytes[i];
        assert recvBuffer[..recvLen + i + 1] == recvBuffer[..recvLen + i] + [bytes[i]];
        assert bytes[..i + 1] == bytes[..i] + [bytes[i]];
      }
      assert bytes[..|bytes|] == bytes;
      recvLen := recvLen + |bytes|;
      recvBuffer[recvLen] := NUL;
    }

    /** `memmove` what follows the line just taken out down over it. */
    method ShiftDown(from: nat, remaining: nat)
      requires Valid() && 0 < from && from + remaining <= RECV_BUFFER_SIZE
      modifies this`recvLen, recvBuffer
      ensures Valid() && Pending() == old(recvBuffer[from..from + remaining])
    {
      for i := 0 to remaining
        invariant recvBuffer[..i] == old(recvBuffer[from..from + i])
        invariant forall k :: from + i <= k < RECV_BUFFER_SIZE ==> recvBuffer[k] == old(recvBuffer[k])
      {
        recvBuffer[i] := recvBuffer[from + i];
        assert recvBuffer[..i + 1] == recvBuffer[..i] + [recvBuffer[i]];
      }
      recvLen := remaining;
      assert recvBuffer[..remaining] == old(recvBuffer[from..from + remaining]);
      recvBuffer[recvLen] := NUL;
    }

    /** What lies in the buffer beyond the bytes received once more have arrived. */
    ghost function Beyond(r: Received): (beyond: seq<Byte>)
      requires Valid() && |Arriving(r)| <= Room()
      reads this, recvBuffer
      ensures |Pending()| + |Arriving(r)| + |beyond| == RECV_BUFFER_SIZE
    {
      [NUL] + recvBuffer[recvLen + |Arriving(r)| + 1..]
    }

    /** The receiving half of `ipc_recv_message`.  A closed or failed connection is
        reported at once, before any line still buffered is looked at. */
    method Receive(r: Received)
      requires Valid() && connected
      requires r.Data? ==> 0 < |r.bytes| && (Room() > 0 ==> |r.bytes| <= Room())
      modifies this`recvLen, this`connected, recvBuffer
      ensures Valid()
      ensures connected <==> !(old(Room()) > 0 && (r.Closed? || r.Failed?))
      ensures !connected ==> Pending() == old(Pending())
      ensures connected ==> Pending() == old(Pending()) + old(Arriving(r))
      ensures connected ==> recvBuffer[..] == Pending() + old(Beyond(r))
    {
      if recvLen < RECV_BUFFER_SIZE - 1 {
        match r {
          case Data(bytes) =>
            Append(bytes);
          case Closed =>
            connected := false;
          case Failed =>
            connected := false;
          case WouldBlock =>
        }
      }
    }

    /** `ipc_recv_message`: one line taken out, or none.  What is moved down must lie
        in the buffer. */
    method RecvMessage(r: Received, buffsize: nat) returns (len: int, message: Line)
      requires Valid() && 0 < buffsize
      requires r.Data? ==> 0 < |r.bytes| && (Room() > 0 ==> |r.bytes| <= Room())
      requires var p := Pending() + Arriving(r); HasLine(p) ==> MoveEnd(p, buffsize) <= RECV_BUFFER_SIZE
      modifies this`recvLen, this`connected, recvBuffer
      ensures Valid()
      ensures connected <==> old(connected) && !(old(Room()) > 0 && (r.Closed? || r.Failed?))
      ensures len == -1 <==> !connected
      ensures !connected ==> message == [] && Pending() == old(Pending())
      ensures connected ==> len == |message|
      ensures var p := old(Pending()) + old(Arriving(r));
        connected ==>
          if HasLine(p) then (message, Pending()) == Taken(p, old(Beyond(r)), buffsize)
          else message == [] && Pending() == p
    {
      if !connected {
        return -1, [];
      }
      ghost var beyond := Beyond(r);
      Receive(r);
      if !connected {
        return -1, [];
      }
      var newline := FindNewline();
      if newline == None {
        return 0, [];
      }
      len, message := TakeLine(newline.value, buffsize, beyond);
    }

    /** The extracting half: copy the line out and move the rest down. */
    method TakeLine(newline: nat, buffsize: nat, ghost beyond: seq<Byte>) returns (len: int, message: Line)
      requires Valid() && 0 < buffsize && HasLine(Pending()) && newline == Stop(Pending())
      requires recvBuffer[..] == Pending() + beyond && MoveEnd(Pending(), buffsize) <= RECV_BUFFER_SIZE
      modifies this`recvLen, recvBuffer
      ensures Valid() && len == |message|
      ensures (message, Pending()) == Taken(old(Pending()), beyond, buffsize)
    {
      var msgLen := newline;
      if msgLen >= buffsize {
        msgLen := buffsize - 1;
      }
      ghost var pending, all := Pending(), recvBuffer[..];
      assert newline + recvLen - msgLen == MoveEnd(pending, buffsize);
      assert recvBuffer[newline + 1..MoveEnd(pending, buffsize)] == all[newline + 1..MoveEnd(pending, buffsize)];
      message := recvBuffer[..msgLen];
      assert message == pending[..msgLen];
      ShiftDown(newline + 1, recvLen - (msgLen + 1));
      len := msgLen;
    }
  }

  /** `sendall`: keep sending what is left.  Given the answers of the successive
      `send` calls, what went out is always a prefix of the buffer, and success
      means all of it did; `status` is None while the socket stays busy. */
  method SendAll(buf: seq<Byte>, answers: seq<Sent>) returns (status: Option<int>, out: seq<Byte>)
    requires forall k :: 0 <= k < |answers| && answers[k].Took? ==> 0 < answers[k].count
    ensures out <= buf
    ensures status == Some(0) <==> out == buf
    ensures status.Some? && status != Some(0) ==> status == Some(-1) && Broken in answers
    ensures (forall k :: 0 <= k < |answers| ==> answers[k].Took?) && |buf| <= |answers| ==> status == Some(0)
  {
    var total, bytesLeft := 0, |buf|;
    out := [];
    var i := 0;
    while total < |buf|
      invariant 0 <= total && 0 <= bytesLeft && total + bytesLeft == |buf| && out == buf[..total]
      invariant i <= |answers|
      invariant (forall k :: 0 <= k < |answers| ==> answers[k].Took?) ==> i <= total
      decreases |answers| - i
    {
      if i == |answers| {
        return None, out;
      }
      match answers[i] {
        case Busy =>
        case Broken =>
          return Some(-1), out;
        case Took(count) =>
          var n := if count < bytesLeft then count else bytesLeft;  // send takes no more than it is given
          out := out + buf[total..total + n];
          total := total + n;
          bytesLeft := bytesLeft - n;
      }
      i := i + 1;
    }
    status := Some(0);
  }
}
