/** The detector's end of the socket (pi-streaming/ipc_client.py): assembling
    commands from whatever pieces arrive. */
module IpcClient {
  import opened Options
  import opened Bytes
  import opened Framing

  /** What one blocking `recv` answers. */
  datatype Answer = Data(bytes: seq<Byte>) | Closed | TimedOut | Failed

  /** Received bytes that are UTF-8 taken by themselves; a piece that ends inside a
      character is not. */
  predicate Readable(answer: Answer, decodes: seq<Byte> -> bool) {
    answer.Data? && decodes(answer.bytes)
  }

  /** The bytes the answers add to the buffer. */
  function Arrived(answers: seq<Answer>, decodes: seq<Byte> -> bool): seq<Byte> {
    if answers == [] then []
    else
      var last := answers[|answers| - 1];
      Arrived(answers[..|answers| - 1], decodes) + (if Readable(last, decodes) then last.bytes else [])
  }

  /** `str.find`: the first newline. */
  function Find(buffer: seq<Byte>): (at: Option<nat>)
    ensures at == None <==> LF !in buffer
    ensures at.Some? ==> at.value < |buffer| && buffer[at.value] == LF && LF !in buffer[..at.value]
  {
    if buffer == [] then None
    else if buffer[0] == LF then Some(0)
    else
      var rest := Find(buffer[1..]);
      if rest == None then assert buffer == [buffer[0]] + buffer[1..]; None
      else
        assert buffer[..rest.value + 1] == [buffer[0]] + buffer[1..][..rest.value];
        Some(rest.value + 1)
  }

  /** Lines that are no commands. */
  ghost predicate Refused(lines: seq<Line>, parses: Line -> bool) {
    Plain(lines) && forall k :: 0 <= k < |lines| ==> !parses(lines[k])
  }

  /** The bytes at first buffered and those received: all of them in the lines
      taken out and what is buffered now. */
  ghost predicate Accounted(
    first: seq<Byte>, answers: seq<Answer>, decodes: seq<Byte> -> bool, lines: seq<Line>, buffer: seq<Byte>)
  {
    first + Arrived(answers, decodes) == Flatten(lines) + buffer
  }

  lemma RefuseOne(lines: seq<Line>, line: Line, parses: Line -> bool)
    requires Refused(lines, parses) && LF !in line && !parses(line)
    ensures Refused(lines + [line], parses)
  {
  }

  lemma TakeLine(
    first: seq<Byte>, answers: seq<Answer>, decodes: seq<Byte> -> bool, lines: seq<Line>, line: Line, rest: seq<Byte>)
    requires Accounted(first, answers, decodes, lines, line + [LF] + rest)
    ensures Accounted(first, answers, decodes, lines + [line], rest)
  {
    FlattenSnoc(lines, line);
    assert Flatten(lines) + (line + [LF] + rest) == Flatten(lines) + line + [LF] + rest;
  }

  lemma Receive(
    first: seq<Byte>, answers: seq<Answer>, decodes: seq<Byte> -> bool, lines: seq<Line>, buffer: seq<Byte>,
    answer: Answer)
    requires Accounted(first, answers, decodes, lines, buffer)
    ensures Accounted(
      first, answers + [answer], decodes, lines,
      if Readable(answer, decodes) then buffer + answer.bytes else buffer)
  {
    var more := if Readable(answer, decodes) then answer.bytes else [];
    assert (answers + [answer])[..|answers|] == answers;
    assert first + (Arrived(answers, decodes) + more) == first + Arrived(answers, decodes) + more;
    assert Flatten(lines) + (buffer + more) == Flatten(lines) + buffer + more;
    assert buffer + [] == buffer;
  }

  class Client {
    var recvBuffer: seq<Byte>
    var connected: bool

    constructor ()
      ensures recvBuffer == [] && connected
    {
      recvBuffer, connected := [], true;
    }

    /** Cut the first complete line off the buffer. */
    method CutLine() returns (line: Option<Line>)
      modifies this`recvBuffer
      ensures line == None ==> LF !in recvBuffer && recvBuffer == old(recvBuffer)
      ensures line.Some? ==> LF !in line.value && old(recvBuffer) == line.value + [LF] + recvBuffer
    {
      var newline := Find(recvBuffer);
      if newline == None {
        return None;
      }
      line := Some(recvBuffer[..newline.value]);
      recvBuffer := recvBuffer[newline.value + 1..];
    }

    /** `wait_for_command`: the first line that parses.  Of the bytes buffered and
        received nothing is lost: they are the lines refused, the command, and what
        stays buffered; without a command every complete line has been looked at.
        Bytes that do not decode are dropped and end the connection.  `used` counts
        the answers consumed. */
    method WaitForCommand(answers: seq<Answer>, decodes: seq<Byte> -> bool, parses: Line -> bool)
      returns (command: Option<Line>, used: nat, ghost refused: seq<Line>)
      modifies this
      ensures used <= |answers| && Refused(refused, parses)
      ensures command.Some? ==> parses(command.value) && LF !in command.value
      ensures command.Some? ==>
        Accounted(old(recvBuffer), answers[..used], decodes, refused + [command.value], recvBuffer)
      ensures command.None? ==> Accounted(old(recvBuffer), answers[..used], decodes, refused, recvBuffer)
      ensures command.None? && old(connected) ==> LF !in recvBuffer
      ensures command.None? && old(connected) && used < |answers| ==>
        0 < used && !Readable(answers[used - 1], decodes)
      ensures connected == (old(connected)
        && (command.Some? || used == 0 || Readable(answers[used - 1], decodes) || answers[used - 1].TimedOut?))
    {
      ghost var first, seen: seq<Answer> := recvBuffer, [];
      refused, used := [], 0;
      assert Accounted(first, seen, decodes, refused, recvBuffer);
      if !connected {
        return None, 0, [];
      }
      while true
        invariant connected && used <= |answers|
        invariant Refused(refused, parses)
        invariant seen == answers[..used] && Accounted(first, seen, decodes, refused, recvBuffer)
        invariant 0 < used ==> Readable(answers[used - 1], decodes)
        decreases |answers| - used, |recvBuffer|
      {
        var msg := CutLine();
        if msg.Some? {
          TakeLine(first, seen, decodes, refused, msg.value, recvBuffer);
          if parses(msg.value) {
            return msg, used, refused;
          }
          RefuseOne(refused, msg.value, parses);
          refused := refused + [msg.value];
        } else if used == |answers| {
          return None, used, refused;
        } else {
          var answer := answers[used];
          Receive(first, seen, decodes, refused, recvBuffer, answer);
          used, seen := used + 1, seen + [answer];
          assert seen == answers[..used];
          if !Readable(answer, decodes) {
            connected := answer.TimedOut?;
            return None, used, refused;
          }
          recvBuffer := recvBuffer + answer.bytes;
        }
      }
    }
  }
}
