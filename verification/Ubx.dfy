/** The UBX frame checksum and the configuration frames of
    src/ddl/gps/gps_fsm.c. */
module Ubx {
  import opened Bytes

  /** The two checksum bytes. */
  datatype Check = Check(a: Byte, b: Byte)

  /** In closed form: the sum of the bytes, and the sum of the bytes weighted by
      their distance from the end, both modulo 256. */
  function Fletcher(s: seq<Byte>): Check {
    Check(Total(s) % 256, Weighted(s) % 256)
  }

  /** The running 8-bit sums of `ubx_checksum` equal the closed form for a buffer
      of any length. */
  method UbxChecksum(buf: seq<Byte>) returns (a: Byte, b: Byte)
    ensures Check(a, b) == Fletcher(buf)
  {
    a, b := 0, 0;
    assert Fletcher(buf[..0]) == Check(0, 0);
    for i := 0 to |buf|
      invariant Check(a, b) == Fletcher(buf[..i])
    {
      assert buf[..i + 1][..i] == buf[..i];
      ModAdd(Total(buf[..i]), buf[i]);
      a := (a + buf[i]) % 256;
      ModAdd(Weighted(buf[..i]), a);
      ModAdd(Total(buf[..i + 1]), Weighted(buf[..i]));
      b := (b + a) % 256;
    }
    assert buf[..|buf|] == buf;
  }

  // ------------------------------------------------------------- detection

  lemma {:induction false} TotalUpdate(s: seq<Byte>, i: nat, x: Byte)
    requires i < |s|
    ensures Total(s[i := x]) == Total(s) + x - s[i]
  {
    var n := |s| - 1;
    if i == n {
      assert s[i := x][..n] == s[..n];
    } else {
      assert s[i := x][..n] == s[..n][i := x];
      TotalUpdate(s[..n], i, x);
    }
  }

  lemma OneMore(k: int, d: int)
    ensures (k + 1) * d == k * d + d
  {
  }

  /** A byte counts as often as there are bytes from it to the end. */
  lemma {:induction false} WeightedUpdate(s: seq<Byte>, i: nat, x: Byte)
    requires i < |s|
    ensures Weighted(s[i := x]) == Weighted(s) + (|s| - i) * (x as int - s[i])
  {
    var n := |s| - 1;
    TotalUpdate(s, i, x);
    if i == n {
      assert s[i := x][..n] == s[..n];
    } else {
      assert s[i := x][..n] == s[..n][i := x];
      WeightedUpdate(s[..n], i, x);
      OneMore(n - i, x as int - s[i]);
    }
  }

  lemma ModShift(w: int, d: int)
    ensures (w + d) % 256 == w % 256 <==> d % 256 == 0
  {
  }

  /** When the changes cancel modulo 256, only their distance is left of the
      weighted change. */
  lemma CancelledShift(p: int, q: int, d: int, e: int)
    requires (d + e) % 256 == 0
    ensures (p * d + q * e) % 256 == ((p - q) * d) % 256
  {
    var m := (d + e) / 256;
    assert e == 256 * m - d;
    assert q * e == 256 * (q * m) - q * d by {
      assert q * e == q * (256 * m - d);
    }
    assert (p - q) * d == p * d - q * d;
    ModShift((p - q) * d, 256 * (q * m));
  }

  /** Two messages have the same checksum when their sums differ by multiples of 256. */
  lemma FletcherShift(s: seq<Byte>, t: seq<Byte>, d: int, w: int)
    requires Total(t) == Total(s) + d && Weighted(t) == Weighted(s) + w
    ensures Fletcher(t) == Fletcher(s) <==> d % 256 == 0 && w % 256 == 0
  {
    ModShift(Total(s), d);
    ModShift(Weighted(s), w);
  }

  lemma {:induction false} TwoByteChange(s: seq<Byte>, i: nat, j: nat, x: Byte, y: Byte)
    requires i < j < |s|
    ensures var d, e, t := x as int - s[i], y as int - s[j], s[i := x][j := y];
      && Total(t) == Total(s) + (d + e)
      && Weighted(t) == Weighted(s) + ((|s| - i) * d + (|s| - j) * e)
  {
    TotalUpdate(s, i, x);
    TotalUpdate(s[i := x], j, y);
    WeightedUpdate(s, i, x);
    WeightedUpdate(s[i := x], j, y);
  }

  /** A corruption of any two bytes goes undetected exactly when the two changes
      cancel modulo 256 and their distance times the change is a multiple of 256. */
  lemma {:induction false} TwoByteCorruption(s: seq<Byte>, i: nat, j: nat, x: Byte, y: Byte)
    requires i < j < |s|
    ensures Fletcher(s[i := x][j := y]) == Fletcher(s) <==>
      (x as int - s[i] + y - s[j]) % 256 == 0 && ((j - i) * (x as int - s[i])) % 256 == 0
  {
    var d, e := x as int - s[i], y as int - s[j];
    TwoByteChange(s, i, j, x, y);
    SameCheckIff(s, s[i := x][j := y], |s|, i, j, d, e);
  }

  lemma SameCheckIff(s: seq<Byte>, t: seq<Byte>, n: nat, i: nat, j: nat, d: int, e: int)
    requires Total(t) == Total(s) + (d + e) && Weighted(t) == Weighted(s) + ((n - i) * d + (n - j) * e)
    ensures Fletcher(t) == Fletcher(s) <==> (d + e) % 256 == 0 && ((j - i) * d) % 256 == 0
  {
    FletcherShift(s, t, d + e, (n - i) * d + (n - j) * e);
    if (d + e) % 256 == 0 {
      CancelledAt(n, i, j, d, e);
    }
  }

  lemma CancelledAt(n: nat, i: nat, j: nat, d: int, e: int)
    requires (d + e) % 256 == 0
    ensures ((n - i) * d + (n - j) * e) % 256 == ((j - i) * d) % 256
  {
    CancelledShift(n - i, n - j, d, e);
    assert (n - i) - (n - j) == j - i;
  }

  /** Any single-byte change is detected. */
  lemma SingleByteDetected(s: seq<Byte>, i: nat, x: Byte)
    requires i < |s| && x != s[i]
    ensures Fletcher(s[i := x]).a != Fletcher(s).a
  {
    TotalUpdate(s, i, x);
    ModShift(Total(s), x as int - s[i]);
  }

  lemma SmallDifference(k: nat, d: int)
    requires k == 1 && -256 < d < 256 && d != 0
    ensures (k * d) % 256 != 0
  {
  }

  /** Exchanging two bytes is detected exactly when their distance times their
      difference is no multiple of 256; for neighbours, when they differ. */
  lemma SwapDetected(s: seq<Byte>, i: nat, j: nat)
    requires i < j < |s|
    ensures Fletcher(s[i := s[j]][j := s[i]]) != Fletcher(s) <==> ((j - i) * (s[j] as int - s[i])) % 256 != 0
    ensures j == i + 1 && s[i] != s[j] ==> Fletcher(s[i := s[j]][j := s[i]]) != Fletcher(s)
  {
    var d := s[j] as int - s[i];
    TwoByteCorruption(s, i, j, s[j], s[i]);
    assert d + s[i] - s[j] == 0;
    if j == i + 1 && s[i] != s[j] {
      SmallDifference(j - i, d);
    }
  }

  // ------------------------------------------------------- frames on the wire

  const SYNC_1: Byte := 0xB5
  const SYNC_2: Byte := 0x62
  const CLS_NAV: Byte := 0x01
  const ID_NAV_PVT: Byte := 0x07
  const PVT_PAYLOAD_LEN := 92
  const CLS_CFG: Byte := 0x06
  const ID_CFG_MSG: Byte := 0x01
  const ID_CFG_RATE: Byte := 0x08
  const NMEA_CLASS: Byte := 0xF0

  /** A frame as the protocol defines it: sync bytes, then a body of class, id,
      little-endian payload length and payload, then the checksum of the body. */
  ghost predicate WellFormed(frame: seq<Byte>) {
    && 8 <= |frame|
    && frame[0] == SYNC_1 && frame[1] == SYNC_2
    && Le16(frame, 4) == |frame| - 8
    && Check(frame[|frame| - 2], frame[|frame| - 1]) == Fletcher(frame[2..|frame| - 2])
  }

  datatype ConfigStep = ConfigStep(msgClass: Byte, msgId: Byte, payload: seq<Byte>)

  /** Silence seven NMEA sentences, then set the rate to one fix a second. */
  const CONFIG_SEQUENCE: seq<ConfigStep> := [
    ConfigStep(CLS_CFG, ID_CFG_MSG, [NMEA_CLASS, 0x00, 0x00]),
    ConfigStep(CLS_CFG, ID_CFG_MSG, [NMEA_CLASS, 0x01, 0x00]),
    ConfigStep(CLS_CFG, ID_CFG_MSG, [NMEA_CLASS, 0x02, 0x00]),
    ConfigStep(CLS_CFG, ID_CFG_MSG, [NMEA_CLASS, 0x03, 0x00]),
    ConfigStep(CLS_CFG, ID_CFG_MSG, [NMEA_CLASS, 0x04, 0x00]),
    ConfigStep(CLS_CFG, ID_CFG_MSG, [NMEA_CLASS, 0x05, 0x00]),
    ConfigStep(CLS_CFG, ID_CFG_MSG, [NMEA_CLASS, 0x41, 0x00]),
    ConfigStep(CLS_CFG, ID_CFG_RATE, [0xE8, 0x03, 0x01, 0x00, 0x01, 0x00])
  ]

  const TRANSMIT_CAPACITY := 24

  /** The frame carries this step's message. */
  ghost predicate Carries(frame: seq<Byte>, step: ConfigStep) {
    && WellFormed(frame)
    && frame[2] == step.msgClass && frame[3] == step.msgId
    && frame[6..|frame| - 2] == step.payload
  }

  function Header(step: ConfigStep): seq<Byte>
    requires |step.payload| <= 16
  {
    [SYNC_1, SYNC_2, step.msgClass, step.msgId, |step.payload|, 0x00]
  }

  /** The frame of a step. */
  function ConfigFrame(step: ConfigStep): seq<Byte>
    requires |step.payload| <= 16
  {
    var check := Fletcher(Header(step)[2..] + step.payload);
    Header(step) + step.payload + [check.a, check.b]
  }

  /** It is well formed, carries the step, and fits the transmit buffer. */
  lemma FrameCarries(step: ConfigStep)
    requires |step.payload| <= 16
    ensures Carries(ConfigFrame(step), step) && |ConfigFrame(step)| <= TRANSMIT_CAPACITY
  {
    var frame := ConfigFrame(step);
    assert frame[2..|frame| - 2] == Header(step)[2..] + step.payload;
    assert frame[6..|frame| - 2] == step.payload;
  }

  method PutHeader(step: ConfigStep, buf: array<Byte>)
    requires buf.Length == TRANSMIT_CAPACITY && |step.payload| <= 16
    modifies buf
    ensures buf[..6] == Header(step)
  {
    buf[0] := SYNC_1;
    buf[1] := SYNC_2;
    buf[2] := step.msgClass;
    buf[3] := step.msgId;
    buf[4] := |step.payload|;
    buf[5] := 0x00;
  }

  /** Build a step's frame in the transmit buffer, byte by byte. */
  method BuildConfigFrame(step: ConfigStep, buf: array<Byte>) returns (frameLen: nat)
    requires buf.Length == TRANSMIT_CAPACITY && |step.payload| <= 16
    modifies buf
    ensures frameLen == |step.payload| + 8 <= TRANSMIT_CAPACITY
    ensures buf[..frameLen] == ConfigFrame(step) && Carries(buf[..frameLen], step)
  {
    var n := |step.payload|;
    PutHeader(step, buf);
    for i := 0 to n
      invariant buf[..6 + i] == Header(step) + step.payload[..i]
    {
      buf[6 + i] := step.payload[i];
      assert buf[..6 + i + 1] == buf[..6 + i] + [step.payload[i]];
    }
    assert step.payload[..n] == step.payload;
    assert buf[2..6 + n] == buf[..6 + n][2..] == Header(step)[2..] + step.payload;
    var a, b := UbxChecksum(buf[2..6 + n]);
    buf[6 + n] := a;
    buf[6 + n + 1] := b;
    frameLen := 6 + n + 2;
    FrameCarries(step);
    assert buf[..frameLen] == buf[..6 + n] + [a, b];
  }

  lemma ConfigFits()
    ensures |CONFIG_SEQUENCE| == 8
    ensures forall k :: 0 <= k < |CONFIG_SEQUENCE| ==> |CONFIG_SEQUENCE[k].payload| <= 16
  {
  }
}
