/** Bytes, little-endian numbers and the two checksums of the sensor protocols. */
module Bytes {
  type Byte = b: int | 0 <= b < 256

  function Le16(s: seq<Byte>, at: nat): (n: nat)
    requires at + 2 <= |s|
    ensures n < 0x1_0000
  {
    s[at] as int + 256 * s[at + 1] as int
  }

  function Le32(s: seq<Byte>, at: nat): (n: nat)
    requires at + 4 <= |s|
    ensures n < 0x1_0000_0000
  {
    s[at] as int + 256 * s[at + 1] as int + 65536 * s[at + 2] as int + 16777216 * s[at + 3] as int
  }

  /** Two's complement reading of a 32-bit field. */
  function Signed32(s: seq<Byte>, at: nat): (n: int)
    requires at + 4 <= |s|
    ensures -0x8000_0000 <= n < 0x8000_0000
    ensures (n - Le32(s, at)) % 0x1_0000_0000 == 0
  {
    var u := Le32(s, at);
    if u < 0x8000_0000 then u else u - 0x1_0000_0000
  }

  /** The plain sum of the bytes. */
  function Total(s: seq<Byte>): nat {
    if s == [] then 0 else Total(s[..|s| - 1]) + s[|s| - 1]
  }

  /** The sum of the bytes, each weighted by its distance from the end: the last
      byte counts once. */
  function Weighted(s: seq<Byte>): nat {
    if s == [] then 0 else Weighted(s[..|s| - 1]) + Total(s)
  }

  lemma TotalSnoc(s: seq<Byte>, b: Byte)
    ensures Total(s + [b]) == Total(s) + b
  {
    assert (s + [b])[..|s|] == s;
  }

  /** Reducing a running sum at every step, as 8-bit arithmetic does, loses nothing. */
  lemma ModAdd(a: int, b: int)
    ensures (a % 256 + b) % 256 == (a + b) % 256
  {
    var q := a / 256;
    assert a == 256 * q + a % 256;
    assert (a + b) % 256 == ((a % 256 + b) + 256 * q) % 256;
  }
}
