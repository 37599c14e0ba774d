/** Circular windows: the part of a fixed-size buffer that a ring occupies,
    read as a sequence.  Both the event queues and the WebSocket send queue
    keep their contents this way. */
module Ring {

  /** The `len` slots starting at `start`, wrapping round the end of `buf`. */
  function Window<T>(buf: seq<T>, start: nat, len: nat): (w: seq<T>)
    requires start < |buf| && len <= |buf|
    ensures |w| == len
  {
    if start + len <= |buf| then buf[start..start + len] else buf[start..] + buf[..start + len - |buf|]
  }

  /** The slot `k` places after `start`. */
  function Slot(start: nat, k: nat, n: nat): (p: nat)
    requires start < n && k <= n
    ensures p < n
  {
    if start + k < n then start + k else start + k - n
  }

  /** The successor of a slot, as the C code computes it. */
  lemma NextSlot(p: nat, n: nat)
    requires p < n
    ensures (p + 1) % n == Slot(p, 1, n)
  {
    if p + 1 < n {
      assert (p + 1) % n == p + 1;
    } else {
      assert (p + 1) % n == 0;
    }
  }

  /** The last slot of a window stays where it is when its first is given up. */
  lemma SlotAfterPop(start: nat, k: nat, n: nat)
    requires start < n && 0 < k <= n
    ensures Slot(Slot(start, 1, n), k - 1, n) == Slot(start, k, n)
  {
  }

  lemma SlotAfterPush(start: nat, k: nat, n: nat)
    requires start < n && k < n
    ensures Slot(Slot(start, k, n), 1, n) == Slot(start, k + 1, n)
  {
  }

  lemma ModWraps(r: nat, n: nat)
    requires r < n
    ensures (n + r) % n == r
  {
    var q, m := (n + r) / n, (n + r) % n;
    assert n + r == n * q + m;
    assert q <= 0 ==> n * q <= 0;
    assert 2 <= q ==> n * 2 <= n * q;
    assert q == 1;
  }

  lemma SmallModulo(r: nat, n: nat)
    requires r < n
    ensures r % n == r
  {
  }

  lemma SlotIsModulo(start: nat, k: nat, n: nat)
    requires start < n && k <= n
    ensures Slot(start, k, n) == (start + k) % n
  {
    if n <= start + k {
      ModWraps(start + k - n, n);
    } else {
      SmallModulo(start + k, n);
    }
  }

  /** Writing the first free slot appends to the window. */
  lemma WindowPush<T>(buf: seq<T>, start: nat, len: nat, x: T)
    requires start < |buf| && len < |buf|
    ensures Window(buf[Slot(start, len, |buf|) := x], start, len + 1) == Window(buf, start, len) + [x]
  {
  }

  /** Advancing `start` drops the oldest element of the window. */
  lemma WindowPop<T>(buf: seq<T>, start: nat, len: nat)
    requires start < |buf| && 0 < len <= |buf|
    ensures Window(buf, start, len)[0] == buf[start]
    ensures Window(buf, Slot(start, 1, |buf|), len - 1) == Window(buf, start, len)[1..]
  {
  }
}
