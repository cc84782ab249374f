/** The MIDI receive ring buffer: 32 byte slots, `head` (last slot written by
    the receive interrupt), `tail` (last slot read by the main loop) and the
    live-byte counter. Indices advance with a mask by 31, so one slot always
    stays unused and at most 31 bytes are held. Push and pop are modelled as
    atomic steps. */
module Ring {
  import opened Base
  import opened Config

  /** The 32-slot byte array. */
  type Buffer = s: seq<bv8> | |s| == RxBufSize witness Zeros

  const Zeros: seq<bv8> := [0, 0, 0, 0, 0, 0, 0, 0, 0, 0, 0, 0, 0, 0, 0, 0,
                           0, 0, 0, 0, 0, 0, 0, 0, 0, 0, 0, 0, 0, 0, 0, 0]

  /** `MIDIbuffer`, `MIDIbufferHead`, `MIDIbufferTail`, `MIDIbytes`. */
  datatype Ring = Ring(buf: Buffer, head: u8, tail: u8, count: u8)

  /** Usable capacity: one slot is given up to tell full from empty. */
  const Capacity: int := RxBufSize - 1

  /** The next index after `x`, `(x + 1) & MIDI_RX_BUF_MASK`, written as the
      remainder modulo 32 that the mask computes (`MaskedNext`). */
  function Next(x: u8): u8 {
    (x + 1) % RxBufSize
  }

  /** The mask by 31 and the remainder modulo 32 agree on every index,
      including the wrap from 31 to 0. */
  lemma MaskedNext(x: u8)
    requires x < RxBufSize
    ensures Next(x) == (((x + 1) as bv8) & (RxBufMask as bv8)) as int
    ensures x == RxBufSize - 1 ==> Next(x) == 0
  {
    BufferMaskIsModulo(x + 1);
  }

  /** The power-on state: zeroed statics. */
  function Empty(): Ring {
    Ring(Zeros, 0, 0, 0)
  }

  /** Indices stay inside the array and the counter is the distance from
      `tail` to `head` around the ring. */
  predicate Valid(r: Ring) {
    r.head < RxBufSize && r.tail < RxBufSize && r.count == (r.head - r.tail) % RxBufSize
  }

  /** The bytes waiting to be read, oldest first: the `count` slots after `tail`. */
  function Contents(r: Ring): (s: seq<bv8>)
    ensures |s| == r.count
  {
    seq(r.count, k requires 0 <= k < r.count => r.buf[(r.tail + 1 + k) % RxBufSize])
  }

  /** `MIDIisReady()`: some received byte is waiting. In a consistent ring
      that is the same as the two indices differing. */
  function IsReady(r: Ring): (ready: bool)
    ensures ready <==> |Contents(r)| > 0
    ensures Valid(r) ==> (ready <==> r.head != r.tail)
  {
    r.count > 0
  }

  /** The interrupt's overflow test: advancing `head` would land on `tail`. */
  predicate Full(r: Ring) {
    Next(r.head) == r.tail
  }

  /** A valid ring holds at most 31 bytes; it is ready exactly when it holds
      some byte, and full exactly when it holds 31. */
  lemma ValidMeaning(r: Ring)
    requires Valid(r)
    ensures r.count <= Capacity
    ensures IsReady(r) <==> |Contents(r)| > 0
    ensures Full(r) <==> |Contents(r)| == Capacity
  {}

  lemma EmptyIsValid()
    ensures Valid(Empty()) && Contents(Empty()) == [] && !IsReady(Empty())
  {}

  /** The receive interrupt body: when the ring is full the byte is dropped
      and nothing changes; otherwise `head` advances, the byte is stored at
      the new `head` and the counter goes up by one (as a `uint8_t`). */
  function Push(r: Ring, b: bv8): (r': Ring)
    ensures Full(r) ==> r' == r
    ensures !Full(r) ==> r'.head == (r.head + 1) % RxBufSize && r'.buf[r'.head] == b
    ensures !Full(r) ==> r'.tail == r.tail && r'.count == (r.count + 1) % 256
    ensures !Full(r) ==> forall k :: 0 <= k < RxBufSize && k != r'.head ==> r'.buf[k] == r.buf[k]
  {
    var newHead := Next(r.head);
    if newHead == r.tail then r
    else r.(head := newHead, buf := r.buf[newHead := b], count := (r.count + 1) % 256)
  }

  /** `MIDIgetByte()`: `tail` advances, the byte there is returned and the
      counter goes down by one (as a `uint8_t`, so it wraps to 255 when the
      caller did not first check `MIDIisReady`). */
  function Pop(r: Ring): (res: (bv8, Ring))
    ensures res.1.tail == (r.tail + 1) % RxBufSize && res.0 == r.buf[res.1.tail]
    ensures res.1.count == (r.count - 1) % 256
    ensures res.1.head == r.head && res.1.buf == r.buf
  {
    var t := Next(r.tail);
    (r.buf[t], r.(tail := t, count := (r.count - 1) % 256))
  }

  /** Two positions less than a full turn apart land on different slots. */
  lemma ModDistinct(a: int, d: int)
    requires 0 <= a && 0 < d < RxBufSize
    ensures a % RxBufSize != (a + d) % RxBufSize
  {
    var q := a / RxBufSize;
    assert a == q * RxBufSize + a % RxBufSize;
    if a % RxBufSize + d < RxBufSize {
      assert (a + d) % RxBufSize == a % RxBufSize + d;
    } else {
      assert a + d == (q + 1) * RxBufSize + (a % RxBufSize + d - RxBufSize);
      assert (a + d) % RxBufSize == a % RxBufSize + d - RxBufSize;
    }
  }

  /** Reducing before or after adding `c` lands on the same slot. */
  lemma ModShift(a: nat, c: nat)
    ensures (a % RxBufSize + c) % RxBufSize == (a + c) % RxBufSize
  {
    var q := a / RxBufSize;
    assert a + c == q * RxBufSize + (a % RxBufSize + c);
  }

  /** In a valid ring `head` sits `count` slots after `tail`. */
  lemma HeadFromTail(r: Ring)
    requires Valid(r)
    ensures r.head == (r.tail + r.count) % RxBufSize
  {
    if r.head >= r.tail {
      assert r.count == r.head - r.tail;
    } else {
      assert r.count == r.head - r.tail + RxBufSize;
    }
  }

  /** Below capacity the interrupt stores the byte: the ring stays valid
      and holds one more byte. */
  lemma PushStores(r: Ring, b: bv8)
    requires Valid(r) && r.count < Capacity
    ensures !Full(r)
    ensures Valid(Push(r, b)) && Push(r, b).count == r.count + 1
  {
    HeadFromTail(r);
    var h := Next(r.head);
    if r.tail + r.count + 1 < RxBufSize {
      assert r.head == r.tail + r.count;
      assert h == r.tail + r.count + 1;
    } else {
      assert r.head == r.tail + r.count - RxBufSize || r.head == r.tail + r.count;
      assert h == r.tail + r.count + 1 - RxBufSize;
    }
    assert h != r.tail;
  }

  /** At capacity the interrupt's overflow test fires. */
  lemma PushAtCapacity(r: Ring)
    requires Valid(r) && r.count == Capacity
    ensures Full(r)
  {
    HeadFromTail(r);
  }

  /** A stored byte leaves every waiting byte in place ... */
  lemma PushKeepsWaiting(r: Ring, b: bv8, k: int)
    requires Valid(r) && r.count < Capacity && 0 <= k < r.count
    ensures |Contents(Push(r, b))| == r.count + 1
    ensures Contents(Push(r, b))[k] == Contents(r)[k]
  {
    PushStores(r, b);
    var r' := Push(r, b);
    HeadFromTail(r);
    ModShift(r.tail + r.count, 1);
    assert r'.head == (r.tail + r.count + 1) % RxBufSize;
    var idx := (r.tail + 1 + k) % RxBufSize;
    ModDistinct(r.tail + 1 + k, r.count - k);
    assert idx != r'.head;
    assert r'.tail == r.tail;
    assert Contents(r')[k] == r'.buf[idx] == r.buf[idx];
  }

  /** ... and becomes the newest one. */
  lemma PushAddsNewest(r: Ring, b: bv8)
    requires Valid(r) && r.count < Capacity
    ensures |Contents(Push(r, b))| == r.count + 1
    ensures Contents(Push(r, b))[r.count] == b
  {
    PushStores(r, b);
    HeadFromTail(r);
  }

  /** Pushing onto a valid ring keeps it valid and appends the byte to the
      queue unless the queue already holds 31 bytes, in which case the new
      byte is the one dropped. */
  lemma PushQueue(r: Ring, b: bv8)
    requires Valid(r)
    ensures Valid(Push(r, b))
    ensures |Contents(r)| < Capacity ==> Contents(Push(r, b)) == Contents(r) + [b]
    ensures |Contents(r)| == Capacity ==> Contents(Push(r, b)) == Contents(r)
  {
    if r.count < Capacity {
      PushStores(r, b);
      var s, s' := Contents(r), Contents(Push(r, b));
      forall k | 0 <= k < |s|
        ensures s'[k] == s[k]
      {
        PushKeepsWaiting(r, b, k);
      }
      PushAddsNewest(r, b);
      assert s' == s + [b];
    } else {
      PushAtCapacity(r);
    }
  }

  /** Popping a ready valid ring keeps it valid and returns the oldest byte. */
  lemma PopQueue(r: Ring)
    requires Valid(r) && IsReady(r)
    ensures Valid(Pop(r).1)
    ensures Pop(r).0 == Contents(r)[0]
    ensures Contents(Pop(r).1) == Contents(r)[1..]
  {
    var (b, r') := Pop(r);
    HeadFromTail(r);
    assert r'.count == r.count - 1;
    assert Valid(r') by {
      if r.tail + 1 < RxBufSize {
        assert r'.tail == r.tail + 1;
      } else {
        assert r'.tail == 0;
      }
    }
    forall k | 0 <= k < r'.count
      ensures Contents(r')[k] == Contents(r)[k + 1]
    {
      ModShift(r.tail + 1, 1 + k);
    }
    assert Contents(r') == Contents(r)[1..];
  }

  /** Popping an empty ring, which `MIDIgetByte` does not guard against,
      breaks the counter invariant: the counter wraps to 255. */
  lemma PopUnderflow(r: Ring)
    requires Valid(r) && !IsReady(r)
    ensures Pop(r).1.count == 255 && !Valid(Pop(r).1)
  {}

  /** The interrupt fires once per received byte, in order. */
  function PushAll(r: Ring, bs: seq<bv8>): Ring
    decreases |bs|
  {
    if bs == [] then r else PushAll(Push(r, bs[0]), bs[1..])
  }

  /** The main loop drains `n` bytes, returning them in the order read. */
  function PopN(r: Ring, n: nat): (bytes: seq<bv8>)
    ensures |bytes| == n
    decreases n
  {
    if n == 0 then []
    else
      var (b, r') := Pop(r);
      [b] + PopN(r', n - 1)
  }

  function Min(a: int, b: int): int {
    if a <= b then a else b
  }

  /** FIFO with newest-dropped overflow: after any burst of received bytes
      the queue holds the old queue followed by as many of the new bytes, in
      arrival order, as fit in 31 slots. */
  lemma {:induction false} PushAllQueue(r: Ring, bs: seq<bv8>)
    requires Valid(r)
    ensures Valid(PushAll(r, bs))
    ensures Contents(PushAll(r, bs)) ==
              (Contents(r) + bs)[..Min(Capacity, |Contents(r)| + |bs|)]
    decreases |bs|
  {
    if bs != [] {
      var r1 := Push(r, bs[0]);
      PushQueue(r, bs[0]);
      PushAllQueue(r1, bs[1..]);
      var c := Contents(r);
      if |c| < Capacity {
        assert c + bs == (c + [bs[0]]) + bs[1..];
      } else {
        var n := Min(Capacity, |c| + |bs|);
        var n1 := Min(Capacity, |c| + |bs[1..]|);
        assert n == n1 == |c|;
        assert (c + bs)[..n] == c == (c + bs[1..])[..n1];
      }
    }
  }

  /** Draining `n` waiting bytes returns exactly the first `n` of the queue. */
  lemma {:induction false} PopNQueue(r: Ring, n: nat)
    requires Valid(r) && n <= |Contents(r)|
    ensures PopN(r, n) == Contents(r)[..n]
    decreases n
  {
    if n > 0 {
      PopQueue(r);
      var (b, r') := Pop(r);
      PopNQueue(r', n - 1);
      assert Contents(r)[..n] == [Contents(r)[0]] + Contents(r)[1..][..n - 1];
    }
  }

  /** Round trip: bytes received into an empty ring, up to 31 of them, are
      read back in exactly the order they arrived. */
  lemma FifoRoundTrip(r: Ring, bs: seq<bv8>)
    requires Valid(r) && !IsReady(r) && |bs| <= Capacity
    ensures PopN(PushAll(r, bs), |bs|) == bs
  {
    var r' := PushAll(r, bs);
    PushAllQueue(r, bs);
    assert Contents(r) == [];
    assert Contents(r) + bs == bs;
    assert Contents(r') == bs[..|bs|] == bs;
    PopNQueue(r', |bs|);
  }
}
