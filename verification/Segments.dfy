/** Segment arithmetic: `count_segments` and the lengths that `upload_file` gives its segments. */
module Segments {
  const MAX_SEGMENT: nat := 1048576
  const INT_MAX: int := 0x7FFF_FFFF

  /** Conversion to a 32-bit signed `int`. */
  function ToInt32(x: int): (r: int)
    ensures -INT_MAX - 1 <= r <= INT_MAX
    ensures -INT_MAX - 1 <= x <= INT_MAX ==> r == x
    ensures x >= 0 ==> r <= x
    ensures (x - r) % 0x1_0000_0000 == 0
  {
    var m := x % 0x1_0000_0000;
    if m > INT_MAX then m - 0x1_0000_0000 else m
  }

  /** `count_segments`: the quotient is truncated to `int` before the possible increment. */
  function CountSegments(size: nat): int {
    var n := ToInt32(size / MAX_SEGMENT);
    if size % MAX_SEGMENT == 0 then n else ToInt32(n + 1)
  }

  /** The number of segments that cover `size` bytes. */
  function Ceiling(size: nat): nat {
    (size + MAX_SEGMENT - 1) / MAX_SEGMENT
  }

  /** Sizes whose segment count is representable: everything up to 2 PiB. */
  predicate Countable(size: nat) {
    Ceiling(size) <= INT_MAX
  }

  lemma CountIsExactIff(size: nat)
    ensures CountSegments(size) == Ceiling(size) <==> Countable(size)
  {
    var q, r := size / MAX_SEGMENT, size % MAX_SEGMENT;
    assert size == q * MAX_SEGMENT + r;
    assert Ceiling(size) == if r == 0 then q else q + 1;
  }

  /** The count is always the number of segments needed, wrapped around to an `int`. */
  lemma CountIsWrapped(size: nat)
    ensures CountSegments(size) == ToInt32(Ceiling(size))
  {
    var q, r := size / MAX_SEGMENT, size % MAX_SEGMENT;
    assert size == q * MAX_SEGMENT + r;
    assert Ceiling(size) == if r == 0 then q else q + 1;
  }

  /** A mebibyte is one segment, and one byte more needs a second one. */
  lemma SegmentIsOneMebibyte()
    ensures CountSegments(1048576) == 1 && CountSegments(1048577) == 2 && CountSegments(1) == 1 && CountSegments(0) == 0
  {}

  /** The bound of the loop in `upload_file`: an empty file, too, gets one segment; a wrapped count may get none. */
  function Requests(size: nat): (n: int)
    ensures n <= INT_MAX && n != 0
    ensures Countable(size) ==> n >= 1
  {
    CountIsExactIff(size);
    var n := CountSegments(size);
    if n == 0 then 1 else n
  }

  /** The length `upload_file` computes for segment `i`. */
  function SegmentLength(size: nat, i: int): (len: nat) {
    if i == Requests(size) - 1 then
      if size == 0 then 0
      else if size % MAX_SEGMENT != 0 then size % MAX_SEGMENT
      else MAX_SEGMENT
    else MAX_SEGMENT
  }

  /** How many bytes of a file the segments cover. */
  function Covered(size: nat): nat {
    if Requests(size) <= 0 then 0
    else (Requests(size) - 1) * MAX_SEGMENT + SegmentLength(size, Requests(size) - 1)
  }

  /** The segments lie in the file; only the last may be short. */
  lemma SegmentEnd(size: nat, i: nat)
    requires i < Requests(size)
    ensures i * MAX_SEGMENT + SegmentLength(size, i) <= Covered(size) <= size
    ensures i < Requests(size) - 1 ==> SegmentLength(size, i) == MAX_SEGMENT
    ensures i == Requests(size) - 1 ==> i * MAX_SEGMENT + SegmentLength(size, i) == Covered(size)
    ensures SegmentLength(size, i) <= MAX_SEGMENT
    ensures size > 0 ==> SegmentLength(size, i) > 0
  {
    CoversFileIff(size);
  }

  /** The whole file is covered exactly when its segment count is representable. */
  lemma CoversFileIff(size: nat)
    ensures Covered(size) <= size
    ensures Covered(size) == size <==> Countable(size)
  {
    CountIsExactIff(size);
    var q, r := size / MAX_SEGMENT, size % MAX_SEGMENT;
    assert size == q * MAX_SEGMENT + r;
    assert Ceiling(size) == if r == 0 then q else q + 1;
  }

  /** Sizes at which the count wraps: nothing would be sent of 2 PiB, and a single segment of 4 PiB. */
  lemma CountWraps()
    ensures Requests(0x8_0000_0000_0000) < 0 && Covered(0x8_0000_0000_0000) == 0
    ensures CountSegments(0x10_0000_0000_0000) == 0 && Covered(0x10_0000_0000_0000) == MAX_SEGMENT
  {
    assert ToInt32(0x8000_0000) == -0x8000_0000 && ToInt32(0x1_0000_0000) == 0;
  }

  /** The total length of the first `n` segments. */
  function TotalLength(size: nat, n: nat): nat {
    if n == 0 then 0 else TotalLength(size, n - 1) + SegmentLength(size, n - 1)
  }

  /** The segments of `upload_file` add up, to the whole file if it is countable. */
  lemma {:induction false} SegmentsCoverFile(size: nat, n: nat)
    requires n <= Requests(size)
    ensures n < Requests(size) ==> TotalLength(size, n) == n * MAX_SEGMENT
    ensures n == Requests(size) ==> TotalLength(size, n) == Covered(size)
    ensures n == Requests(size) && Countable(size) ==> TotalLength(size, n) == size
  {
    CoversFileIff(size);
    if n > 0 {
      SegmentsCoverFile(size, n - 1);
      SegmentEnd(size, n - 1);
    }
  }

  /** `read_file_segment` compares an offset with the length truncated to `int`. */
  predicate OffsetAccepted(length: nat, i: nat) {
    i * MAX_SEGMENT <= ToInt32(length)
  }

  predicate OffsetsAccepted(length: nat, n: nat) {
    forall i: nat | i < n :: OffsetAccepted(length, i)
  }

  /** Every offset a restore asks for is accepted exactly for files below 2 GiB. */
  lemma OffsetsAcceptedIff(length: nat)
    requires Countable(length)
    ensures OffsetsAccepted(length, Requests(length)) <==> length <= INT_MAX
  {
    var last := Requests(length) - 1;
    SegmentEnd(length, last);
    if length > INT_MAX {
      assert !OffsetAccepted(length, last);
    } else {
      forall i: nat | i < Requests(length)
        ensures OffsetAccepted(length, i)
      {
        SegmentEnd(length, i);
      }
    }
  }
}
