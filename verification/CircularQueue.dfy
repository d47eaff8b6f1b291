/**
 * The single-producer/single-consumer ring of src/circular_queue.h: its capacity
 * rounding, its index arithmetic, and its operations when they are called one at a time.
 * The interleaved form, load by load and store by store, is in Handoff.dfy.
 */
module CircularQueues {
  import opened Bits

  // ---------------------------------------------------------------- capacity rounding

  function BitLength(v: nat): nat {
    if v == 0 then 0 else 1 + BitLength(v / 2)
  }

  /** Some bit of `v` among positions i .. i + width - 1 is set. */
  ghost predicate SetWithin(v: nat, i: nat, width: nat) {
    exists j: nat :: i <= j < i + width && Bit(v, j)
  }

  ghost function Distance(a: nat, b: nat): nat {
    if a < b then b - a else a - b
  }

  /** `r` is the power of two nearest to `size`, the smaller one on a tie. */
  ghost predicate IsNearestPow2(r: nat, size: nat) {
    && IsPow2(r)
    && forall p: nat :: IsPow2(p) ==>
                          || Distance(size, r) < Distance(size, p)
                          || (Distance(size, r) == Distance(size, p) && r <= p)
  }

  lemma {:induction false} BitLengthBounds(v: nat, i: nat)
    ensures v >= Pow2(i) <==> i < BitLength(v)
    decreases v
  {
    if v > 0 && i > 0 { BitLengthBounds(v / 2, i - 1); }
  }

  lemma SetWithinDoubles(v: nat, i: nat, width: nat)
    ensures SetWithin(v, i, 2 * width) <==> SetWithin(v, i, width) || SetWithin(v, i + width, width)
  {
  }

  /** Looking at 32 positions from `i` upwards sees every bit of a 32-bit value. */
  lemma SetWithinWord(v: nat, i: nat)
    requires v < 0x1_0000_0000
    ensures SetWithin(v, i, 32) <==> v >= Pow2(i)
  {
    Pow2Values();
    var j := HighBit(v, i);
    if v >= Pow2(i) {
      var _ := HighBit(v, 32);
    }
  }

  lemma BitOfFill(v: nat, i: nat)
    requires v < 0x1_0000_0000
    ensures SetWithin(v, i, 32) <==> Bit(Pow2(BitLength(v)) - 1, i)
  {
    SetWithinWord(v, i);
    BitLengthBounds(v, i);
    BitOfMask(BitLength(v), i);
  }

  /** A value with a bit set wherever `v` has one at or above it is the all-ones fill of `v`. */
  lemma SmearedIsFill(v: nat, value: nat)
    requires v < 0x1_0000_0000
    requires forall i: nat :: Bit(value, i) <==> SetWithin(v, i, 32)
    ensures value == Pow2(BitLength(v)) - 1
  {
    forall i: nat ensures Bit(value, i) <==> Bit(Pow2(BitLength(v)) - 1, i) { BitOfFill(v, i); }
    SameBits(value, Pow2(BitLength(v)) - 1);
  }

  lemma SmearStep(v: nat, value: nat, shift: nat)
    requires forall i: nat :: Bit(value, i) <==> SetWithin(v, i, shift)
    ensures forall i: nat :: Bit(Or(value, Shr(value, shift)), i) <==> SetWithin(v, i, 2 * shift)
  {
    forall i: nat ensures Bit(Or(value, Shr(value, shift)), i) <==> SetWithin(v, i, 2 * shift) {
      BitOfOr(value, Shr(value, shift), i);
      BitOfShr(value, shift, i);
      SetWithinDoubles(v, i, shift);
    }
  }

  /** No power of two lies strictly between one and its double. */
  lemma NoneBetween(lower: nat, p: nat)
    requires IsPow2(lower) && IsPow2(p)
    ensures p <= lower || p >= 2 * lower
  {
    var k: nat :| lower == Pow2(k);
    var j: nat :| p == Pow2(j);
    if j <= k { Pow2Mono(j, k); } else { Pow2Mono(k + 1, j); }
  }

  /** The closer of the two powers of two around `size` is the nearest of all. */
  lemma CloserOfTwo(size: nat, lower: nat)
    requires IsPow2(lower) && IsPow2(2 * lower) && lower < size <= 2 * lower
    ensures IsNearestPow2(if size - lower <= 2 * lower - size then lower else 2 * lower, size)
  {
    forall p: nat | IsPow2(p) ensures p <= lower || p >= 2 * lower { NoneBetween(lower, p); }
  }

  lemma NearestToOne()
    ensures IsNearestPow2(1, 1)
  {
    assert Pow2(0) == 1;
  }

  /** Zero is not a power of two, and a word-sized result is far from a size above 2^32. */
  lemma NotNearest(r: nat, size: nat)
    requires r == 0 || (size > 0x1_0000_0000 && r <= 0x8000_0000)
    ensures !IsNearestPow2(r, size)
  {
    Pow2Values();
    if r > 0 {
      assert IsPow2(Pow2(32));
      assert Distance(size, Pow2(32)) < Distance(size, r);
    }
  }

  /** Subtraction of `size_t` values, wrapping at 2^64. */
  function Sub64(a: nat, b: nat): int
  {
    if a >= b then a - b else a - b + 0x1_0000_0000_0000_0000
  }

  /** size - 1 in 32 bits. */
  function First(size: nat): (first: nat)
    ensures first < 0x1_0000_0000
    ensures 1 <= size <= 0x1_0000_0000 ==> first == size - 1
    ensures size == 0 ==> first == 0xFFFF_FFFF
    ensures first == 0 ==> size > 0
  {
    (size + 0xFFFF_FFFF) % 0x1_0000_0000
  }

  lemma FillPower(first: nat) returns (p: nat, half: nat)
    requires first < 0x1_0000_0000
    ensures p == Pow2(BitLength(first))
    ensures first >= 0x8000_0000 ==> p == 0x1_0000_0000
    ensures first == 0 ==> p == 1
    ensures 0 < first < 0x8000_0000 ==> IsPow2(half) && IsPow2(p) && p == 2 * half && half <= first < p <= 0x8000_0000
  {
    var k := BitLength(first);
    p, half := Pow2(k), 0;
    Pow2Values();
    if first >= 0x8000_0000 {
      BitLengthBounds(first, 31);
      BitLengthBounds(first, 32);
    } else if first > 0 {
      half := Pow2(k - 1);
      BitLengthBounds(first, 31);
      BitLengthBounds(first, k);
      BitLengthBounds(first, k - 1);
      Pow2Mono(k, 31);
    }
  }

  /** The two candidates, `upper` and its half, for the fill of `first`. */
  lemma Candidates(first: nat) returns (upper: nat)
    requires first < 0x1_0000_0000
    ensures upper == Pow2(BitLength(first)) % 0x1_0000_0000
    ensures first >= 0x8000_0000 ==> upper == 0
    ensures first == 0 ==> upper == 1
    ensures 0 < first < 0x8000_0000 ==>
              && IsPow2(upper / 2) && IsPow2(upper) && upper == 2 * (upper / 2)
              && upper / 2 <= first < upper <= 0x8000_0000
  {
    var p, half := FillPower(first);
    upper := p % 0x1_0000_0000;
    if 0 < first < 0x8000_0000 {
      assert upper == p && upper / 2 == half;
    }
  }

  /** round_to_pow2 as a choice between the candidates. */
  function Choice(size: nat, upper: nat): nat {
    if Sub64(size, upper / 2) <= Sub64(upper, size) then upper / 2 else upper
  }

  /** The sizes whose rounding is 0: the 32-bit arithmetic leaves no candidate, or only the lower one of 1. */
  predicate Slotless(size: nat) {
    First(size) >= 0x8000_0000 || (First(size) == 0 && 1 < size <= 0x8000_0000_0000_0000)
  }

  lemma ChoiceIsPow2OrZero(size: nat, upper: nat)
    requires size < 0x1_0000_0000_0000_0000 && upper == Pow2(BitLength(First(size))) % 0x1_0000_0000
    ensures Choice(size, upper) <= 0x8000_0000 && (Choice(size, upper) == 0 <==> Slotless(size))
    ensures Choice(size, upper) > 0 ==> IsPow2(Choice(size, upper))
  {
    var u := Candidates(First(size));
    if First(size) == 0 { NearestToOne(); }
  }

  lemma ChoiceIsNearest(size: nat, upper: nat)
    requires size < 0x1_0000_0000_0000_0000 && upper == Pow2(BitLength(First(size))) % 0x1_0000_0000
    ensures IsNearestPow2(Choice(size, upper), size) <==> 1 <= size <= 0x8000_0000
  {
    var u := Candidates(First(size));
    if size == 1 {
      NearestToOne();
    } else if 1 < size <= 0x8000_0000 {
      CloserOfTwo(size, upper / 2);
    } else {
      ChoiceIsPow2OrZero(size, upper);
      NotNearest(Choice(size, upper), size);
    }
  }

  /** The shift-or loop: every bit below the leading one of `first` is set. */
  method FillLowBits(first: nat) returns (value: nat)
    requires first < 0x1_0000_0000
    ensures value == Pow2(BitLength(first)) - 1
  {
    value := first;
    var shift := 1;
    while shift < 32
      invariant shift in {1, 2, 4, 8, 16, 32}
      invariant forall i: nat :: Bit(value, i) <==> SetWithin(first, i, shift)
      decreases 32 - shift
    {
      SmearStep(first, value, shift);
      value := Or(value, Shr(value, shift));
      shift := shift * 2;
    }
    SmearedIsFill(first, value);
  }

  lemma HalfOf(upper: nat)
    ensures Shr(upper, 1) == upper / 2
  {
    assert Shr(upper, 1) == Shr(upper / 2, 0);
  }

  /**
   * round_to_pow2, for every 64-bit argument. The result is the nearest power of two (ties go
   * down) exactly for sizes 1 .. 2^31; outside that range the 32-bit arithmetic loses the size, and
   * the result is some power of two or, for the slotless sizes, 0.
   */
  method RoundToPow2(size: nat) returns (r: nat)
    requires size < 0x1_0000_0000_0000_0000
    ensures IsNearestPow2(r, size) <==> 1 <= size <= 0x8000_0000
    ensures r <= 0x8000_0000 && (r == 0 <==> Slotless(size)) && (r > 0 ==> IsPow2(r))
  {
    var value := FillLowBits(First(size));
    var upper := (value + 1) % 0x1_0000_0000;
    var lower := Shr(upper, 1);
    HalfOf(upper);
    ChoiceIsNearest(size, upper);
    ChoiceIsPow2OrZero(size, upper);
    if Sub64(size, lower) <= Sub64(upper, size) {
      r := lower;
    } else {
      r := upper;
    }
    assert r == Choice(size, upper);
  }

  // ---------------------------------------------------------------- index arithmetic

  /** next(): the mask form the code uses. */
  function Next(index: nat, capacity: nat): nat
    requires capacity > 0
  {
    And(index + 1, capacity - 1)
  }

  function Wrap(i: nat, capacity: nat): nat {
    if i < capacity then i else i - capacity
  }

  lemma NextWraps(index: nat, capacity: nat)
    requires IsPow2(capacity) && index < capacity
    ensures Next(index, capacity) == Wrap(index + 1, capacity)
  {
    var k: nat :| capacity == Pow2(k);
    AndMask(index + 1, k);
    if index + 1 < capacity {
      ModUnique(index + 1, capacity, 0, index + 1);
    } else {
      ModUnique(capacity, capacity, 1, 0);
    }
  }

  /** The slot that element number `n` of the stream occupies. */
  function Slot(n: nat, capacity: nat): (i: nat)
    requires capacity > 0
    ensures i < capacity
  {
    if n < capacity then n else Slot(n - capacity, capacity)
  }

  /** Advancing the slot of element `n` gives the slot of element `n + 1`. */
  lemma {:induction false} NextSlot(n: nat, capacity: nat)
    requires IsPow2(capacity)
    ensures Next(Slot(n, capacity), capacity) == Slot(n + 1, capacity)
  {
    if n < capacity {
      NextWraps(n, capacity);
    } else {
      NextSlot(n - capacity, capacity);
    }
  }

  /** Elements less than a whole turn apart occupy different slots. */
  lemma {:induction false} SlotsDiffer(a: nat, b: nat, capacity: nat)
    requires capacity > 0 && a < b < a + capacity
    ensures Slot(a, capacity) != Slot(b, capacity)
  {
    if a >= capacity {
      SlotsDiffer(a - capacity, b - capacity, capacity);
    }
  }

  // ---------------------------------------------------------------- one call at a time

  /** Number of steps from `head` forward to `tail`. */
  function Used(head: nat, tail: nat, capacity: nat): nat
    requires head < capacity && tail < capacity
  {
    if head <= tail then tail - head else tail + capacity - head
  }

  /** The elements from `head` up to, not including, `tail`. */
  function Window<T>(slots: seq<T>, head: nat, tail: nat): (w: seq<T>)
    requires head < |slots| && tail < |slots|
    ensures |w| == Used(head, tail, |slots|)
    ensures forall i :: 0 <= i < |w| ==> w[i] == slots[Wrap(head + i, |slots|)]
  {
    if head <= tail then slots[head..tail] else slots[head..] + slots[..tail]
  }

  class CircularQueue<T(0)> {
    const capacity: nat
    const buffer: array<T>
    var head: nat
    var tail: nat

    ghost predicate Valid()
      reads this
    {
      && IsPow2(capacity) && buffer.Length == capacity
      && head < capacity && tail < capacity
    }

    /** What the queue holds, oldest first. */
    ghost function Contents(): seq<T>
      reads this, buffer
      requires Valid()
    {
      Window(buffer[..], head, tail)
    }

    constructor (requested: nat)
      requires requested < 0x1_0000_0000_0000_0000
      ensures fresh(buffer) && buffer.Length == capacity && (Valid() <==> !Slotless(requested))
      ensures Valid() ==> Contents() == []
      ensures IsNearestPow2(capacity, requested) <==> 1 <= requested <= 0x8000_0000
    {
      var c := RoundToPow2(requested);
      capacity := c;
      buffer := new T[c];
      head, tail := 0, 0;
    }

    method IsFull() returns (full: bool)
      requires Valid()
      ensures full <==> |Contents()| == capacity - 1
    {
      NextWraps(tail, capacity);
      full := Next(tail, capacity) == head;
    }

    method IsEmpty() returns (empty: bool)
      requires Valid()
      ensures empty <==> Contents() == []
    {
      empty := head == tail;
    }

    method Front() returns (x: T)
      requires Valid() && Contents() != []
      ensures x == Contents()[0]
    {
      x := buffer[head];
    }

    /** Appends unless capacity - 1 elements are already stored. */
    method Push(data: T) returns (ok: bool)
      requires Valid()
      modifies this`tail, buffer
      ensures Valid()
      ensures ok <==> |old(Contents())| < capacity - 1
      ensures Contents() == if ok then old(Contents()) + [data] else old(Contents())
    {
      NextWraps(tail, capacity);
      var next := Next(tail, capacity);
      if next != head {
        buffer[tail] := data;
        tail := next;
        return true;
      }
      return false;
    }

    method Pop() returns (ok: bool)
      requires Valid()
      modifies this`head
      ensures Valid()
      ensures ok <==> old(Contents()) != []
      ensures Contents() == if ok then old(Contents())[1..] else old(Contents())
    {
      if head == tail {
        return false;
      }
      NextWraps(head, capacity);
      head := Next(head, capacity);
      return true;
    }
  }
}
