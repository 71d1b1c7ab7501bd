/** 32-bit circular sequence numbers: the `Seq32` value type and the
    operations of the `Seq` trait (wrapping add and subtract, the circular
    order, the short-way distance and the zero element).

    A sequence number is a position on a ring of 2^32 points. Arithmetic
    wraps round the ring, and the order compares two positions by the shorter
    way between them, so that a counter which has just overflowed to a small
    value still counts as later than the large value it came from. */
module Seq {

  /** Outcome of a three-way comparison (Rust's `core::cmp::Ordering`). */
  datatype Ordering = Less | Equal | Greater {
    /** The outcome of the same comparison with its operands swapped. */
    function Reverse(): Ordering {
      match this
      case Less => Greater
      case Equal => Equal
      case Greater => Less
    }
  }

  /** Number of points on the ring, 2^32. */
  const Modulus: nat := 0x1_0000_0000
  /** Half a turn of the ring, 2^31. */
  const Half: nat := 0x8000_0000
  /** `u32::MAX`, the last point before the ring wraps to 0. */
  const U32Max: nat := 0xFFFF_FFFF

  /** Rust's `u32`. */
  type U32 = x: int | 0 <= x < 0x1_0000_0000

  /** A 32-bit sequence number; equality is equality of the raw values. */
  datatype Seq32 = Seq32(raw: U32)

  /** `Seq32::new(v)`: every raw value is a valid sequence number. */
  function New(v: U32): (s: Seq32)
    ensures Value(s) == v
  {
    Seq32(v)
  }

  /** `value()`: the raw value, which is how many steps forward from
      `zero()` the number lies. */
  function Value(s: Seq32): (v: U32)
    ensures AddUsize(Zero(), v) == s
  {
    s.raw
  }

  /** `Seq::zero()`. */
  function Zero(): (z: Seq32)
    ensures z.raw == 0
    ensures forall n: nat :: AddUsize(z, n) == Seq32(n % Modulus)
  {
    Seq32(0)
  }

  /** `Seq::add_usize(n)`: move `n` steps forward round the ring. The
      result is `a` itself exactly when `n` is a whole number of turns. */
  function AddUsize(a: Seq32, n: nat): (r: Seq32)
    ensures r == a <==> n % Modulus == 0
  {
    Seq32((a.raw + n) % Modulus)
  }

  /** `add(n)` with a `u32` step, written as the wrapping addition of two
      32-bit words: one subtraction of the modulus on carry out. It is the
      same step as `add_usize`. */
  function Add(a: Seq32, n: U32): (r: Seq32)
    ensures r == AddUsize(a, n)
  {
    if a.raw + n < Modulus then Seq32(a.raw + n) else Seq32(a.raw + n - Modulus)
  }

  /** `Seq::sub_usize(n)`: move `n` steps backward round the ring. It undoes
      `add_usize` with the same step. */
  function SubUsize(a: Seq32, n: nat): (r: Seq32)
    ensures AddUsize(r, n) == a
  {
    Seq32((a.raw - n) % Modulus)
  }

  /** Steps needed to walk forward round the ring from `a` to `b` (the
      wrapping difference `b - a`). */
  function Forward(a: Seq32, b: Seq32): (d: nat)
    ensures d < Modulus
    ensures AddUsize(a, d) == b
  {
    (b.raw - a.raw) % Modulus
  }

  /** `Forward` is the only step below a full turn that takes `a` to `b`. */
  lemma ForwardUnique(a: Seq32, b: Seq32, n: nat)
    requires n < Modulus && AddUsize(a, n) == b
    ensures n == Forward(a, b)
  {
  }

  /** Reference definition of the circular order: `b` lies less than half a
      turn ahead of `a`, or exactly half a turn ahead while `a` is the
      numerically larger of the two. */
  predicate RingBefore(a: Seq32, b: Seq32)
  {
    var d := Forward(a, b);
    0 < d < Half || (d == Half && a.raw > b.raw)
  }

  /** `Ord::cmp`. Equal raw values are `Equal`. Otherwise, with `d` the
      plain gap between the raw values, a gap below half a turn keeps the
      plain numeric order and a gap of half a turn or more reverses it. */
  function Cmp(a: Seq32, b: Seq32): (r: Ordering)
    ensures r == Equal <==> a == b
    ensures r == Less <==> RingBefore(a, b)
    ensures r == Greater <==> RingBefore(b, a)
  {
    if a.raw == b.raw then Equal
    else if a.raw < b.raw then
      (if b.raw - a.raw < Half then Less else Greater)
    else
      (if a.raw - b.raw < Half then Greater else Less)
  }

  /** The `<` operator derived from `Cmp`. */
  predicate Lt(a: Seq32, b: Seq32)
  {
    Cmp(a, b) == Less
  }

  /** `Seq::dist`: the wrapping difference from the circularly smaller of
      the two to the larger, which is the shorter way round the ring. */
  function Dist(a: Seq32, b: Seq32): (d: nat)
    ensures d <= Half
    ensures d == 0 <==> a == b
    ensures d == if Forward(a, b) <= Forward(b, a) then Forward(a, b) else Forward(b, a)
  {
    match Cmp(a, b)
    case Less => (b.raw - a.raw) % Modulus
    case _ => (a.raw - b.raw) % Modulus
  }
}
