# Seq32: circular 32-bit sequence numbers

This project models `Seq32`, the 32-bit sequence number of the `seq` crate,
together with the operations of its `Seq` trait. A sequence number is a
position on a ring of 2^32 points. `new` and `value` wrap and unwrap a raw
`u32`, and `zero()` is position 0. `add`, `add_usize` and `sub_usize` move
round the ring modulo 2^32. The `Ord` comparison decides which of two
positions comes first by the shorter way between them. `dist` is the length
of that shorter way.

Files:

- `seq.dfy`, module `Seq`: the `Seq32` datatype and its operations. It also
  holds two reference definitions that the contracts are stated against:
  `Forward` is the wrapping forward gap, and `RingBefore` is the circular
  order.
- `seq_laws.dfy`, module `SeqLaws`: the trait's obligations as lemmas over
  all sequence numbers, among them that `k` successive `add(1)` calls equal
  one `add_usize(k)`.
- `seq32_tests.dfy`, module `Seq32Tests`: each unit test of
  `src/seq32.rs` as a lemma.

The `Seq` trait (src/lib.rs:5-10) gives the interface, and the tests in
`src/seq32.rs` fix the behaviour at two points where a plausible rule would
differ:

- The comparison: a rule that keeps the plain numeric order when the raw
  values are exactly 2^31 apart fails `cmp_far` (src/seq32.rs:29), which
  requires `new(2^31) < new(0)`. So a gap of exactly 2^31 reverses the plain
  order: `Cmp` keeps the plain order only for a gap below 2^31, and by
  antisymmetry `Cmp(new(0), new(2^31))` is `Greater`.
- The distance: a rule that takes `dist` as the plain absolute difference of
  the raw values fails `sub_wraparound` (src/seq32.rs:50), which requires
  `dist(new(0), new(u32::MAX)) == 1`. So `dist` is the wrapping difference
  from the circularly smaller number to the larger one, which is the shorter
  way round (at most 2^31).

## Model

| member | source | states |
|---|---|---|
| `Seq.New` | src/seq32.rs:3 | every raw `u32` is a sequence number, and `value()` gives it back unchanged |
| `Seq.Value` | src/seq32.rs:36 | `value()` is the raw value, which is the number of steps `add_usize` takes from `zero()` to the number |
| `Seq.AddUsize` | src/lib.rs:6 | `add_usize(n)` (raw value `(a.raw + n) mod 2^32`, the reference definition whose laws `AddWholeTurns`, `AddCompose` and `SubUndoesAdd` state) returns the number itself exactly when `n` is a whole number of turns |
| `Seq.Zero` | src/lib.rs:9 | `zero()` has raw value 0; adding `n` to it gives the number with raw value `n mod 2^32` |
| `Seq.Add` | src/seq32.rs:33-44 | `add` with a `u32` step is the 32-bit wrapping sum (one carry out subtracts 2^32), and equals `add_usize` with the same step |
| `Seq.SubUsize` | src/lib.rs:7 | `sub_usize(n)` gives the number from which `add_usize(n)` leads back to the original, for every natural `n` |
| `Seq.Forward` | src/lib.rs:6 | the wrapping gap from `a` to `b` is below 2^32 and `add_usize` by it takes `a` to `b` |
| `Seq.ForwardUnique` | src/lib.rs:6 | no other step below 2^32 takes `a` to `b` |
| `Seq.Cmp` | src/lib.rs:5 | `Equal` exactly when the raw values are equal; `Less` exactly when `b` is less than half a turn ahead of `a`, or exactly half a turn ahead with `a` numerically larger; `Greater` exactly in the mirror case |
| `Seq.Dist` | src/lib.rs:8 | `dist` is at most 2^31, is zero exactly for equal numbers, and is the smaller of the two forward gaps (the short way round) |
| `SeqLaws.CmpAntisymmetric` | src/lib.rs:5 | swapping the operands reverses the comparison, so `a < b` exactly when `cmp(b, a)` is `Greater`, also at a gap of exactly 2^31 |
| `SeqLaws.LtTrichotomy` | src/lib.rs:5 | for any two numbers exactly one of `a < b`, `a == b`, `b < a` holds |
| `SeqLaws.HalfApartLargerFirst` | src/seq32.rs:24-30 | of two numbers exactly 2^31 apart, the numerically larger comes first |
| `SeqLaws.LtNotTransitive` | src/lib.rs:5 | the order `Ord` nominally requires to be transitive is not: 0 < 2^30 < 2^31 but 2^31 < 0 |
| `SeqLaws.AddMovesForward` | src/lib.rs:6 | a step of less than half a turn leads to a later number, a step of more than half a turn to an earlier one |
| `SeqLaws.AddWholeTurns` | src/lib.rs:6 | `add_usize(0)` and `add_usize` by any multiple of 2^32 return the number unchanged |
| `SeqLaws.AddCompose` | src/lib.rs:6 | `add_usize(m)` then `add_usize(n)` equals `add_usize(m + n)` |
| `SeqLaws.SubUndoesAdd` | src/lib.rs:6-7 | `sub_usize(n)` after `add_usize(n)` returns the original number for every natural `n` |
| `SeqLaws.CmpShiftInvariant` | src/lib.rs:5-6 | adding the same step to two numbers keeps their forward gap, and keeps their order unless they are exactly half a turn apart |
| `SeqLaws.DistSymmetric` | src/lib.rs:8 | `dist(a, b) == dist(b, a)` and `dist(a, a) == 0` |
| `SeqLaws.DistReachesLater` | src/seq32.rs:47-51 | adding `dist(a, b)` to the earlier of the two numbers gives the later one |
| `SeqLaws.Advance` | src/seq32.rs:33-44 | `k` successive `add(1)` calls land where `add_usize(k)` lands, wrapping through 0 as often as needed |
| `SeqLaws.AdvanceIsLater` | src/lib.rs:5-6 | for `j < k < 2^31`, `k` successive `add(1)` calls give a number later than `j` of them do |
| `SeqLaws.LaterByStep` | src/lib.rs:5-6 | a number reached by `add_usize` with a positive step below 2^31 comes later |
| `Seq32Tests.CmpWraparound` | src/seq32.rs:10-14 | `new(u32::MAX) < new(0)` |
| `Seq32Tests.CmpNoWraparound` | src/seq32.rs:17-21 | `new(0) < new(1)` |
| `Seq32Tests.CmpFar` | src/seq32.rs:24-30 | `new(0) < new(2^31 - 1)` and `new(2^31) < new(0)` |
| `Seq32Tests.AddWraparound` | src/seq32.rs:33-37 | `new(u32::MAX).add(1).value() == 0` |
| `Seq32Tests.AddNoWraparound` | src/seq32.rs:40-44 | `new(0).add(1).value() == 1` |
| `Seq32Tests.SubWraparound` | src/seq32.rs:47-51 | `dist(new(0), new(u32::MAX)) == 1` |
| `Seq32Tests.SubZero` | src/seq32.rs:54-58 | `dist(new(1), new(1)) == 0` |
| `Seq32Tests.SubNoWraparound` | src/seq32.rs:61-65 | `dist(new(3), new(1)) == 2` |

`Seq.Lt` is the `<` operator derived from `Cmp`.

## Left out

- Transitivity of `Ord`: the circular order is not transitive, so it is not
  proved; `SeqLaws.LtNotTransitive` states the counterexample.
- Widths other than 32 bits and the generic `Seq<T>` struct: only the 32-bit
  instance is modelled.
- The platform width of `usize`: `usize` arguments are unbounded naturals
  reduced modulo 2^32, and the `usize` result of `dist` is a natural.
- The rest of Rust's `PartialOrd`/`Ord` machinery (`partial_cmp`, `<=`,
  `>`, `>=`, `max`, `min`, `clamp`): only `cmp` and the `<` used by the
  tests are modelled; the others follow from `cmp` in the usual way.
- The test harness itself: the tests are lemmas, nothing is executed.
