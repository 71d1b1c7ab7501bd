/** The obligations the `Seq` trait places on `Seq32`: the `Ord` contract
    as far as the circular order meets it, the wrapping arithmetic, and the
    distance, each stated for all sequence numbers. */
module SeqLaws {
  import opened Seq

  /** Antisymmetry of `Ord`: swapping the operands reverses the outcome,
      also for two numbers exactly half a turn apart. */
  lemma CmpAntisymmetric(a: Seq32, b: Seq32)
    ensures Cmp(b, a) == Cmp(a, b).Reverse()
    ensures Lt(a, b) <==> Cmp(b, a) == Greater
  {
  }

  /** Totality of `Ord`: exactly one of `a < b`, `a == b`, `b < a`. */
  lemma LtTrichotomy(a: Seq32, b: Seq32)
    ensures Lt(a, b) || a == b || Lt(b, a)
    ensures !(Lt(a, b) && a == b) && !(Lt(a, b) && Lt(b, a)) && !(a == b && Lt(b, a))
  {
  }

  /** Two numbers exactly half a turn apart: the numerically larger one
      comes first. */
  lemma HalfApartLargerFirst(a: Seq32, b: Seq32)
    requires a.raw + Half == b.raw
    ensures Lt(b, a) && Cmp(a, b) == Greater
  {
  }

  /** The circular order is not transitive, so `Ord`'s transitivity cannot
      hold: 0 < 2^30 and 2^30 < 2^31, yet 2^31 < 0. */
  lemma LtNotTransitive()
    ensures Lt(New(0), New(0x4000_0000)) && Lt(New(0x4000_0000), New(0x8000_0000))
    ensures Lt(New(0x8000_0000), New(0))
  {
  }

  /** Moving forward by less than half a turn always gives a later
      sequence number; moving by more than half a turn an earlier one. */
  lemma AddMovesForward(a: Seq32, n: nat)
    requires 0 < n % Modulus < Half
    ensures Lt(a, AddUsize(a, n))
    ensures Lt(AddUsize(a, Modulus - n % Modulus), a)
  {
    var m := n % Modulus;
    var b := AddUsize(a, n);
    assert Lt(a, b) by {
      assert AddUsize(a, m) == b by {
        ModDropsTurns(a.raw + n, n / Modulus);
      }
      ForwardUnique(a, b, m);
    }
    var c := AddUsize(a, Modulus - m);
    assert Lt(c, a) by {
      AddCompose(a, Modulus - m, m);
      AddWholeTurns(a, 1);
      ForwardUnique(c, a, m);
    }
  }

  /** `add_usize` by zero or by a whole number of turns changes nothing. */
  lemma AddWholeTurns(a: Seq32, k: nat)
    ensures AddUsize(a, 0) == a
    ensures AddUsize(a, k * Modulus) == a
  {
  }

  /** Two steps forward are one step of the summed length. */
  lemma AddCompose(a: Seq32, m: nat, n: nat)
    ensures AddUsize(AddUsize(a, m), n) == AddUsize(a, m + n)
  {
    var x := a.raw + m;
    ModDropsTurns(x + n, x / Modulus);
  }

  /** Taking away whole turns does not change the position on the ring. */
  lemma ModDropsTurns(x: int, q: int)
    ensures (x - q * Modulus) % Modulus == x % Modulus
  {
  }

  /** Subtracting undoes adding, for any step. */
  lemma SubUndoesAdd(a: Seq32, n: nat)
    ensures SubUsize(AddUsize(a, n), n) == a
  {
    var q := (a.raw + n) / Modulus;
    assert AddUsize(a, n).raw - n == a.raw - q * Modulus;
    ModDropsTurns(a.raw, q);
  }

  /** Adding the same step to both operands keeps the gap between them, and
      so keeps their order unless they are exactly half a turn apart. */
  lemma CmpShiftInvariant(a: Seq32, b: Seq32, n: nat)
    requires Forward(a, b) != Half
    ensures Forward(AddUsize(a, n), AddUsize(b, n)) == Forward(a, b)
    ensures Cmp(AddUsize(a, n), AddUsize(b, n)) == Cmp(a, b)
  {
    var x, y := AddUsize(a, n), AddUsize(b, n);
    ShiftKeepsForward(a, b, n);
    ShiftKeepsForward(b, a, n);
    assert Forward(x, y) == Forward(a, b) && Forward(y, x) == Forward(b, a);
  }

  /** The forward gap from `a` to `b` is unchanged by moving both. */
  lemma ShiftKeepsForward(a: Seq32, b: Seq32, n: nat)
    ensures Forward(AddUsize(a, n), AddUsize(b, n)) == Forward(a, b)
  {
    var d := Forward(a, b);
    AddCompose(a, n, d);
    AddCompose(a, d, n);
    assert AddUsize(AddUsize(a, n), d) == AddUsize(b, n);
    ForwardUnique(AddUsize(a, n), AddUsize(b, n), d);
  }

  /** `dist` is symmetric and zero from a number to itself. */
  lemma DistSymmetric(a: Seq32, b: Seq32)
    ensures Dist(a, b) == Dist(b, a)
    ensures Dist(a, a) == 0
  {
  }

  /** Walking `dist` steps forward from the earlier number reaches the
      later one. */
  lemma DistReachesLater(a: Seq32, b: Seq32)
    ensures Lt(a, b) ==> AddUsize(a, Dist(a, b)) == b
    ensures Lt(b, a) ==> AddUsize(b, Dist(a, b)) == a
  {
  }

  /** `k` successive `add(1)` calls starting from `a`: they land where one
      `add_usize(k)` lands, wrapping through 0 as often as needed. */
  function Advance(a: Seq32, k: nat): (r: Seq32)
    ensures r == AddUsize(a, k)
    decreases k
  {
    if k == 0 then a
    else
      var previous := Advance(a, k - 1);
      AddCompose(a, k - 1, 1);
      Add(previous, 1)
  }

  /** Within less than half a turn, each successive `add(1)` gives a
      number later than the one it started from and all those between. */
  lemma AdvanceIsLater(a: Seq32, j: nat, k: nat)
    requires j < k < Half
    ensures Lt(Advance(a, j), Advance(a, k))
  {
    var x, y := Advance(a, j), Advance(a, k);
    AddCompose(a, j, k - j);
    LaterByStep(x, y, k - j);
  }

  /** A number reached by a positive step below half a turn comes later. */
  lemma LaterByStep(x: Seq32, y: Seq32, step: nat)
    requires 0 < step < Half && y == AddUsize(x, step)
    ensures Lt(x, y)
  {
    AddMovesForward(x, step);
  }
}
