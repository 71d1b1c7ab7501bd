/** The unit tests of `Seq32`, each stated as a lemma about the model. */
module Seq32Tests {
  import opened Seq

  /** `cmp_wraparound`: `u32::MAX` comes before 0. */
  lemma CmpWraparound()
    ensures Lt(New(U32Max), New(0))
  {
  }

  /** `cmp_no_wraparound`: 0 comes before 1. */
  lemma CmpNoWraparound()
    ensures Lt(New(0), New(1))
  {
  }

  /** `cmp_far`: a gap of `i32::MAX` keeps the plain order; a gap of
      exactly half a turn reverses it. */
  lemma CmpFar()
    ensures Lt(New(0), New(Half - 1))
    ensures Lt(New(Half), New(0))
  {
  }

  /** `add_wraparound`: adding 1 to `u32::MAX` wraps to 0. */
  lemma AddWraparound()
    ensures Value(Add(New(U32Max), 1)) == 0
  {
  }

  /** `add_no_wraparound`: adding 1 to 0 gives 1. */
  lemma AddNoWraparound()
    ensures Value(Add(New(0), 1)) == 1
  {
  }

  /** `sub_wraparound`: 0 and `u32::MAX` are one step apart. */
  lemma SubWraparound()
    ensures Dist(New(0), New(U32Max)) == 1
  {
  }

  /** `sub_zero`: a number is no distance from an equal one. */
  lemma SubZero()
    ensures Dist(New(1), New(1)) == 0
  {
  }

  /** `sub_no_wraparound`: 3 and 1 are two steps apart. */
  lemma SubNoWraparound()
    ensures Dist(New(3), New(1)) == 2
  {
  }
}
