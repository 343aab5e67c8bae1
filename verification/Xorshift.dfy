/** The xorshift64* generator: its state step is reversible, so a run never falls into the
    absorbing zero state and never merges with another run. */
module Xorshift {

  function Right12(s: bv64): bv64 {
    s ^ (s >> 12)
  }

  function Left25(s: bv64): bv64 {
    s ^ (s << 25)
  }

  function Right27(s: bv64): bv64 {
    s ^ (s >> 27)
  }

  /** The next state. */
  function Step(s: bv64): bv64 {
    Right27(Left25(Right12(s)))
  }

  /** The number handed out for a state just reached. */
  function Output(s: bv64): bv64 {
    s * 0x2545F4914F6CDD1D
  }

  /** The state before `s`: each shift is undone by repeating it until it has left the word. */
  function Previous(s: bv64): bv64 {
    UndoRight12(UndoLeft25(UndoRight27(s)))
  }

  function UndoRight12(s: bv64): bv64 {
    s ^ (s >> 12) ^ (s >> 24) ^ (s >> 36) ^ (s >> 48) ^ (s >> 60)
  }

  function UndoLeft25(s: bv64): bv64 {
    s ^ (s << 25) ^ (s << 50)
  }

  function UndoRight27(s: bv64): bv64 {
    s ^ (s >> 27) ^ (s >> 54)
  }

  // Each lemma on words alone is followed by the one on the functions, which only substitutes.

  lemma Right12Words(s: bv64)
    ensures UndoRight12(s ^ (s >> 12)) == s
    ensures Right12(s ^ (s >> 12) ^ (s >> 24) ^ (s >> 36) ^ (s >> 48) ^ (s >> 60)) == s
  {
  }

  lemma Right12Means(s: bv64)
    ensures Right12(s) == s ^ (s >> 12)
    ensures UndoRight12(s) == s ^ (s >> 12) ^ (s >> 24) ^ (s >> 36) ^ (s >> 48) ^ (s >> 60)
  {
  }

  lemma Right12Undone(s: bv64)
    ensures UndoRight12(Right12(s)) == s
    ensures Right12(UndoRight12(s)) == s
  {
    hide *;
    Right12Words(s);
    Right12Means(s);
  }

  lemma Left25Words(s: bv64)
    ensures UndoLeft25(s ^ (s << 25)) == s
    ensures Left25(s ^ (s << 25) ^ (s << 50)) == s
  {
  }

  lemma Left25Means(s: bv64)
    ensures Left25(s) == s ^ (s << 25)
    ensures UndoLeft25(s) == s ^ (s << 25) ^ (s << 50)
  {
  }

  lemma Left25Undone(s: bv64)
    ensures UndoLeft25(Left25(s)) == s
    ensures Left25(UndoLeft25(s)) == s
  {
    hide *;
    Left25Words(s);
    Left25Means(s);
  }

  lemma Right27Words(s: bv64)
    ensures UndoRight27(s ^ (s >> 27)) == s
    ensures Right27(s ^ (s >> 27) ^ (s >> 54)) == s
  {
  }

  lemma Right27Means(s: bv64)
    ensures Right27(s) == s ^ (s >> 27)
    ensures UndoRight27(s) == s ^ (s >> 27) ^ (s >> 54)
  {
  }

  lemma Right27Undone(s: bv64)
    ensures UndoRight27(Right27(s)) == s
    ensures Right27(UndoRight27(s)) == s
  {
    hide *;
    Right27Words(s);
    Right27Means(s);
  }

  lemma PreviousOfStep(s: bv64)
    ensures Previous(Step(s)) == s
  {
    hide Right12, Left25, Right27, UndoRight12, UndoLeft25, UndoRight27;
    Right12Undone(s);
    Left25Undone(Right12(s));
    Right27Undone(Left25(Right12(s)));
  }

  lemma StepOfPrevious(s: bv64)
    ensures Step(Previous(s)) == s
  {
    hide Right12, Left25, Right27, UndoRight12, UndoLeft25, UndoRight27;
    Right27Undone(s);
    Left25Undone(UndoRight27(s));
    Right12Undone(UndoLeft25(UndoRight27(s)));
  }

  /** The step is a bijection on the 64-bit states. */
  lemma StepReversible(s: bv64)
    ensures Previous(Step(s)) == s
    ensures Step(Previous(s)) == s
  {
    hide *;
    PreviousOfStep(s);
    StepOfPrevious(s);
  }

  lemma StepInjective(s: bv64, t: bv64)
    requires Step(s) == Step(t)
    ensures s == t
  {
    hide Step, Previous;
    StepReversible(s);
    StepReversible(t);
  }

  /** The state a number was handed out for: the factor is the inverse of the one in Output
      modulo 2^64. */
  function Origin(r: bv64): bv64 {
    r * 0x59071D96D81ECD35
  }

  lemma OutputOf(s: bv64)
    ensures Output(s) == s * 0x2545F4914F6CDD1D
  {
  }

  lemma OriginOf(r: bv64)
    ensures Origin(r) == r * 0x59071D96D81ECD35
  {
  }

  lemma OriginOfProduct(s: bv64)
    ensures Origin(s * 0x2545F4914F6CDD1D) == s
  {
  }

  lemma OutputOfProduct(r: bv64)
    ensures Output(r * 0x59071D96D81ECD35) == r
  {
  }

  lemma MultiplyUndone(s: bv64)
    ensures Origin(Output(s)) == s
    ensures Output(Origin(s)) == s
  {
    OutputOf(s);
    OriginOfProduct(s);
    OriginOf(s);
    OutputOfProduct(s);
    hide *;
  }

  /** No two states hand out the same number, and every number is handed out by some state. */
  lemma OutputBijective(s: bv64, t: bv64)
    ensures Output(s) == Output(t) ==> s == t
    ensures Output(Origin(s)) == s
  {
    hide Output, Origin;
    MultiplyUndone(s);
    MultiplyUndone(t);
  }

  lemma ZeroIsStuck()
    ensures Step(0) == 0
  {
  }

  /** Zero is a fixed point, and no other state leads to it. */
  lemma OnlyZeroReachesZero(s: bv64)
    ensures Step(s) == 0 <==> s == 0
  {
    hide Step;
    ZeroIsStuck();
    if Step(s) == 0 {
      StepInjective(s, 0);
    }
  }

  /** The three assignments of the source, one after the other, are the step. */
  lemma StepIsThreeShifts(s: bv64, a: bv64, b: bv64, c: bv64)
    requires a == s ^ (s >> 12) && b == a ^ (a << 25) && c == b ^ (b >> 27)
    ensures Step(s) == c
  {
    ShiftsOf(s, a, b);
    hide *;
    assert Step(s) == Right27(Left25(Right12(s))) by {
      StepOf(s);
    }
  }

  lemma StepOf(s: bv64)
    ensures Step(s) == Right27(Left25(Right12(s)))
  {
  }

  lemma ShiftsOf(s: bv64, a: bv64, b: bv64)
    ensures Right12(s) == s ^ (s >> 12)
    ensures Left25(a) == a ^ (a << 25)
    ensures Right27(b) == b ^ (b >> 27)
  {
  }

  // ------------------------------------------------------------------------ runs

  /** The state after `n` calls. */
  function Nth(seed: bv64, n: nat): bv64 {
    if n == 0 then seed else Step(Nth(seed, n - 1))
  }

  /** The state `n` calls ago. */
  function Before(s: bv64, n: nat): bv64
    decreases n
  {
    if n == 0 then s else Before(Previous(s), n - 1)
  }

  lemma {:induction false} RunReversible(seed: bv64, n: nat)
    ensures Before(Nth(seed, n), n) == seed
  {
    hide Step, Previous;
    if n > 0 {
      StepReversible(Nth(seed, n - 1));
      RunReversible(seed, n - 1);
    }
  }

  /** A run is in the zero state at some point exactly when it was seeded with zero. */
  lemma {:induction false} RunStaysNonZero(seed: bv64, n: nat)
    ensures Nth(seed, n) == 0 <==> seed == 0
  {
    hide Step;
    if n > 0 {
      OnlyZeroReachesZero(Nth(seed, n - 1));
      RunStaysNonZero(seed, n - 1);
    }
  }

  /** If a run meets a state again, the first state met again is the seed: it is a cycle, with
      no lead-in. */
  lemma {:induction false} RunIsACycle(seed: bv64, m: nat, p: nat)
    requires Nth(seed, m + p) == Nth(seed, m)
    ensures Nth(seed, p) == seed
  {
    hide Step;
    if m > 0 {
      StepInjective(Nth(seed, m + p - 1), Nth(seed, m - 1));
      RunIsACycle(seed, m - 1, p);
    }
  }

  /** The generator itself. */
  class Generator {
    var state: bv64

    constructor (seed: bv64)
      ensures state == seed
    {
      state := seed;
    }

    method Next() returns (r: bv64)
      modifies this
      ensures state == Step(old(state))
      ensures r == Output(state)
    {
      hide *;
      var x := state;
      ghost var s := x;
      x := x ^ (x >> 12);
      ghost var a := x;
      x := x ^ (x << 25);
      ghost var b := x;
      x := x ^ (x >> 27);
      assert Step(s) == x by {
        StepIsThreeShifts(s, a, b, x);
      }
      OutputOf(x);
      state := x;
      return x * 0x2545F4914F6CDD1D;
    }
  }
}
