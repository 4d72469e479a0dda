/** Count-per-colour vectors: seven elements and omni (slot 7), as in gicg_engine/types.go. */
module DiceVectors {
  const COLORS: nat := 8
  const OMNI: nat := 7

  type Dice = s: seq<int> | |s| == COLORS witness [0, 0, 0, 0, 0, 0, 0, 0]

  const ZERO: Dice := [0, 0, 0, 0, 0, 0, 0, 0]

  /** The sum of the first n entries. */
  function Sum(s: seq<int>, n: nat): int
    requires n <= |s|
  {
    if n == 0 then 0 else Sum(s, n - 1) + s[n - 1]
  }

  function Plus(a: Dice, b: Dice): Dice { seq(COLORS, i requires 0 <= i < COLORS => a[i] + b[i]) }

  function Minus(a: Dice, b: Dice): Dice { seq(COLORS, i requires 0 <= i < COLORS => a[i] - b[i]) }

  /** Go's conversion to int8. */
  function Int8(n: int): int { (n + 128) % 256 - 128 }

  ghost predicate Within(p: Dice, pool: Dice) { forall i :: 0 <= i < COLORS ==> 0 <= p[i] <= pool[i] }

  /** A pool of dice whose counts an int8 payment slot can hold. */
  ghost predicate ValidPool(pool: Dice) { forall i :: 0 <= i < COLORS ==> 0 <= pool[i] <= 127 }

  ghost predicate Distinct<T>(s: seq<T>) { forall i, j :: 0 <= i < j < |s| ==> s[i] != s[j] }

  lemma {:induction false} SumPlus(a: Dice, b: Dice, n: nat)
    requires n <= COLORS
    ensures Sum(Plus(a, b), n) == Sum(a, n) + Sum(b, n)
  {
    if n > 0 { SumPlus(a, b, n - 1); }
  }

  lemma {:induction false} SumMinus(a: Dice, b: Dice, n: nat)
    requires n <= COLORS
    ensures Sum(Minus(a, b), n) == Sum(a, n) - Sum(b, n)
  {
    if n > 0 { SumMinus(a, b, n - 1); }
  }

  lemma {:induction false} SumMonotone(a: seq<int>, b: seq<int>, n: nat)
    requires n <= |a| && n <= |b| && forall i :: 0 <= i < n ==> a[i] <= b[i]
    ensures Sum(a, n) <= Sum(b, n)
  {
    if n > 0 { SumMonotone(a, b, n - 1); }
  }

  lemma {:induction false} SumSame(a: seq<int>, b: seq<int>, n: nat)
    requires n <= |a| && n <= |b| && forall i :: 0 <= i < n ==> a[i] == b[i]
    ensures Sum(a, n) == Sum(b, n)
  {
    if n > 0 { SumSame(a, b, n - 1); }
  }

  lemma {:induction false} SumZero(a: seq<int>, n: nat)
    requires n <= |a| && forall i :: 0 <= i < n ==> a[i] == 0
    ensures Sum(a, n) == 0
  {
    if n > 0 { SumZero(a, n - 1); }
  }

  lemma {:induction false} SumFromZero(a: seq<int>, m: nat, n: nat)
    requires m <= n <= |a| && forall i :: m <= i < n ==> a[i] == 0
    ensures Sum(a, n) == Sum(a, m)
  {
    if m < n { SumFromZero(a, m, n - 1); }
  }
}
