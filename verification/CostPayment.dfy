/** gicg_engine/cost_payment.go: affordability and enumeration of dice payments. */
module CostPayment {
  import opened DiceVectors

  datatype DiceCost = DiceCost(specific: seq<int>, same: int, any: int)

  /** A cost after Clamp: seven element slots, the same-colour slot and the any slot. */
  ghost predicate Clamped(cost: DiceCost) {
    && |cost.specific| == OMNI && cost.same >= 0 && cost.any >= 0
    && forall c :: 0 <= c < OMNI ==> cost.specific[c] >= 0
  }

  function TotalCost(cost: DiceCost): int
    requires |cost.specific| == OMNI
  {
    cost.same + cost.any + Sum(cost.specific, OMNI)
  }

  // ---- What a payment is ----

  /** p pays the first n element slots: each with native dice and omni. */
  ghost predicate PaysSpecific(need: seq<int>, n: nat, p: Dice)
    requires |need| == OMNI && n <= OMNI
  {
    && (forall c :: 0 <= c < n ==> 0 <= p[c] <= need[c])
    && (forall c :: n <= c < OMNI ==> p[c] == 0)
    && p[OMNI] == Sum(need, n) - Sum(p, n)
  }

  /** u omni dice and k - u dice of colour c. */
  function SameOf(k: int, c: nat, u: int): Dice
    requires c < OMNI
  {
    ZERO[c := k - u][OMNI := u]
  }

  ghost predicate PaysSame(k: int, m: Dice) {
    if k == 0 then m == ZERO else exists c: nat, u: nat :: c < OMNI && u <= k && m == SameOf(k, c, u)
  }

  ghost predicate PaysAny(n: int, a: Dice) {
    (forall i :: 0 <= i < COLORS ==> 0 <= a[i]) && Sum(a, COLORS) == n
  }

  ghost predicate Parts(pool: Dice, cost: DiceCost, s: Dice, m: Dice, a: Dice)
    requires Clamped(cost)
  {
    && PaysSpecific(cost.specific, OMNI, s) && PaysSame(cost.same, m) && PaysAny(cost.any, a)
    && Within(Plus(Plus(s, m), a), pool)
  }

  /** pay fits the pool and splits into an element part, a one-colour part and a free part. */
  ghost predicate Valid(pool: Dice, cost: DiceCost, pay: Dice)
    requires Clamped(cost)
  {
    exists s: Dice, m: Dice, a: Dice :: Parts(pool, cost, s, m, a) && pay == Plus(Plus(s, m), a)
  }

  /** Every valid payment spends exactly the cost. */
  lemma ValidTotal(pool: Dice, cost: DiceCost, pay: Dice)
    requires Clamped(cost) && Valid(pool, cost, pay)
    ensures Sum(pay, COLORS) == TotalCost(cost) && Within(pay, pool)
  {
    var s: Dice, m: Dice, a: Dice :| Parts(pool, cost, s, m, a) && pay == Plus(Plus(s, m), a);
    SumPlus(Plus(s, m), a, COLORS);
    SumPlus(s, m, COLORS);
    SameTotal(cost.same, m);
  }

  lemma SameTotal(k: int, m: Dice)
    requires PaysSame(k, m)
    ensures Sum(m, COLORS) == k
  {
    if k != 0 {
      var c: nat, u: nat :| c < OMNI && u <= k && m == SameOf(k, c, u);
      SumFromZero(m, c + 1, OMNI);
      SumZero(m, c);
    } else {
      SumZero(m, COLORS);
    }
  }

  // ---- Native-first greedy ----

  function Min(a: int, b: int): int { if a < b then a else b }

  /** The native dice the greedy spends, per element. */
  function Native(pool: Dice, need: seq<int>): Dice
    requires |need| == OMNI
  {
    seq(COLORS, i requires 0 <= i < COLORS => if i == OMNI then 0 else Min(pool[i], need[i]))
  }

  /** Omni dice the greedy spends on the first n elements. */
  function Shortfall(pool: Dice, need: seq<int>, n: nat): int
    requires |need| == OMNI && n <= OMNI
  {
    Sum(need, n) - Sum(Native(pool, need), n)
  }

  function Greedy(pool: Dice, need: seq<int>): Dice
    requires |need| == OMNI
  {
    Native(pool, need)[OMNI := Shortfall(pool, need, OMNI)]
  }

  lemma {:induction false} ShortfallMonotone(pool: Dice, need: seq<int>, m: nat, n: nat)
    requires |need| == OMNI && m <= n <= OMNI
    ensures 0 <= Shortfall(pool, need, m) <= Shortfall(pool, need, n)
  {
    if m < n { ShortfallMonotone(pool, need, m, n - 1); }
    else if n > 0 { ShortfallMonotone(pool, need, n - 1, n - 1); }
  }

  lemma GreedyPays(pool: Dice, need: seq<int>)
    requires |need| == OMNI && (forall i :: 0 <= i < COLORS ==> 0 <= pool[i])
    requires forall c :: 0 <= c < OMNI ==> need[c] >= 0
    ensures PaysSpecific(need, OMNI, Greedy(pool, need))
    ensures Within(Greedy(pool, need), pool) <==> Shortfall(pool, need, OMNI) <= pool[OMNI]
  {
    SumSame(Greedy(pool, need), Native(pool, need), OMNI);
    ShortfallMonotone(pool, need, OMNI, OMNI);
  }

  /** Greedy leaves the most native-plus-omni dice for every colour at once. */
  lemma {:induction false} GreedyBest(pool: Dice, need: seq<int>, s: Dice, c: nat, n: nat)
    requires |need| == OMNI && n <= OMNI && (forall i :: 0 <= i < n ==> s[i] <= need[i] && s[i] <= pool[i])
    ensures Sum(need, n) - Sum(s, n) >= Shortfall(pool, need, n)
    ensures c < n ==> s[c] + Sum(need, n) - Sum(s, n) >= Native(pool, need)[c] + Shortfall(pool, need, n)
  {
    if n > 0 { GreedyBest(pool, need, s, c, n - 1); }
  }

  /** Any number of dice up to the pool's size can be drawn. */
  lemma {:induction false} DrawSome(pool: Dice, n: nat, k: nat) returns (a: Dice)
    requires k <= COLORS && (forall i :: 0 <= i < COLORS ==> 0 <= pool[i]) && n <= Sum(pool, k)
    ensures Within(a, pool) && Sum(a, COLORS) == n && forall i :: k <= i < COLORS ==> a[i] == 0
  {
    if k == 0 {
      a := ZERO;
      SumZero(a, COLORS);
    } else {
      var last := Min(n, pool[k - 1]);
      SumZero(ZERO, k - 1);
      SumMonotone(ZERO, pool, k - 1);
      a := DrawSome(pool, n - last, k - 1);
      var b: Dice := a[k - 1 := last];
      SumFromZero(a, k - 1, COLORS);
      SumFromZero(b, k, COLORS);
      SumSame(a, b, k - 1);
      a := b;
    }
  }

  /** The greedy's test, as a condition on the pool. */
  ghost predicate Affordable(pool: Dice, cost: DiceCost)
    requires Clamped(cost)
  {
    var g := Greedy(pool, cost.specific);
    && g[OMNI] <= pool[OMNI]
    && (cost.same > 0 ==> exists c: nat :: c < OMNI && pool[c] - g[c] + pool[OMNI] - g[OMNI] >= cost.same)
    && Sum(pool, COLORS) >= TotalCost(cost)
  }

  lemma AffordablePart(pool: Dice, cost: DiceCost) returns (m: Dice)
    requires Clamped(cost) && (forall i :: 0 <= i < COLORS ==> 0 <= pool[i])
    requires Affordable(pool, cost)
    ensures PaysSame(cost.same, m) && Within(Plus(Greedy(pool, cost.specific), m), pool)
    ensures forall i :: 0 <= i < COLORS ==> 0 <= m[i]
  {
    GreedyPays(pool, cost.specific);
    var g := Greedy(pool, cost.specific);
    if cost.same == 0 {
      m := ZERO;
    } else {
      var c: nat :| c < OMNI && pool[c] - g[c] + pool[OMNI] - g[OMNI] >= cost.same;
      var native := Min(cost.same, pool[c] - g[c]);
      m := SameOf(cost.same, c, cost.same - native);
    }
  }

  lemma AffordableHasPayment(pool: Dice, cost: DiceCost) returns (pay: Dice)
    requires Clamped(cost) && (forall i :: 0 <= i < COLORS ==> 0 <= pool[i])
    requires Affordable(pool, cost)
    ensures Valid(pool, cost, pay)
  {
    var s := Greedy(pool, cost.specific);
    GreedyPays(pool, cost.specific);
    var m := AffordablePart(pool, cost);
    var rest := Minus(pool, Plus(s, m));
    SumMinus(pool, Plus(s, m), COLORS);
    SumPlus(s, m, COLORS);
    SameTotal(cost.same, m);
    var a := DrawSome(rest, cost.any, COLORS);
    pay := Plus(Plus(s, m), a);
    assert Parts(pool, cost, s, m, a);
  }

  lemma PaymentIsAffordable(pool: Dice, cost: DiceCost, pay: Dice)
    requires Clamped(cost) && Valid(pool, cost, pay)
    ensures Affordable(pool, cost)
  {
    ValidTotal(pool, cost, pay);
    SumMonotone(pay, pool, COLORS);
    var s: Dice, m: Dice, a: Dice :| Parts(pool, cost, s, m, a) && pay == Plus(Plus(s, m), a);
    hide Sum, Valid;
    PartsLeave(pool, cost, s, m, a);
  }

  /** The parts of a payment fit into what native-first needs and leaves. */
  lemma PartsLeave(pool: Dice, cost: DiceCost, s: Dice, m: Dice, a: Dice)
    requires Clamped(cost) && Parts(pool, cost, s, m, a)
    ensures var g := Greedy(pool, cost.specific);
      && g[OMNI] <= pool[OMNI]
      && (cost.same > 0 ==> exists c :: 0 <= c < OMNI && pool[c] - g[c] + pool[OMNI] - g[OMNI] >= cost.same)
  {
    hide Sum;
    var g, pay := Greedy(pool, cost.specific), Plus(Plus(s, m), a);
    assert forall i :: 0 <= i < COLORS ==> pay[i] == s[i] + m[i] + a[i];
    assert forall i :: 0 <= i < COLORS ==> 0 <= m[i] by {
      if cost.same != 0 { var c: nat, u: nat :| c < OMNI && u <= cost.same && m == SameOf(cost.same, c, u); }
    }
    GreedyBest(pool, cost.specific, s, 0, OMNI);
    if cost.same > 0 {
      var c: nat, u: nat :| c < OMNI && u <= cost.same && m == SameOf(cost.same, c, u);
      GreedyBest(pool, cost.specific, s, c, OMNI);
      assert pool[c] - g[c] + pool[OMNI] - g[OMNI] >= cost.same;
    }
  }

  lemma AffordableIffPayment(pool: Dice, cost: DiceCost)
    requires Clamped(cost) && (forall i :: 0 <= i < COLORS ==> 0 <= pool[i])
    ensures Affordable(pool, cost) <==> exists pay: Dice :: Valid(pool, cost, pay)
  {
    forall pay: Dice | Valid(pool, cost, pay) ensures Affordable(pool, cost) {
      PaymentIsAffordable(pool, cost, pay);
    }
    if Affordable(pool, cost) {
      var pay := AffordableHasPayment(pool, cost);
    }
  }

  method Total(s: seq<int>, n: nat) returns (total: int)
    requires n <= |s|
    ensures total == Sum(s, n)
  {
    total := 0;
    for i := 0 to n
      invariant total == Sum(s, i)
    {
      total := total + s[i];
    }
  }

  /** The element slots are paid native-first; what is left, unless omni does not suffice. */
  method PayNativeFirst(pool: Dice, need: seq<int>) returns (ok: bool, remaining: Dice)
    requires |need| == OMNI && pool[OMNI] >= 0
    ensures ok <==> pool[OMNI] >= Shortfall(pool, need, OMNI)
    ensures ok ==> forall c :: 0 <= c < COLORS ==> remaining[c] == pool[c] - Greedy(pool, need)[c]
  {
    var omniLeft := pool[OMNI];
    remaining := ZERO;
    for color := 0 to OMNI
      invariant 0 <= omniLeft == pool[OMNI] - Shortfall(pool, need, color)
      invariant forall c :: 0 <= c < color ==> remaining[c] == pool[c] - Greedy(pool, need)[c]
    {
      var have := pool[color];
      if have >= need[color] {
        remaining := remaining[color := have - need[color]];
        continue;
      }
      var short := need[color] - have;
      if omniLeft < short {
        ShortfallMonotone(pool, need, color + 1, OMNI);
        return false, ZERO;
      }
      omniLeft := omniLeft - short;
      remaining := remaining[color := 0];
    }
    remaining := remaining[OMNI := omniLeft];
    ok := true;
  }

  /** CanAfford is true exactly when some payment exists. */
  method CanAfford(pool: Dice, cost: DiceCost) returns (ok: bool)
    requires Clamped(cost) && (forall i :: 0 <= i < COLORS ==> 0 <= pool[i])
    ensures ok <==> exists pay: Dice :: Valid(pool, cost, pay)
    ensures ok <==> Affordable(pool, cost)
  {
    AffordableIffPayment(pool, cost);
    hide Valid, Sum;
    var enough, remaining := PayNativeFirst(pool, cost.specific);
    if !enough { return false; }
    if cost.same > 0 {
      var feasible := false;
      for c := 0 to OMNI
        invariant !feasible && forall d :: 0 <= d < c ==> remaining[d] + remaining[OMNI] < cost.same
      {
        if remaining[c] + remaining[OMNI] >= cost.same {
          feasible := true;
          break;
        }
      }
      if !feasible { return false; }
    }
    var total := Total(pool, COLORS);
    var specDemand := Total(cost.specific, OMNI);
    return total - specDemand - cost.same >= cost.any;
  }
}
