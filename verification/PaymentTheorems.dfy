/** EnumerateCostPayments returns exactly the valid payments, and when it does not. */
module PaymentTheorems {
  import opened DiceVectors
  import opened CostPayment
  import opened PaymentEnumeration

  // ---- Membership in the lists of each phase ----

  ghost predicate SplitBy(pool: Dice, prev: Dice, c: nat, k: int, u: nat, p: Dice)
    requires c < OMNI
  {
    p == Plus(prev, SameOf(k, c, u)) && Within(p, pool)
  }

  /** The code's test and its int8 addition: exact inside a pool of at most 127 dice a colour. */
  lemma AddExact(pool: Dice, prev: Dice, c: nat, k: nat, u: nat)
    requires c < OMNI && u <= k && ValidPool(pool) && Within(prev, pool)
    ensures k - u <= pool[c] - prev[c] && u <= pool[OMNI] - prev[OMNI] <==> Within(Plus(prev, SameOf(k, c, u)), pool)
    ensures Within(Plus(prev, SameOf(k, c, u)), pool) ==> Add(prev, c, k - u, u) == Plus(prev, SameOf(k, c, u))
  {
    hide Int8;
    var sum := Plus(prev, SameOf(k, c, u));
    assert sum[c] == prev[c] + k - u && sum[OMNI] == prev[OMNI] + u;
    assert forall i :: 0 <= i < COLORS && i != c && i != OMNI ==> sum[i] == prev[i];
    if Within(sum, pool) {
      Int8Exact(k - u);
      Int8Exact(u);
      Int8Exact(sum[c]);
      Int8Exact(sum[OMNI]);
    }
  }

  lemma Int8Exact(n: int)
    requires -128 <= n < 128
    ensures Int8(n) == n
  {
  }

  lemma {:induction false} SplitsMember(pool: Dice, prev: Dice, c: nat, k: nat, n: nat, p: Dice)
    requires c < OMNI && n <= k + 1 && ValidPool(pool) && Within(prev, pool)
    ensures p in Splits(pool, prev, c, k, n) <==> exists u: nat :: u < n && SplitBy(pool, prev, c, k, u, p)
  {
    if n > 0 {
      SplitsMember(pool, prev, c, k, n - 1, p);
      AddExact(pool, prev, c, k, n - 1);
      assert SplitBy(pool, prev, c, k, n - 1, p) <==>
        Within(Plus(prev, SameOf(k, c, n - 1)), pool) && p == Add(prev, c, k - (n - 1), n - 1);
    }
  }

  lemma {:induction false} SplitsDistinct(pool: Dice, prev: Dice, c: nat, k: nat, n: nat)
    requires c < OMNI && n <= k + 1 && ValidPool(pool) && Within(prev, pool)
    ensures Distinct(Splits(pool, prev, c, k, n))
  {
    if n > 0 {
      SplitsDistinct(pool, prev, c, k, n - 1);
      var shorter, u := Splits(pool, prev, c, k, n - 1), n - 1;
      AddExact(pool, prev, c, k, u);
      if k - u <= pool[c] - prev[c] && u <= pool[OMNI] - prev[OMNI] {
        var p := Add(prev, c, k - u, u);
        SplitsMember(pool, prev, c, k, n - 1, p);
        assert p[OMNI] == prev[OMNI] + u;
        assert forall v: nat :: v < u && SplitBy(pool, prev, c, k, v, p) ==> p[OMNI] == prev[OMNI] + v;
        DistinctConcat(shorter, [p]);
      }
    }
  }

  /** p pays k dice with colour c after prev. */
  ghost predicate FromColour(pool: Dice, prev: Dice, c: nat, k: nat, p: Dice)
    requires c < OMNI
  {
    exists u: nat :: u <= k && SplitBy(pool, prev, c, k, u, p)
  }

  lemma SplitsAll(pool: Dice, prev: Dice, c: nat, k: nat, p: Dice)
    requires c < OMNI && ValidPool(pool) && Within(prev, pool)
    ensures p in Splits(pool, prev, c, k, k + 1) <==> FromColour(pool, prev, c, k, p)
  {
    SplitsMember(pool, prev, c, k, k + 1, p);
    hide SplitBy, Splits;
  }

  lemma {:induction false} SameOutsMember(pool: Dice, prev: Dice, k: nat, n: nat, p: Dice)
    requires n <= OMNI && ValidPool(pool) && Within(prev, pool)
    ensures p in SameOuts(pool, prev, k, n) <==> exists c: nat :: c < n && FromColour(pool, prev, c, k, p)
  {
    hide FromColour, Splits, Within;
    if n > 0 {
      SameOutsMember(pool, prev, k, n - 1, p);
      SplitsAll(pool, prev, n - 1, k, p);
    }
  }

  lemma {:induction false} ExtendedMember(pool: Dice, prefixes: seq<Dice>, c: nat, k: nat, n: nat, p: Dice)
    requires c < OMNI && n <= |prefixes| && ValidPool(pool) && forall i :: 0 <= i < |prefixes| ==> Within(prefixes[i], pool)
    ensures p in Extended(pool, prefixes, c, k, n) <==> exists i: nat :: i < n && FromColour(pool, prefixes[i], c, k, p)
  {
    hide FromColour, Splits, Within;
    if n > 0 {
      ExtendedMember(pool, prefixes, c, k, n - 1, p);
      SplitsAll(pool, prefixes[n - 1], c, k, p);
    }
  }

  /** p paid the first n elements: taking element n - 1 and its omni away pays the first n - 1. */
  lemma Unpay(pool: Dice, need: seq<int>, n: nat, p: Dice) returns (prev: Dice, u: nat)
    requires |need| == OMNI && 0 < n <= OMNI && PaysSpecific(need, n, p) && Within(p, pool)
    requires forall c :: 0 <= c < OMNI ==> need[c] >= 0
    ensures PaysSpecific(need, n - 1, prev) && Within(prev, pool)
    ensures u <= need[n - 1] && SplitBy(pool, prev, n - 1, need[n - 1], u, p)
  {
    u := need[n - 1] - p[n - 1];
    prev := p[n - 1 := 0][OMNI := p[OMNI] - u];
    SumSame(prev, p, n - 1);
    SpentNonNegative(need, n - 1, p);
  }

  lemma {:induction false} SpentNonNegative(need: seq<int>, n: nat, p: Dice)
    requires |need| == OMNI && n <= OMNI && forall c :: 0 <= c < n ==> p[c] <= need[c]
    ensures Sum(p, n) <= Sum(need, n)
  {
    SumMonotone(p, need, n);
  }

  lemma Pay(pool: Dice, need: seq<int>, n: nat, prev: Dice, u: nat, p: Dice)
    requires |need| == OMNI && 0 < n <= OMNI && PaysSpecific(need, n - 1, prev)
    requires u <= need[n - 1] && SplitBy(pool, prev, n - 1, need[n - 1], u, p)
    ensures PaysSpecific(need, n, p)
  {
    SumSame(prev, p, n - 1);
  }

  lemma ExtendedPays(pool: Dice, need: seq<int>, n: nat, before: seq<Dice>, i: nat, p: Dice)
    requires |need| == OMNI && 0 < n <= OMNI && (forall c :: 0 <= c < OMNI ==> need[c] >= 0)
    requires i < |before| && PaysSpecific(need, n - 1, before[i]) && FromColour(pool, before[i], n - 1, need[n - 1], p)
    ensures PaysSpecific(need, n, p) && Within(p, pool)
  {
    hide PaysSpecific, Within;
    var u: nat :| u <= need[n - 1] && SplitBy(pool, before[i], n - 1, need[n - 1], u, p);
    Pay(pool, need, n, before[i], u, p);
  }

  lemma PaidIsExtended(pool: Dice, need: seq<int>, n: nat, before: seq<Dice>, p: Dice) returns (i: nat)
    requires |need| == OMNI && 0 < n <= OMNI && (forall c :: 0 <= c < OMNI ==> need[c] >= 0)
    requires forall q: Dice :: PaysSpecific(need, n - 1, q) && Within(q, pool) ==> q in before
    requires PaysSpecific(need, n, p) && Within(p, pool)
    ensures i < |before| && FromColour(pool, before[i], n - 1, need[n - 1], p)
  {
    hide PaysSpecific, Within, SplitBy;
    var prev, u := Unpay(pool, need, n, p);
    assert prev in before;
    i :| i < |before| && before[i] == prev;
  }

  lemma PrefixStep(pool: Dice, need: seq<int>, n: nat, before: seq<Dice>, p: Dice)
    requires |need| == OMNI && 0 < n <= OMNI && ValidPool(pool) && (forall c :: 0 <= c < OMNI ==> need[c] >= 0)
    requires forall q: Dice :: q in before <==> PaysSpecific(need, n - 1, q) && Within(q, pool)
    ensures p in Extended(pool, before, n - 1, need[n - 1], |before|) <==> PaysSpecific(need, n, p) && Within(p, pool)
  {
    hide PaysSpecific, Extended, Within, FromColour;
    assert forall i :: 0 <= i < |before| ==> before[i] in before;
    ExtendedMember(pool, before, n - 1, need[n - 1], |before|, p);
    if i: nat :| i < |before| && FromColour(pool, before[i], n - 1, need[n - 1], p) {
      ExtendedPays(pool, need, n, before, i, p);
    }
    if PaysSpecific(need, n, p) && Within(p, pool) {
      var i := PaidIsExtended(pool, need, n, before, p);
    }
  }

  lemma {:induction false} PrefixesMember(pool: Dice, need: seq<int>, n: nat, p: Dice)
    requires |need| == OMNI && n <= OMNI && ValidPool(pool) && forall c :: 0 <= c < OMNI ==> need[c] >= 0
    ensures p in Prefixes(pool, need, n) <==> PaysSpecific(need, n, p) && Within(p, pool)
  {
    hide Within;
    if n > 0 {
      var before := Prefixes(pool, need, n - 1);
      forall q: Dice ensures q in before <==> PaysSpecific(need, n - 1, q) && Within(q, pool) {
        PrefixesMember(pool, need, n - 1, q);
      }
      if need[n - 1] == 0 {
        assert Sum(p, n) == Sum(p, n - 1) + p[n - 1] && Sum(need, n) == Sum(need, n - 1);
        assert PaysSpecific(need, n, p) <==> PaysSpecific(need, n - 1, p);
      } else {
        PrefixStep(pool, need, n, before, p);
      }
    } else {
      assert PaysSpecific(need, 0, p) ==> p == ZERO;
      ZeroWithin(pool);
    }
  }

  lemma ZeroWithin(pool: Dice)
    requires ValidPool(pool)
    ensures Within(ZERO, pool)
  {
  }

  /** The native dice differ. */
  ghost predicate Differ(p: Dice, q: Dice) { exists d :: 0 <= d < OMNI && p[d] != q[d] }

  lemma SplitRecovers(pool: Dice, a: Dice, b: Dice, c: nat, k: nat, u: nat, v: nat, p: Dice)
    requires c < OMNI && a[c] == 0 && b[c] == 0
    requires SplitBy(pool, a, c, k, u, p) && SplitBy(pool, b, c, k, v, p)
    ensures !Differ(a, b)
  {
    forall d | 0 <= d < OMNI ensures a[d] == b[d] {
      assert p[d] == a[d] + SameOf(k, c, u)[d] && p[d] == b[d] + SameOf(k, c, v)[d];
    }
  }

  /** Prefixes that differ in their native dice never share an extension. */
  lemma ExtensionsApart(pool: Dice, a: Dice, b: Dice, c: nat, k: nat, p: Dice)
    requires c < OMNI && a[c] == 0 && b[c] == 0 && Differ(a, b) && FromColour(pool, a, c, k, p)
    ensures !FromColour(pool, b, c, k, p)
  {
    hide SplitBy, Differ;
    var u: nat :| u <= k && SplitBy(pool, a, c, k, u, p);
    if v: nat :| v <= k && SplitBy(pool, b, c, k, v, p) { SplitRecovers(pool, a, b, c, k, u, v, p); }
  }

  lemma {:induction false} ExtendedDistinct(pool: Dice, prefixes: seq<Dice>, c: nat, k: nat, n: nat)
    requires c < OMNI && n <= |prefixes| && ValidPool(pool)
    requires forall i :: 0 <= i < |prefixes| ==> Within(prefixes[i], pool) && prefixes[i][c] == 0
    requires forall i, j :: 0 <= i < j < |prefixes| ==> Differ(prefixes[i], prefixes[j])
    ensures Distinct(Extended(pool, prefixes, c, k, n))
  {
    hide Distinct, Within, Differ, FromColour, Splits;
    if n > 0 {
      ExtendedDistinct(pool, prefixes, c, k, n - 1);
      SplitsDistinct(pool, prefixes[n - 1], c, k, k + 1);
      var before, more := Extended(pool, prefixes, c, k, n - 1), Splits(pool, prefixes[n - 1], c, k, k + 1);
      forall p | p in before ensures p !in more {
        ExtendedMember(pool, prefixes, c, k, n - 1, p);
        SplitsAll(pool, prefixes[n - 1], c, k, p);
        var i: nat :| i < n - 1 && FromColour(pool, prefixes[i], c, k, p);
        ExtensionsApart(pool, prefixes[i], prefixes[n - 1], c, k, p);
      }
      DistinctConcat(before, more);
    } else {
      EmptyDistinct(pool, prefixes, c, k);
    }
  }

  lemma EmptyDistinct(pool: Dice, prefixes: seq<Dice>, c: nat, k: nat)
    requires c < OMNI
    ensures Distinct(Extended(pool, prefixes, c, k, 0))
  {
  }

  /** A specific-part payment is determined by its native dice. */
  lemma NativesDecide(need: seq<int>, n: nat, p: Dice, q: Dice)
    requires |need| == OMNI && n <= OMNI && PaysSpecific(need, n, p) && PaysSpecific(need, n, q)
    requires forall d :: 0 <= d < OMNI ==> p[d] == q[d]
    ensures p == q
  {
    SumSame(p, q, n);
  }

  lemma PrefixesDiffer(pool: Dice, need: seq<int>, n: nat, before: seq<Dice>)
    requires |need| == OMNI && n < OMNI && ValidPool(pool) && (forall c :: 0 <= c < OMNI ==> need[c] >= 0)
    requires before == Prefixes(pool, need, n) && Distinct(before)
    ensures forall i :: 0 <= i < |before| ==> Within(before[i], pool) && before[i][n] == 0
    ensures forall i, j :: 0 <= i < j < |before| ==> Differ(before[i], before[j])
  {
    hide Prefixes;
    forall i | 0 <= i < |before| ensures PaysSpecific(need, n, before[i]) && Within(before[i], pool) {
      assert before[i] in before;
      PrefixesMember(pool, need, n, before[i]);
    }
    forall i, j | 0 <= i < j < |before| ensures Differ(before[i], before[j]) {
      if !Differ(before[i], before[j]) { NativesDecide(need, n, before[i], before[j]); }
    }
  }

  lemma {:induction false} PrefixesDistinct(pool: Dice, need: seq<int>, n: nat)
    requires |need| == OMNI && n <= OMNI && ValidPool(pool) && forall c :: 0 <= c < OMNI ==> need[c] >= 0
    ensures Distinct(Prefixes(pool, need, n))
  {
    if n > 0 {
      hide Distinct, Extended, Within, Differ;
      PrefixesDistinct(pool, need, n - 1);
      if need[n - 1] != 0 {
        var before := Prefixes(pool, need, n - 1);
        PrefixesDiffer(pool, need, n - 1, before);
        ExtendedDistinct(pool, before, n - 1, need[n - 1], |before|);
      }
    }
  }

  // ---- When phase 1 leaves a choice ----

  /** Nothing to choose between omni and native dice: the greedy leaves no omni, or no element that
      needs dice has any. */
  ghost predicate NoChoice(pool: Dice, cost: DiceCost)
    requires Clamped(cost)
  {
    || pool[OMNI] <= Greedy(pool, cost.specific)[OMNI]
    || forall c :: 0 <= c < OMNI ==> Native(pool, cost.specific)[c] == 0
  }

  /** NoChoice is exactly the case of at most one prefix. */
  lemma SinglePrefix(pool: Dice, cost: DiceCost)
    requires Clamped(cost) && ValidPool(pool)
    ensures |Prefixes(pool, cost.specific, OMNI)| <= 1 <==> NoChoice(pool, cost)
  {
    var need, list := cost.specific, Prefixes(pool, cost.specific, OMNI);
    var g := Greedy(pool, need);
    forall q: Dice ensures q in list <==> PaysSpecific(need, OMNI, q) && Within(q, pool) {
      PrefixesMember(pool, need, OMNI, q);
    }
    PrefixesDistinct(pool, need, OMNI);
    GreedyPays(pool, need);
    if NoChoice(pool, cost) {
      if |list| > 1 {
        assert list[0] in list && list[1] in list;
        OnlyGreedy(pool, cost, list[0]);
        OnlyGreedy(pool, cost, list[1]);
        assert false;
      }
    } else {
      var c :| 0 <= c < OMNI && Native(pool, need)[c] != 0;
      var p: Dice := g[c := g[c] - 1][OMNI := g[OMNI] + 1];
      SumOneLess(g, p, c, OMNI);
      assert g in list && p in list;
      var i, j :| 0 <= i < |list| && 0 <= j < |list| && list[i] == g && list[j] == p;
    }
  }

  lemma {:induction false} SumOneLess(a: Dice, b: Dice, c: nat, n: nat)
    requires c < n <= OMNI && b[c] == a[c] - 1 && forall i :: 0 <= i < n && i != c ==> a[i] == b[i]
    ensures Sum(b, n) == Sum(a, n) - 1
  {
    if n == c + 1 { SumSame(a, b, c); } else { SumOneLess(a, b, c, n - 1); }
  }

  lemma OnlyGreedy(pool: Dice, cost: DiceCost, p: Dice)
    requires Clamped(cost) && ValidPool(pool) && NoChoice(pool, cost)
    requires PaysSpecific(cost.specific, OMNI, p) && Within(p, pool)
    ensures p == Greedy(pool, cost.specific)
  {
    var need, nat_ := cost.specific, Native(pool, cost.specific);
    assert forall c :: 0 <= c < OMNI ==> p[c] <= nat_[c];
    SumMonotone(p, nat_, OMNI);
    if c :| 0 <= c < OMNI && p[c] < nat_[c] {
      SumStrict(p, nat_, c, OMNI);
      assert false;
    }
    SumSame(p, nat_, OMNI);
  }

  lemma {:induction false} SumStrict(a: Dice, b: Dice, c: nat, n: nat)
    requires c < n <= OMNI && a[c] < b[c] && forall i :: 0 <= i < n ==> a[i] <= b[i]
    ensures Sum(a, n) < Sum(b, n)
  {
    if n == c + 1 { SumMonotone(a, b, c); } else { SumStrict(a, b, c, n - 1); }
  }

  // ---- Phase 2 ----

  lemma {:induction false} WrittenFits(pool: Dice, prefixes: seq<Dice>, k: nat, n: nat)
    requires n <= |prefixes| && ValidPool(pool) && forall i :: 0 <= i < |prefixes| ==> Within(prefixes[i], pool)
    ensures forall p :: p in Written(pool, prefixes, k, n) ==> Within(p, pool)
  {
    if n > 0 {
      WrittenFits(pool, prefixes, k, n - 1);
      var out := Written(pool, prefixes, k, n - 1);
      var prev := if |out| > n - 1 then out[n - 1] else prefixes[n - 1];
      assert |out| > n - 1 ==> out[n - 1] in out;
      forall p | p in SameOuts(pool, prev, k, OMNI) ensures Within(p, pool) {
        SameOutsMember(pool, prev, k, OMNI, p);
      }
    }
  }

  ghost predicate FromPrefix(pool: Dice, prev: Dice, k: nat, p: Dice) {
    exists c: nat :: c < OMNI && FromColour(pool, prev, c, k, p)
  }

  lemma {:induction false} FreshMember(pool: Dice, prefixes: seq<Dice>, k: nat, n: nat, p: Dice)
    requires n <= |prefixes| && ValidPool(pool) && forall i :: 0 <= i < |prefixes| ==> Within(prefixes[i], pool)
    ensures p in Fresh(pool, prefixes, k, n) <==> exists i: nat :: i < n && FromPrefix(pool, prefixes[i], k, p)
  {
    hide FromPrefix, SameOuts, Within;
    if n > 0 {
      FreshMember(pool, prefixes, k, n - 1, p);
      FromPrefixMember(pool, prefixes[n - 1], k, p);
    }
  }

  lemma FromPrefixMember(pool: Dice, prev: Dice, k: nat, p: Dice)
    requires ValidPool(pool) && Within(prev, pool)
    ensures p in SameOuts(pool, prev, k, OMNI) <==> FromPrefix(pool, prev, k, p)
  {
    hide FromColour, SameOuts;
    SameOutsMember(pool, prev, k, OMNI, p);
  }

  /** The phase-2 list as documented. */
  function Documented(pool: Dice, cost: DiceCost): seq<Dice>
    requires Clamped(cost)
  {
    var prefixes := Prefixes(pool, cost.specific, OMNI);
    if cost.same == 0 then prefixes else Fresh(pool, prefixes, cost.same, |prefixes|)
  }

  /** A documented phase-2 entry is an element part plus a one-colour part that fits the pool. */
  ghost predicate PaysBoth(pool: Dice, cost: DiceCost, s: Dice, m: Dice, p: Dice)
    requires Clamped(cost)
  {
    PaysSpecific(cost.specific, OMNI, s) && PaysSame(cost.same, m) && p == Plus(s, m) && Within(p, pool)
  }

  lemma PartWithin(pool: Dice, cost: DiceCost, s: Dice, m: Dice, p: Dice)
    requires Clamped(cost) && PaysBoth(pool, cost, s, m, p)
    ensures Within(s, pool) && forall i :: 0 <= i < COLORS ==> m[i] >= 0
  {
    SumMonotone(s, cost.specific, OMNI);
    if cost.same != 0 { var c: nat, u: nat :| c < OMNI && u <= cost.same && m == SameOf(cost.same, c, u); }
    assert forall i :: 0 <= i < COLORS ==> p[i] == s[i] + m[i];
  }

  lemma DocumentedMember(pool: Dice, cost: DiceCost, p: Dice)
    requires Clamped(cost) && ValidPool(pool)
    ensures p in Documented(pool, cost) <==> exists s: Dice, m: Dice :: PaysBoth(pool, cost, s, m, p)
  {
    hide Prefixes, Fresh, PaysSpecific;
    var need, list := cost.specific, Prefixes(pool, cost.specific, OMNI);
    forall q: Dice ensures q in list <==> PaysSpecific(need, OMNI, q) && Within(q, pool) {
      PrefixesMember(pool, need, OMNI, q);
    }
    assert forall i :: 0 <= i < |list| ==> list[i] in list;
    if p in Documented(pool, cost) { DocumentedPays(pool, cost, list, p); }
    if s: Dice, m: Dice :| PaysBoth(pool, cost, s, m, p) { PaysDocumented(pool, cost, list, s, m, p); }
  }

  lemma DocumentedPays(pool: Dice, cost: DiceCost, list: seq<Dice>, p: Dice)
    requires Clamped(cost) && ValidPool(pool) && list == Prefixes(pool, cost.specific, OMNI)
    requires forall i :: 0 <= i < |list| ==> PaysSpecific(cost.specific, OMNI, list[i]) && Within(list[i], pool)
    requires p in Documented(pool, cost)
    ensures exists s: Dice, m: Dice :: PaysBoth(pool, cost, s, m, p)
  {
    hide Prefixes, Fresh, PaysSpecific;
    if cost.same == 0 {
      assert Plus(p, ZERO) == p;
      assert PaysBoth(pool, cost, p, ZERO, p);
    } else {
      FreshMember(pool, list, cost.same, |list|, p);
      var i: nat :| i < |list| && FromPrefix(pool, list[i], cost.same, p);
      var c: nat :| c < OMNI && FromColour(pool, list[i], c, cost.same, p);
      var u: nat :| u <= cost.same && SplitBy(pool, list[i], c, cost.same, u, p);
      assert PaysBoth(pool, cost, list[i], SameOf(cost.same, c, u), p);
    }
  }

  lemma PaysFromPrefix(pool: Dice, cost: DiceCost, s: Dice, m: Dice, p: Dice)
    requires Clamped(cost) && PaysBoth(pool, cost, s, m, p) && cost.same != 0
    ensures FromPrefix(pool, s, cost.same, p)
  {
    var c: nat, u: nat :| c < OMNI && u <= cost.same && m == SameOf(cost.same, c, u);
    assert SplitBy(pool, s, c, cost.same, u, p);
    assert FromColour(pool, s, c, cost.same, p);
  }

  lemma PaysDocumented(pool: Dice, cost: DiceCost, list: seq<Dice>, s: Dice, m: Dice, p: Dice)
    requires Clamped(cost) && ValidPool(pool) && list == Prefixes(pool, cost.specific, OMNI)
    requires forall q: Dice :: q in list <==> PaysSpecific(cost.specific, OMNI, q) && Within(q, pool)
    requires PaysBoth(pool, cost, s, m, p)
    ensures p in Documented(pool, cost)
  {
    hide Prefixes, Fresh, PaysSpecific, FromPrefix, Within;
    PartWithin(pool, cost, s, m, p);
    assert s in list && forall i :: 0 <= i < |list| ==> list[i] in list;
    if cost.same == 0 {
      assert p == s;
    } else {
      PaysFromPrefix(pool, cost, s, m, p);
      var i: nat :| i < |list| && list[i] == s;
      FreshMember(pool, list, cost.same, |list|, p);
    }
  }

  lemma ValidIsDocumented(pool: Dice, cost: DiceCost, pay: Dice)
    requires Clamped(cost) && ValidPool(pool) && Valid(pool, cost, pay)
    ensures CompletesSome(pool, Documented(pool, cost), cost.any, pay)
  {
    hide Documented, PaysSpecific, PaysSame, PaysAny;
    var list := Documented(pool, cost);
    var s: Dice, m: Dice, a: Dice :| Parts(pool, cost, s, m, a) && pay == Plus(Plus(s, m), a);
    PlusWithin(pool, cost, s, m, a);
    assert PaysBoth(pool, cost, s, m, Plus(s, m));
    DocumentedMember(pool, cost, Plus(s, m));
    hide PaysBoth;
    var i :| 0 <= i < |list| && list[i] == Plus(s, m);
    assert Minus(pay, Plus(s, m)) == a;
    assert Completes(pool, list[i], cost.any, pay);
  }

  lemma CompletionIsValid(pool: Dice, cost: DiceCost, p: Dice, pay: Dice)
    requires Clamped(cost) && ValidPool(pool) && p in Documented(pool, cost) && Completes(pool, p, cost.any, pay)
    ensures Valid(pool, cost, pay)
  {
    DocumentedMember(pool, cost, p);
    var s: Dice, m: Dice :| PaysBoth(pool, cost, s, m, p);
    var a := Minus(pay, p);
    assert pay == Plus(Plus(s, m), a);
    forall i | 0 <= i < COLORS ensures 0 <= pay[i] <= pool[i] {
      assert 0 <= a[i] <= Minus(pool, p)[i] == pool[i] - p[i];
      assert a[i] == pay[i] - p[i] && p[i] >= 0;
    }
    assert Parts(pool, cost, s, m, a);
  }

  /** Completing the documented phase-2 list gives exactly the valid payments, for every cost. */
  lemma DocumentedIsValid(pool: Dice, cost: DiceCost, pay: Dice)
    requires Clamped(cost) && ValidPool(pool)
    ensures Valid(pool, cost, pay) <==> CompletesSome(pool, Documented(pool, cost), cost.any, pay)
  {
    if Valid(pool, cost, pay) { ValidIsDocumented(pool, cost, pay); }
    var list := Documented(pool, cost);
    if i :| 0 <= i < |list| && Completes(pool, list[i], cost.any, pay) {
      assert list[i] in list;
      CompletionIsValid(pool, cost, list[i], pay);
    }
  }

  lemma PlusWithin(pool: Dice, cost: DiceCost, s: Dice, m: Dice, a: Dice)
    requires Clamped(cost) && Parts(pool, cost, s, m, a)
    ensures Within(Plus(s, m), pool) && Within(a, Minus(pool, Plus(s, m)))
  {
    var pay := Plus(Plus(s, m), a);
    SumMonotone(s, cost.specific, OMNI);
    if cost.same != 0 { var c: nat, u: nat :| c < OMNI && u <= cost.same && m == SameOf(cost.same, c, u); }
    assert forall i :: 0 <= i < COLORS ==> pay[i] == s[i] + m[i] + a[i];
  }

  /** The costs for which phase 2 as written is phase 2 as documented. */
  ghost predicate Exact(pool: Dice, cost: DiceCost)
    requires Clamped(cost)
  {
    cost.same == 0 || NoChoice(pool, cost)
  }

  lemma ExactIsDocumented(pool: Dice, cost: DiceCost)
    requires Clamped(cost) && ValidPool(pool) && Exact(pool, cost)
    ensures AfterSame(pool, cost) == Documented(pool, cost)
  {
    var list := Prefixes(pool, cost.specific, OMNI);
    SinglePrefix(pool, cost);
    if cost.same != 0 && |list| == 1 {
      assert Written(pool, list, cost.same, 0) == Fresh(pool, list, cost.same, 0) == [];
      assert Written(pool, list, cost.same, 1) == Fresh(pool, list, cost.same, 1);
    }
  }

  /** Returned payments are exactly the valid ones. */
  lemma ReturnedIsValid(pool: Dice, cost: DiceCost, pay: Dice)
    requires Clamped(cost) && ValidPool(pool) && Exact(pool, cost)
    ensures Returned(pool, cost, pay) <==> Valid(pool, cost, pay)
  {
    ExactIsDocumented(pool, cost);
    DocumentedIsValid(pool, cost, pay);
  }

  // ---- Pools without slack ----

  lemma ColourSum(pool: Dice, prev: Dice, c: nat, k: nat, p: Dice)
    requires c < OMNI && FromColour(pool, prev, c, k, p)
    ensures Sum(p, COLORS) == Sum(prev, COLORS) + k
  {
    var u: nat :| u <= k && SplitBy(pool, prev, c, k, u, p);
    var m := SameOf(k, c, u);
    SumPlus(prev, m, COLORS);
    SumFromZero(m, c + 1, OMNI);
    SumZero(m, c);
  }

  /** What phase 2 as written holds: extensions of prefixes, and entries with a second one-colour part. */
  ghost predicate Extended1Or2(pool: Dice, prefixes: seq<Dice>, k: nat, base: int, p: Dice) {
    || (exists i: nat :: i < |prefixes| && FromPrefix(pool, prefixes[i], k, p))
    || Sum(p, COLORS) >= base + 2 * k
  }

  lemma {:induction false} WrittenHolds(pool: Dice, prefixes: seq<Dice>, k: nat, base: int, n: nat)
    requires n <= |prefixes| && ValidPool(pool)
    requires forall i :: 0 <= i < |prefixes| ==> Within(prefixes[i], pool) && Sum(prefixes[i], COLORS) == base
    ensures forall p :: p in Written(pool, prefixes, k, n) ==> Extended1Or2(pool, prefixes, k, base, p) && Sum(p, COLORS) >= base + k
  {
    hide FromPrefix, FromColour, Within, SameOuts, Extended1Or2, Sum;
    if n > 0 {
      WrittenHolds(pool, prefixes, k, base, n - 1);
      WrittenFits(pool, prefixes, k, n - 1);
      var out := Written(pool, prefixes, k, n - 1);
      var prev := if |out| > n - 1 then out[n - 1] else prefixes[n - 1];
      assert |out| > n - 1 ==> out[n - 1] in out;
      forall p | p in SameOuts(pool, prev, k, OMNI) ensures Extended1Or2(pool, prefixes, k, base, p) && Sum(p, COLORS) >= base + k {
        OneOut(pool, prefixes, k, base, n, prev, p, |out| <= n - 1);
      }
    }
  }

  lemma OneOut(pool: Dice, prefixes: seq<Dice>, k: nat, base: int, n: nat, prev: Dice, p: Dice, intact: bool)
    requires 0 < n <= |prefixes| && ValidPool(pool) && Within(prev, pool) && p in SameOuts(pool, prev, k, OMNI)
    requires if intact then prev == prefixes[n - 1] && Sum(prev, COLORS) == base else Sum(prev, COLORS) >= base + k
    ensures Extended1Or2(pool, prefixes, k, base, p) && Sum(p, COLORS) >= base + k
  {
    hide FromColour, Within, SameOuts, Sum;
    FromPrefixMember(pool, prev, k, p);
    var c: nat :| c < OMNI && FromColour(pool, prev, c, k, p);
    ColourSum(pool, prev, c, k, p);
  }

  lemma CompletionSum(pool: Dice, p: Dice, n: int, pay: Dice)
    requires Completes(pool, p, n, pay)
    ensures Sum(pay, COLORS) == Sum(p, COLORS) + n && Sum(pay, COLORS) <= Sum(pool, COLORS)
  {
    SumMinus(pay, p, COLORS);
    SumMinus(pool, p, COLORS);
    SumMonotone(Minus(pay, p), Minus(pool, p), COLORS);
  }

  lemma PrefixFacts(pool: Dice, cost: DiceCost, p: Dice)
    requires Clamped(cost) && ValidPool(pool) && p in Prefixes(pool, cost.specific, OMNI)
    ensures Within(p, pool) && Sum(p, COLORS) == Sum(cost.specific, OMNI)
  {
    PrefixesMember(pool, cost.specific, OMNI, p);
  }

  /** When fewer dice than the same-colour part would be left over, whatever the code returns is valid. */
  lemma LittleSlackIsSound(pool: Dice, cost: DiceCost, pay: Dice)
    requires Clamped(cost) && ValidPool(pool) && Sum(pool, COLORS) < TotalCost(cost) + cost.same
    requires Returned(pool, cost, pay)
    ensures Valid(pool, cost, pay)
  {
    hide Prefixes, Written, Fresh, Completes, FromPrefix, Valid, Within;
    var list, k := Prefixes(pool, cost.specific, OMNI), cost.same;
    var i :| 0 <= i < |AfterSame(pool, cost)| && Completes(pool, AfterSame(pool, cost)[i], cost.any, pay);
    var p := AfterSame(pool, cost)[i];
    assert p in AfterSame(pool, cost);
    CompletionSum(pool, p, cost.any, pay);
    if k != 0 {
      forall j | 0 <= j < |list| ensures Within(list[j], pool) && Sum(list[j], COLORS) == Sum(cost.specific, OMNI) {
        assert list[j] in list;
        PrefixFacts(pool, cost, list[j]);
      }
      WrittenHolds(pool, list, k, Sum(cost.specific, OMNI), |list|);
      FreshMember(pool, list, k, |list|, p);
    }
    CompletionIsValid(pool, cost, p, pay);
  }

  lemma WholePool(pool: Dice, pay: Dice, n: nat)
    requires n <= COLORS && Within(pay, pool) && Sum(pay, n) == Sum(pool, n)
    ensures forall i :: 0 <= i < n ==> pay[i] == pool[i]
  {
    if n > 0 {
      SumMonotone(pay, pool, n - 1);
      WholePool(pool, pay, n - 1);
    }
  }

  /** When the cost takes the whole pool, the code is right whatever phase 2 overwrites. */
  lemma TightIsExact(pool: Dice, cost: DiceCost, pay: Dice)
    requires Clamped(cost) && ValidPool(pool) && Sum(pool, COLORS) == TotalCost(cost) && Affordable(pool, cost)
    ensures Returned(pool, cost, pay) <==> Valid(pool, cost, pay)
  {
    hide Returned, Valid, Affordable;
    var some := AffordableReturns(pool, cost);
    if cost.same > 0 {
      LittleSlackIsSound(pool, cost, some);
      ValidTotal(pool, cost, some);
      WholePool(pool, some, COLORS);
      if Returned(pool, cost, pay) { LittleSlackIsSound(pool, cost, pay); }
      if Valid(pool, cost, pay) {
        ValidTotal(pool, cost, pay);
        WholePool(pool, pay, COLORS);
        assert pay == some;
      }
    } else {
      ReturnedIsValid(pool, cost, pay);
    }
  }

  // ---- The first prefix survives phase 2 as written ----

  function GreedyUpTo(pool: Dice, need: seq<int>, n: nat): Dice
    requires |need| == OMNI && n <= OMNI
  {
    seq(COLORS, i requires 0 <= i < COLORS =>
      if i < n then Native(pool, need)[i] else if i == OMNI then Shortfall(pool, need, n) else 0)
  }

  lemma {:induction false} FirstSplit(pool: Dice, prev: Dice, c: nat, k: nat, n: nat)
    requires c < OMNI && n <= k + 1 && ValidPool(pool) && Within(prev, pool)
    requires var u := if k <= pool[c] - prev[c] then 0 else k - (pool[c] - prev[c]);
      u <= pool[OMNI] - prev[OMNI]
    ensures var u := if k <= pool[c] - prev[c] then 0 else k - (pool[c] - prev[c]);
      var splits := Splits(pool, prev, c, k, n);
      if n <= u then splits == [] else splits != [] && splits[0] == Plus(prev, SameOf(k, c, u))
  {
    if n > 0 {
      FirstSplit(pool, prev, c, k, n - 1);
      AddExact(pool, prev, c, k, n - 1);
    }
  }

  lemma {:induction false} FirstExtended(pool: Dice, prefixes: seq<Dice>, c: nat, k: nat, n: nat)
    requires c < OMNI && 0 < n <= |prefixes| && Splits(pool, prefixes[0], c, k, k + 1) != []
    ensures Extended(pool, prefixes, c, k, n) != []
    ensures Extended(pool, prefixes, c, k, n)[0] == Splits(pool, prefixes[0], c, k, k + 1)[0]
  {
    if n > 1 { FirstExtended(pool, prefixes, c, k, n - 1); }
    else { assert Extended(pool, prefixes, c, k, 0) == []; }
  }

  lemma FirstPrefixStep(pool: Dice, need: seq<int>, n: nat, before: seq<Dice>)
    requires |need| == OMNI && 0 < n <= OMNI && ValidPool(pool) && (forall c :: 0 <= c < OMNI ==> need[c] >= 0)
    requires before != [] && before[0] == GreedyUpTo(pool, need, n - 1) && Within(before[0], pool)
    requires Shortfall(pool, need, n) == Shortfall(pool, need, n - 1) + need[n - 1] - Min(pool[n - 1], need[n - 1]) <= pool[OMNI]
    ensures need[n - 1] == 0 ==> GreedyUpTo(pool, need, n) == before[0]
    ensures var list := Extended(pool, before, n - 1, need[n - 1], |before|); list != [] && list[0] == GreedyUpTo(pool, need, n)
  {
    var c, prev, k := n - 1, before[0], need[n - 1];
    assert Native(pool, need)[c] == Min(pool[c], k);
    hide Shortfall;
    FirstSplit(pool, prev, c, k, k + 1);
    FirstExtended(pool, before, c, k, |before|);
    assert GreedyUpTo(pool, need, n) == Plus(prev, SameOf(k, c, k - Min(pool[c], k)));
    if k == 0 { assert GreedyUpTo(pool, need, n) == prev; }
  }

  /** The first prefix is the greedy payment. */
  lemma {:induction false} FirstPrefix(pool: Dice, need: seq<int>, n: nat)
    requires |need| == OMNI && n <= OMNI && ValidPool(pool) && forall c :: 0 <= c < OMNI ==> need[c] >= 0
    requires Shortfall(pool, need, n) <= pool[OMNI]
    ensures Prefixes(pool, need, n) != [] && Prefixes(pool, need, n)[0] == GreedyUpTo(pool, need, n)
  {
    if n > 0 {
      hide Extended, GreedyUpTo, PaysSpecific;
      ShortfallMonotone(pool, need, n - 1, n);
      FirstPrefix(pool, need, n - 1);
      var before := Prefixes(pool, need, n - 1);
      assert before[0] in before;
      PrefixesMember(pool, need, n - 1, before[0]);
      assert Shortfall(pool, need, n) == Shortfall(pool, need, n - 1) + need[n - 1] - Min(pool[n - 1], need[n - 1]);
      hide Shortfall, Within;
      FirstPrefixStep(pool, need, n, before);
    } else {
      assert GreedyUpTo(pool, need, 0) == ZERO;
    }
  }

  lemma {:induction false} WrittenGrows(pool: Dice, prefixes: seq<Dice>, k: nat, n: nat)
    requires 0 < n <= |prefixes|
    ensures SameOuts(pool, prefixes[0], k, OMNI) <= Written(pool, prefixes, k, n)
  {
    if n > 1 { WrittenGrows(pool, prefixes, k, n - 1); }
    else { assert Written(pool, prefixes, k, 0) == []; }
  }

  /** Whatever phase 2 overwrites, an affordable cost gets a payment. */
  lemma AffordableReturns(pool: Dice, cost: DiceCost) returns (pay: Dice)
    requires Clamped(cost) && ValidPool(pool) && Affordable(pool, cost)
    ensures Returned(pool, cost, pay)
  {
    var need, list := cost.specific, Prefixes(pool, cost.specific, OMNI);
    var g := Greedy(pool, need);
    var m := AffordablePart(pool, cost);
    FirstPrefix(pool, need, OMNI);
    assert GreedyUpTo(pool, need, OMNI) == g;
    GreedyPays(pool, need);
    var p := Plus(g, m);
    assert p in AfterSame(pool, cost) by {
      if cost.same == 0 {
        assert p == g == list[0];
      } else {
        var c: nat, u: nat :| c < OMNI && u <= cost.same && m == SameOf(cost.same, c, u);
        assert SplitBy(pool, g, c, cost.same, u, p);
        assert FromColour(pool, g, c, cost.same, p);
        SameOutsMember(pool, g, cost.same, OMNI, p);
        WrittenGrows(pool, list, cost.same, |list|);
      }
    }
    var rest := Minus(pool, p);
    SumMinus(pool, p, COLORS);
    SumPlus(g, m, COLORS);
    SameTotal(cost.same, m);
    var a := DrawSome(rest, cost.any, COLORS);
    pay := Plus(p, a);
    assert Minus(pay, p) == a;
    var i :| 0 <= i < |AfterSame(pool, cost)| && AfterSame(pool, cost)[i] == p;
    assert Completes(pool, AfterSame(pool, cost)[i], cost.any, pay);
  }

  lemma AfterSameFits(pool: Dice, cost: DiceCost)
    requires Clamped(cost) && ValidPool(pool)
    ensures forall i :: 0 <= i < |AfterSame(pool, cost)| ==> Within(AfterSame(pool, cost)[i], pool)
  {
    var list := Prefixes(pool, cost.specific, OMNI);
    forall i | 0 <= i < |list| ensures Within(list[i], pool) {
      assert list[i] in list;
      PrefixesMember(pool, cost.specific, OMNI, list[i]);
    }
    if cost.same != 0 {
      WrittenFits(pool, list, cost.same, |list|);
      assert forall i :: 0 <= i < |AfterSame(pool, cost)| ==> AfterSame(pool, cost)[i] in AfterSame(pool, cost);
    }
  }

  /** Phase 3: every prefix completed with n free dice, without repetition. */
  method Complete(pool: Dice, prefixes: seq<Dice>, n: nat) returns (out: seq<Dice>)
    requires ValidPool(pool) && forall i :: 0 <= i < |prefixes| ==> Within(prefixes[i], pool)
    ensures Distinct(out) && forall i :: 0 <= i < |out| ==> Within(out[i], pool)
    ensures forall pay: Dice :: pay in out <==> CompletesSome(pool, prefixes, n, pay)
  {
    out := [];
    var seen: set<Dice> := {};
    for i := 0 to |prefixes|
      invariant Distinct(out) && (forall pay: Dice :: pay in out <==> pay in seen)
      invariant forall pay: Dice :: pay in out <==> CompletesSome(pool, prefixes[..i], n, pay)
    {
      var prefix := prefixes[i];
      var combos := EnumerateMultiset(Minus(pool, prefix), n);
      for j := 0 to |combos|
        invariant Distinct(out) && (forall pay: Dice :: pay in out <==> pay in seen)
        invariant forall pay: Dice :: pay in out <==>
                    CompletesSome(pool, prefixes[..i], n, pay) || Minus(pay, prefix) in combos[..j]
      {
        var total: Dice := seq(COLORS, c requires 0 <= c < COLORS => Int8(prefix[c] + combos[j][c]));
        assert combos[j] in combos;
        TotalExact(pool, prefix, combos[j], total);
        ghost var before := out;
        if total !in seen {
          seen := seen + {total};
          out := out + [total];
        }
        forall pay: Dice ensures pay in out <==>
                    CompletesSome(pool, prefixes[..i], n, pay) || Minus(pay, prefix) in combos[..j + 1] {
          assert combos[..j + 1] == combos[..j] + [combos[j]];
          assert pay == total <==> Minus(pay, prefix) == combos[j];
        }
      }
      assert combos[..|combos|] == combos && prefixes[..i + 1] == prefixes[..i] + [prefix];
      forall pay: Dice ensures pay in out <==> CompletesSome(pool, prefixes[..i + 1], n, pay) {
        CompletesOneMore(pool, prefixes[..i], prefix, n, pay);
      }
    }
    assert prefixes[..|prefixes|] == prefixes;
    forall i | 0 <= i < |out| ensures Within(out[i], pool) {
      assert out[i] in out;
      var k :| 0 <= k < |prefixes| && Completes(pool, prefixes[k], n, out[i]);
      forall c | 0 <= c < COLORS ensures 0 <= out[i][c] <= pool[c] {
        assert 0 <= Minus(out[i], prefixes[k])[c] <= Minus(pool, prefixes[k])[c];
      }
    }
  }

  lemma TotalExact(pool: Dice, prefix: Dice, combo: Dice, total: Dice)
    requires ValidPool(pool) && Within(prefix, pool) && Within(combo, Minus(pool, prefix))
    requires forall c :: 0 <= c < COLORS ==> total[c] == Int8(prefix[c] + combo[c])
    ensures total == Plus(prefix, combo) && Minus(total, prefix) == combo
    ensures forall pay: Dice :: Minus(pay, prefix) == combo ==> pay == total
  {
    assert forall c :: 0 <= c < COLORS ==> total[c] == prefix[c] + combo[c];
    forall pay: Dice | Minus(pay, prefix) == combo ensures pay == total {
      assert forall c :: 0 <= c < COLORS ==> pay[c] - prefix[c] == Minus(pay, prefix)[c];
    }
  }

  lemma CompletesOneMore(pool: Dice, list: seq<Dice>, p: Dice, n: int, pay: Dice)
    ensures CompletesSome(pool, list + [p], n, pay) <==> CompletesSome(pool, list, n, pay) || Completes(pool, p, n, pay)
  {
    var more := list + [p];
    if i :| 0 <= i < |list| && Completes(pool, list[i], n, pay) { assert more[i] == list[i]; }
    assert more[|list|] == p;
  }

  // ---- Where the code and its documentation part ----

  /** One fire die and one same-colour die, out of one fire and two omni dice. */
  datatype Example = Example(pool: Dice, cost: DiceCost, fire: Dice, fireOmni: Dice, twoOmni: Dice)

  ghost predicate IsExample(e: Example) {
    && e.pool == [1, 0, 0, 0, 0, 0, 0, 2] && e.cost == DiceCost([1, 0, 0, 0, 0, 0, 0], 1, 0)
    && e.fire == [1, 0, 0, 0, 0, 0, 0, 0] && e.fireOmni == [1, 0, 0, 0, 0, 0, 0, 1]
    && e.twoOmni == [0, 0, 0, 0, 0, 0, 0, 2]
  }

  lemma {:induction false} SameOutsGrows(pool: Dice, prev: Dice, k: nat, m: nat, n: nat)
    requires m <= n <= OMNI
    ensures SameOuts(pool, prev, k, m) <= SameOuts(pool, prev, k, n)
  {
    hide Splits;
    if m < n { SameOutsGrows(pool, prev, k, m, n - 1); }
  }

  lemma {:induction false} NoMoreNeed(pool: Dice, need: seq<int>, m: nat, n: nat)
    requires |need| == OMNI && m <= n <= OMNI && (forall c :: 0 <= c < OMNI ==> need[c] >= 0)
    requires forall c :: m <= c < n ==> need[c] == 0
    ensures Prefixes(pool, need, n) == Prefixes(pool, need, m)
  {
    hide Extended;
    if m < n { NoMoreNeed(pool, need, m, n - 1); }
  }

  /** With k = 1, the two entries of Splits: the native die and the omni die, where they fit. */
  lemma SplitOne(pool: Dice, prev: Dice, c: nat, k: nat)
    requires c < OMNI && k == 1
    ensures Splits(pool, prev, c, k, 2) ==
      (if 1 <= pool[c] - prev[c] && 0 <= pool[OMNI] - prev[OMNI] then [Add(prev, c, 1, 0)] else []) +
      (if 0 <= pool[c] - prev[c] && 1 <= pool[OMNI] - prev[OMNI] then [Add(prev, c, 0, 1)] else [])
  {
    var none := Splits(pool, prev, c, k, 0);
    var one := Splits(pool, prev, c, k, 1);
    assert none == [] && one == if 1 <= pool[c] - prev[c] && 0 <= pool[OMNI] - prev[OMNI] then [Add(prev, c, 1, 0)] else [];
  }

  lemma AddSmall(prev: Dice, c: nat, native: nat, omni: nat)
    requires c < OMNI && 0 <= prev[c] <= 100 && 0 <= prev[OMNI] <= 100 && native <= 1 && omni <= 1
    ensures Add(prev, c, native, omni) == prev[c := prev[c] + native][OMNI := prev[OMNI] + omni]
  {
  }

  lemma ExampleAdds(e: Example)
    requires IsExample(e)
    ensures Add(ZERO, 0, 1, 0) == e.fire && Add(e.fire, 0, 0, 1) == e.fireOmni && Add(e.fire, 1, 0, 1) == e.fireOmni
    ensures e.pool[0] == 1 && e.pool[1] == 0 && e.pool[OMNI] == 2 && e.fire[0] == 1 && e.fire[1] == 0 && e.fire[OMNI] == 0
  {
    AddSmall(ZERO, 0, 1, 0);
    AddSmall(e.fire, 0, 0, 1);
    AddSmall(e.fire, 1, 0, 1);
    hide Add, Int8;
  }

  lemma ExampleSplits(e: Example, k: nat)
    requires IsExample(e) && k == 1
    ensures Splits(e.pool, ZERO, 0, k, 2) == [e.fire, Add(ZERO, 0, 0, 1)]
    ensures Splits(e.pool, e.fire, 0, k, 2) == [e.fireOmni] && Splits(e.pool, e.fire, 1, k, 2) == [e.fireOmni]
  {
    ExampleAdds(e);
    hide IsExample, Add, Splits;
    SplitOne(e.pool, ZERO, 0, k);
    SplitOne(e.pool, e.fire, 0, k);
    SplitOne(e.pool, e.fire, 1, k);
  }

  lemma ExampleCost(e: Example)
    requires IsExample(e)
    ensures e.cost.specific[0] == 1 && (forall c :: 1 <= c < OMNI ==> e.cost.specific[c] == 0)
    ensures e.cost.same == 1 && e.cost.any == 0 && Clamped(e.cost) && |e.cost.specific| == OMNI
  {
  }

  lemma OnePrefix(pool: Dice, need: seq<int>, list: seq<Dice>)
    requires |need| == OMNI && (forall c :: 0 <= c < OMNI ==> need[c] >= 0) && need[0] != 0
    requires list == Splits(pool, ZERO, 0, need[0], need[0] + 1)
    ensures Prefixes(pool, need, 1) == list
  {
    hide Splits;
    var start := Prefixes(pool, need, 0);
    assert start == [ZERO];
    assert Extended(pool, start, 0, need[0], 0) == [];
    assert Extended(pool, start, 0, need[0], 1) == list;
  }

  lemma ExamplePrefixes(e: Example)
    requires IsExample(e)
    ensures Clamped(e.cost) && var list := Prefixes(e.pool, e.cost.specific, OMNI); |list| == 2 && list[0] == e.fire
  {
    ExampleCost(e);
    var pool, need := e.pool, e.cost.specific;
    ExampleSplits(e, need[0]);
    hide IsExample, Prefixes, Splits;
    NoMoreNeed(pool, need, 1, OMNI);
    OnePrefix(pool, need, Splits(pool, ZERO, 0, need[0], need[0] + 1));
  }

  lemma TwoColours(pool: Dice, prev: Dice, k: nat, n: nat, p: Dice)
    requires 2 <= n <= OMNI && Splits(pool, prev, 0, k, k + 1) == [p] && Splits(pool, prev, 1, k, k + 1) == [p]
    ensures var outs := SameOuts(pool, prev, k, n); |outs| > 1 && outs[1] == p
  {
    hide Splits;
    assert SameOuts(pool, prev, k, 0) == [] && SameOuts(pool, prev, k, 1) == [p] && SameOuts(pool, prev, k, 2) == [p, p];
    SameOutsGrows(pool, prev, k, 2, n);
  }

  /** The first prefix writes fire-and-omni over the second prefix. */
  lemma ExampleOverwrites(e: Example, k: nat, n: nat)
    requires IsExample(e) && k == 1 && 2 <= n <= OMNI
    ensures var outs := SameOuts(e.pool, e.fire, k, n); |outs| > 1 && outs[1] == e.fireOmni
  {
    ExampleSplits(e, k);
    hide IsExample, Splits;
    TwoColours(e.pool, e.fire, k, n, e.fireOmni);
  }

  lemma ExampleList(e: Example, k: nat, n: nat)
    requires IsExample(e) && k == 1 && n == OMNI
    ensures Clamped(e.cost) && AfterSame(e.pool, e.cost) == SameOuts(e.pool, e.fire, k, n) + SameOuts(e.pool, e.fireOmni, k, n)
  {
    ExamplePrefixes(e);
    ExampleOverwrites(e, k, n);
    ExampleCost(e);
    hide IsExample, Prefixes, SameOuts;
    var list := Prefixes(e.pool, e.cost.specific, OMNI);
    var none := Written(e.pool, list, k, 0);
    var one := Written(e.pool, list, k, 1);
    assert none == [] && one == SameOuts(e.pool, e.fire, k, n);
  }

  lemma NothingMore(pool: Dice, p: Dice, pay: Dice)
    ensures Completes(pool, p, 0, pay) ==> pay == p
    ensures Within(p, pool) ==> Completes(pool, p, 0, p)
  {
    var d := Minus(pay, p);
    if Completes(pool, p, 0, pay) {
      assert Draws(d, 0, 0, ZERO, d);
      DrawsLeft(d, 0, 0, ZERO, d);
      assert forall c :: 0 <= c < COLORS ==> d[c] == pay[c] - p[c];
    }
    assert Minus(p, p) == ZERO;
    SumZero(ZERO, COLORS);
  }

  lemma OneMoreOmni(pool: Dice, prev: Dice, k: nat, n: nat)
    requires 0 < n <= OMNI && k == 1 && ValidPool(pool) && Within(prev, pool) && prev[OMNI] < pool[OMNI]
    ensures prev[OMNI := prev[OMNI] + 1] in SameOuts(pool, prev, k, n)
  {
    var p: Dice := prev[OMNI := prev[OMNI] + 1];
    assert Plus(prev, SameOf(k, 0, 1)) == p;
    assert SplitBy(pool, prev, 0, k, 1, p);
    assert FromColour(pool, prev, 0, k, p);
    SameOutsMember(pool, prev, k, n, p);
  }

  lemma FireStays(e: Example, prev: Dice, k: nat, n: nat)
    requires IsExample(e) && k == 1 && n == OMNI && prev[0] == 1 && Within(prev, e.pool)
    ensures e.twoOmni !in SameOuts(e.pool, prev, k, n)
  {
    SameOutsMember(e.pool, prev, k, n, e.twoOmni);
    forall c: nat | c < OMNI ensures !FromColour(e.pool, prev, c, k, e.twoOmni) {
      forall u: nat | u <= k ensures !SplitBy(e.pool, prev, c, k, u, e.twoOmni) {
        assert Plus(prev, SameOf(k, c, u))[0] >= 1;
      }
    }
  }

  lemma ExampleFits(e: Example)
    requires IsExample(e)
    ensures ValidPool(e.pool) && Within(e.fire, e.pool) && Within(e.fireOmni, e.pool) && e.fireOmni[OMNI] < e.pool[OMNI]
    ensures e.fireOmni[OMNI := e.fireOmni[OMNI] + 1] == e.pool && e.fire[0] == 1 && e.fireOmni[0] == 1
  {
  }

  lemma ExampleMembers(e: Example, k: nat, n: nat)
    requires IsExample(e) && k == 1 && n == OMNI
    ensures Clamped(e.cost) && e.pool in AfterSame(e.pool, e.cost) && e.twoOmni !in AfterSame(e.pool, e.cost)
  {
    hide IsExample, AfterSame, SameOuts;
    ExampleList(e, k, n);
    ExampleFits(e);
    OneMoreOmni(e.pool, e.fireOmni, k, n);
    FireStays(e, e.fire, k, n);
    FireStays(e, e.fireOmni, k, n);
  }

  /** From one fire and two omni the code returns all three dice, one too many, and misses the two
      omni: phase 2 has written its output over the prefix it still had to read. */
  lemma OverwriteExample() returns (e: Example)
    ensures IsExample(e) && Clamped(e.cost) && !Exact(e.pool, e.cost)
    ensures Returned(e.pool, e.cost, e.pool) && !Valid(e.pool, e.cost, e.pool)
    ensures Valid(e.pool, e.cost, e.twoOmni) && !Returned(e.pool, e.cost, e.twoOmni)
  {
    e := Example([1, 0, 0, 0, 0, 0, 0, 2], DiceCost([1, 0, 0, 0, 0, 0, 0], 1, 0),
                 [1, 0, 0, 0, 0, 0, 0, 0], [1, 0, 0, 0, 0, 0, 0, 1], [0, 0, 0, 0, 0, 0, 0, 2]);
    ExampleOverwritten(e);
  }

  lemma ExampleOverwritten(e: Example)
    requires IsExample(e)
    ensures Clamped(e.cost) && !Exact(e.pool, e.cost)
    ensures Returned(e.pool, e.cost, e.pool) && !Valid(e.pool, e.cost, e.pool)
    ensures Valid(e.pool, e.cost, e.twoOmni) && !Returned(e.pool, e.cost, e.twoOmni)
  {
    ExampleCost(e);
    ExampleFits(e);
    ExamplePrefixes(e);
    ExampleMembers(e, 1, OMNI);
    ExampleValid(e);
    hide IsExample, AfterSame, Valid, Prefixes, NoChoice;
    SinglePrefix(e.pool, e.cost);
    var list := AfterSame(e.pool, e.cost);
    var i :| 0 <= i < |list| && list[i] == e.pool;
    PoolWithin(e.pool);
    NothingMore(e.pool, list[i], e.pool);
    forall j | 0 <= j < |list| ensures !Completes(e.pool, list[j], 0, e.twoOmni) {
      NothingMore(e.pool, list[j], e.twoOmni);
    }
  }

  lemma PoolWithin(pool: Dice)
    requires ValidPool(pool)
    ensures Within(pool, pool)
  {
  }

  lemma ExampleValid(e: Example)
    requires IsExample(e)
    ensures Clamped(e.cost) && !Valid(e.pool, e.cost, e.pool) && Valid(e.pool, e.cost, e.twoOmni)
  {
    var s: Dice := ZERO[OMNI := 1];
    SumOneLess(e.fire, ZERO, 0, OMNI);
    SumZero(ZERO, OMNI);
    SumSame(e.cost.specific, e.fire, OMNI);
    SumSame(e.pool, e.fire, OMNI);
    SumZero(s, OMNI);
    SumZero(ZERO, COLORS);
    assert SameOf(1, 0, 1) == s;
    assert Plus(Plus(s, s), ZERO) == e.twoOmni;
    assert Parts(e.pool, e.cost, s, s, ZERO);
    if Valid(e.pool, e.cost, e.pool) {
      ValidTotal(e.pool, e.cost, e.pool);
      assert false;
    }
  }
}
