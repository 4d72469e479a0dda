/** When EnumerateCostPayments returns exactly the valid payments, and when it does not, although phase 2
    reads prefixes that it has already overwritten. */
module PaymentExactness {
  import opened DiceVectors
  import opened CostPayment
  import opened PaymentEnumeration
  import opened PaymentTheorems

  // ---- Conditions on pool and cost ----

  /** What native-first leaves of the pool. */
  function Rest(pool: Dice, cost: DiceCost): Dice
    requires |cost.specific| == OMNI
  {
    Minus(pool, Greedy(pool, cost.specific))
  }

  /** Dice left over after paying. */
  function Slack(pool: Dice, cost: DiceCost): int
    requires |cost.specific| == OMNI
  {
    Sum(pool, COLORS) - TotalCost(cost)
  }

  /** No payment can do with fewer native dice of a colour than native-first spends: either too few dice
      are left over to leave that many out, or no other colour can then pay the same-colour part. */
  ghost predicate Unavoidable(pool: Dice, cost: DiceCost)
    requires |cost.specific| == OMNI
  {
    var r := Rest(pool, cost);
    forall c: nat :: c < OMNI && Greedy(pool, cost.specific)[c] > 0 ==>
      Slack(pool, cost) <= r[c] || forall d: nat :: d < OMNI && d != c ==> r[d] + r[OMNI] - 1 < cost.same
  }

  /** After native-first a single colour can pay the same-colour part, and only just. */
  ghost predicate OneExtension(pool: Dice, cost: DiceCost)
    requires |cost.specific| == OMNI
  {
    var r := Rest(pool, cost);
    exists c: nat :: c < OMNI && r[c] + r[OMNI] <= cost.same && forall d: nat :: d < OMNI && d != c ==> r[d] + r[OMNI] < cost.same
  }

  /** A same-colour part twice as large could be paid, and that many dice are left over. */
  ghost predicate Doubles(pool: Dice, cost: DiceCost)
    requires |cost.specific| == OMNI
  {
    var r := Rest(pool, cost);
    Slack(pool, cost) >= cost.same && exists c: nat :: c < OMNI && r[c] + r[OMNI] >= 2 * cost.same
  }

  /** The code's payments are exactly the valid ones. */
  ghost predicate Right(pool: Dice, cost: DiceCost)
    requires Clamped(cost)
  {
    forall pay: Dice :: Returned(pool, cost, pay) <==> Valid(pool, cost, pay)
  }

  function PrefixList(pool: Dice, cost: DiceCost): seq<Dice>
    requires Clamped(cost)
  {
    Prefixes(pool, cost.specific, OMNI)
  }

  /** The extensions of the first prefix: what phase 2 writes first. */
  function Firsts(pool: Dice, cost: DiceCost): seq<Dice>
    requires Clamped(cost)
  {
    SameOuts(pool, Greedy(pool, cost.specific), cost.same, OMNI)
  }

  // ---- Extensions ----

  /** A prefix has an extension iff some colour can pay the same-colour part from what it leaves. */
  lemma ExtendsIff(pool: Dice, q: Dice, k: nat)
    requires ValidPool(pool) && Within(q, pool)
    ensures SameOuts(pool, q, k, OMNI) != [] <==> exists c: nat :: c < OMNI && pool[c] - q[c] + pool[OMNI] - q[OMNI] >= k
  {
    var outs := SameOuts(pool, q, k, OMNI);
    if outs != [] {
      var p := outs[0];
      assert p in outs;
      FromPrefixMember(pool, q, k, p);
      var c: nat :| c < OMNI && FromColour(pool, q, c, k, p);
      var u: nat :| u <= k && SplitBy(pool, q, c, k, u, p);
      assert p[c] == q[c] + k - u && p[OMNI] == q[OMNI] + u;
    }
    if c: nat :| c < OMNI && pool[c] - q[c] + pool[OMNI] - q[OMNI] >= k {
      var p := ColourPays(pool, q, c, k);
      assert FromPrefix(pool, q, k, p);
      FromPrefixMember(pool, q, k, p);
    }
  }

  lemma ColourPays(pool: Dice, q: Dice, c: nat, k: nat) returns (p: Dice)
    requires Within(q, pool) && c < OMNI && pool[c] - q[c] + pool[OMNI] - q[OMNI] >= k
    ensures FromColour(pool, q, c, k, p)
  {
    var native := Min(k, pool[c] - q[c]);
    p := Plus(q, SameOf(k, c, k - native));
    assert SplitBy(pool, q, c, k, k - native, p);
  }

  lemma ExtensionFits(pool: Dice, q: Dice, k: nat, p: Dice)
    requires ValidPool(pool) && Within(q, pool) && p in SameOuts(pool, q, k, OMNI)
    ensures Within(p, pool) && Sum(p, COLORS) == Sum(q, COLORS) + k && forall i :: 0 <= i < COLORS ==> q[i] <= p[i]
  {
    FromPrefixMember(pool, q, k, p);
    var c: nat :| c < OMNI && FromColour(pool, q, c, k, p);
    ColourSum(pool, q, c, k, p);
    var u: nat :| u <= k && SplitBy(pool, q, c, k, u, p);
    assert forall i :: 0 <= i < COLORS ==> p[i] == q[i] + SameOf(k, c, u)[i];
  }

  /** Facts about native-first and its place at the head of the prefixes. */
  lemma GreedyFirst(pool: Dice, cost: DiceCost)
    requires Clamped(cost) && ValidPool(pool) && Affordable(pool, cost)
    ensures PaysSpecific(cost.specific, OMNI, Greedy(pool, cost.specific)) && Within(Greedy(pool, cost.specific), pool)
    ensures Sum(Greedy(pool, cost.specific), COLORS) == Sum(cost.specific, OMNI)
    ensures PrefixList(pool, cost) != [] && PrefixList(pool, cost)[0] == Greedy(pool, cost.specific)
  {
    GreedyPays(pool, cost.specific);
    FirstPrefix(pool, cost.specific, OMNI);
    assert GreedyUpTo(pool, cost.specific, OMNI) == Greedy(pool, cost.specific);
  }

  lemma PrefixesFit(pool: Dice, cost: DiceCost)
    requires Clamped(cost) && ValidPool(pool)
    ensures forall i :: 0 <= i < |PrefixList(pool, cost)| ==>
      Within(PrefixList(pool, cost)[i], pool) && Sum(PrefixList(pool, cost)[i], COLORS) == Sum(cost.specific, OMNI)
  {
    var list := PrefixList(pool, cost);
    forall i | 0 <= i < |list| ensures Within(list[i], pool) && Sum(list[i], COLORS) == Sum(cost.specific, OMNI) {
      assert list[i] in list;
      PrefixFacts(pool, cost, list[i]);
    }
  }

  // ---- Soundness ----

  /** The reads of phase 2 that find their prefix overwritten: the i-th read returns output i. */
  ghost predicate Overwritten(pool: Dice, prefixes: seq<Dice>, k: nat, i: nat) {
    i < |prefixes| && i < |Written(pool, prefixes, k, i)|
  }

  lemma {:induction false} WrittenPrefix(pool: Dice, prefixes: seq<Dice>, k: nat, m: nat, n: nat)
    requires m <= n <= |prefixes|
    ensures Written(pool, prefixes, k, m) <= Written(pool, prefixes, k, n)
  {
    hide SameOuts;
    if m < n { WrittenPrefix(pool, prefixes, k, m, n - 1); }
  }

  /** Extensions of an overwritten prefix are in the output, with a second same-colour part. */
  lemma SecondPart(pool: Dice, prefixes: seq<Dice>, k: nat, base: int, i: nat, p: Dice)
    requires ValidPool(pool) && Overwritten(pool, prefixes, k, i) && p in SameOuts(pool, Written(pool, prefixes, k, i)[i], k, OMNI)
    requires forall j :: 0 <= j < |prefixes| ==> Within(prefixes[j], pool) && Sum(prefixes[j], COLORS) == base
    ensures p in Written(pool, prefixes, k, |prefixes|) && Within(p, pool) && Sum(p, COLORS) >= base + 2 * k
  {
    hide SameOuts, Sum, Within;
    var out := Written(pool, prefixes, k, i);
    WrittenPrefix(pool, prefixes, k, i + 1, |prefixes|);
    var next := Written(pool, prefixes, k, i + 1);
    assert next == out + SameOuts(pool, out[i], k, OMNI);
    var outs := SameOuts(pool, out[i], k, OMNI);
    var j :| 0 <= j < |outs| && outs[j] == p;
    assert next[|out| + j] == p;
    assert Written(pool, prefixes, k, |prefixes|)[|out| + j] == p;
    WrittenHolds(pool, prefixes, k, base, i);
    WrittenFits(pool, prefixes, k, i);
    assert out[i] in out;
    ExtensionFits(pool, out[i], k, p);
  }

  /** An entry of phase 2 that leaves enough dice is completed by phase 3. */
  lemma Completed(pool: Dice, cost: DiceCost, p: Dice) returns (pay: Dice)
    requires Clamped(cost) && ValidPool(pool) && p in AfterSame(pool, cost) && Within(p, pool)
    requires Sum(p, COLORS) + cost.any <= Sum(pool, COLORS)
    ensures Returned(pool, cost, pay) && Sum(pay, COLORS) == Sum(p, COLORS) + cost.any
  {
    hide AfterSame;
    var rest := Minus(pool, p);
    SumMinus(pool, p, COLORS);
    var a := DrawSome(rest, cost.any, COLORS);
    pay := Plus(p, a);
    SumPlus(p, a, COLORS);
    assert Minus(pay, p) == a;
    var i :| 0 <= i < |AfterSame(pool, cost)| && AfterSame(pool, cost)[i] == p;
    assert Completes(pool, AfterSame(pool, cost)[i], cost.any, pay);
  }

  /** What a payment through the overwritten read i costs. */
  ghost function CostThrough(pool: Dice, cost: DiceCost, i: nat): int
    requires Clamped(cost) && Overwritten(pool, PrefixList(pool, cost), cost.same, i)
  {
    Sum(Written(pool, PrefixList(pool, cost), cost.same, i)[i], COLORS) + cost.same + cost.any
  }

  /** Read i is overwritten, its entry has an extension, and the pool can pay for that. */
  ghost predicate Harmful(pool: Dice, cost: DiceCost, i: nat)
    requires Clamped(cost)
  {
    && Overwritten(pool, PrefixList(pool, cost), cost.same, i)
    && SameOuts(pool, Written(pool, PrefixList(pool, cost), cost.same, i)[i], cost.same, OMNI) != []
    && CostThrough(pool, cost, i) <= Sum(pool, COLORS)
  }

  /** A harmful read makes the code return a payment that costs too much. */
  lemma Overpays(pool: Dice, cost: DiceCost, i: nat) returns (pay: Dice)
    requires Clamped(cost) && ValidPool(pool) && cost.same > 0 && Harmful(pool, cost, i)
    ensures Returned(pool, cost, pay) && !Valid(pool, cost, pay)
  {
    hide Written, SameOuts, Returned, Valid, Prefixes, Sum, Within;
    var list, k := PrefixList(pool, cost), cost.same;
    var outs := SameOuts(pool, Written(pool, list, k, i)[i], k, OMNI);
    var p := outs[0];
    assert p in outs;
    PrefixesFit(pool, cost);
    SecondPart(pool, list, k, Sum(cost.specific, OMNI), i, p);
    WrittenFits(pool, list, k, i);
    assert Written(pool, list, k, i)[i] in Written(pool, list, k, i);
    ExtensionFits(pool, Written(pool, list, k, i)[i], k, p);
    pay := Completed(pool, cost, p);
    if Valid(pool, cost, pay) { ValidTotal(pool, cost, pay); }
  }

  /** Where an output comes from: a prefix, or an overwritten read of the entry it extends. */
  lemma {:induction false} Origin(pool: Dice, prefixes: seq<Dice>, k: nat, n: nat, p: Dice)
    requires n <= |prefixes| && p in Written(pool, prefixes, k, n)
    ensures || (exists i: nat :: i < n && p in SameOuts(pool, prefixes[i], k, OMNI))
            || (exists i: nat :: i < n && Overwritten(pool, prefixes, k, i) && p in SameOuts(pool, Written(pool, prefixes, k, i)[i], k, OMNI))
  {
    hide SameOuts;
    var out := Written(pool, prefixes, k, n - 1);
    if p in out { Origin(pool, prefixes, k, n - 1, p); }
    else { assert |out| > n - 1 ==> Overwritten(pool, prefixes, k, n - 1); }
  }

  /** The code returns only valid payments iff no read is harmful, for every cost with a same-colour part. */
  lemma SoundIff(pool: Dice, cost: DiceCost)
    requires Clamped(cost) && ValidPool(pool) && cost.same > 0
    ensures (forall pay: Dice :: Returned(pool, cost, pay) ==> Valid(pool, cost, pay)) <==> forall i: nat :: !Harmful(pool, cost, i)
  {
    hide Returned, Valid, Harmful;
    if i: nat :| Harmful(pool, cost, i) { var pay := Overpays(pool, cost, i); }
    if forall i: nat :: !Harmful(pool, cost, i) {
      forall pay: Dice | Returned(pool, cost, pay) ensures Valid(pool, cost, pay) { HarmlessIsValid(pool, cost, pay); }
    }
  }

  lemma HarmlessIsValid(pool: Dice, cost: DiceCost, pay: Dice)
    requires Clamped(cost) && ValidPool(pool) && cost.same > 0 && Returned(pool, cost, pay)
    requires forall i: nat :: !Harmful(pool, cost, i)
    ensures Valid(pool, cost, pay)
  {
    hide Written, SameOuts, Valid, Prefixes, Sum, Completes, Within, Fresh;
    var list, k := PrefixList(pool, cost), cost.same;
    var j :| 0 <= j < |AfterSame(pool, cost)| && Completes(pool, AfterSame(pool, cost)[j], cost.any, pay);
    var p := AfterSame(pool, cost)[j];
    assert p in Written(pool, list, k, |list|);
    CompletionSum(pool, p, cost.any, pay);
    PrefixesFit(pool, cost);
    Origin(pool, list, k, |list|, p);
    forall i: nat | i < |list| && Overwritten(pool, list, k, i) ensures p !in SameOuts(pool, Written(pool, list, k, i)[i], k, OMNI) {
      assert !Harmful(pool, cost, i);
      WrittenFits(pool, list, k, i);
      assert Written(pool, list, k, i)[i] in Written(pool, list, k, i);
      if p in SameOuts(pool, Written(pool, list, k, i)[i], k, OMNI) { ExtensionFits(pool, Written(pool, list, k, i)[i], k, p); }
    }
    var i: nat :| i < |list| && p in SameOuts(pool, list[i], k, OMNI);
    FromPrefixMember(pool, list[i], k, p);
    FreshMember(pool, list, k, |list|, p);
    CompletionIsValid(pool, cost, p, pay);
  }

  // ---- Completeness ----

  /** Any payment of the elements that saves a native die of colour c compared with native-first spends
      one die more on every other colour and omni together. */
  lemma SavingCosts(pool: Dice, need: seq<int>, s: Dice, c: nat, d: nat)
    requires |need| == OMNI && c < OMNI && d < OMNI && c != d && PaysSpecific(need, OMNI, s) && s[c] < Greedy(pool, need)[c]
    requires forall i :: 0 <= i < OMNI ==> s[i] <= pool[i]
    ensures s[d] + s[OMNI] >= Greedy(pool, need)[d] + Greedy(pool, need)[OMNI] + 1
  {
    var more: Dice := s[c := s[c] + 1];
    SumOneLess(more, s, c, OMNI);
    GreedyBest(pool, need, more, d, OMNI);
    hide Sum;
  }

  /** Where native-first is unavoidable, every valid payment contains it. */
  lemma ContainsGreedy(pool: Dice, cost: DiceCost, s: Dice, m: Dice, a: Dice)
    requires Clamped(cost) && ValidPool(pool) && cost.same > 0 && Parts(pool, cost, s, m, a) && Unavoidable(pool, cost)
    ensures Within(Greedy(pool, cost.specific), Plus(Plus(s, m), a))
  {
    var g, v := Greedy(pool, cost.specific), Plus(Plus(s, m), a);
    var e: nat, u: nat :| e < OMNI && u <= cost.same && m == SameOf(cost.same, e, u);
    assert forall i :: 0 <= i < COLORS ==> v[i] == s[i] + m[i] + a[i] && a[i] >= 0 && m[i] >= 0;
    SpentNonNegative(cost.specific, OMNI, s);
    GreedyBest(pool, cost.specific, s, 0, OMNI);
    GreedySigns(pool, cost);
    hide Sum, Unavoidable, PaysSpecific, PaysAny;
    forall c: nat | c < OMNI ensures g[c] <= v[c] {
      if v[c] < g[c] { Avoids(pool, cost, s, m, a, e, u, c); }
    }
  }

  lemma GreedySigns(pool: Dice, cost: DiceCost)
    requires Clamped(cost) && ValidPool(pool)
    ensures forall i :: 0 <= i < COLORS ==> Greedy(pool, cost.specific)[i] >= 0
  {
    ShortfallMonotone(pool, cost.specific, OMNI, OMNI);
  }

  lemma {:induction false} OneShort(v: Dice, pool: Dice, c: nat, n: nat)
    requires c < n <= COLORS && forall i :: 0 <= i < n ==> v[i] <= pool[i]
    ensures Sum(pool, n) - Sum(v, n) >= pool[c] - v[c]
  {
    if n == c + 1 { SumMonotone(v, pool, c); } else { OneShort(v, pool, c, n - 1); }
  }

  lemma Avoids(pool: Dice, cost: DiceCost, s: Dice, m: Dice, a: Dice, e: nat, u: nat, c: nat)
    requires Clamped(cost) && ValidPool(pool) && cost.same > 0 && Parts(pool, cost, s, m, a)
    requires e < OMNI && u <= cost.same && m == SameOf(cost.same, e, u) && c < OMNI
    requires Plus(Plus(s, m), a)[c] < Greedy(pool, cost.specific)[c]
    ensures !Unavoidable(pool, cost)
  {
    hide Sum, Greedy;
    var g, v, k := Greedy(pool, cost.specific), Plus(Plus(s, m), a), cost.same;
    assert forall i :: 0 <= i < COLORS ==> v[i] == s[i] + m[i] + a[i] && 0 <= m[i] && 0 <= a[i];
    SpentNonNegative(cost.specific, OMNI, s);
    assert Valid(pool, cost, v);
    ValidTotal(pool, cost, v);
    OneShort(v, pool, c, COLORS);
    var d: nat := if e != c then e else if c == 0 then 1 else 0;
    if e != c {
      SavingCosts(pool, cost.specific, s, c, d);
    } else {
      AllOmni(pool, cost.specific, s, c, d, k, u);
    }
    hide PaysSpecific;
    var r := Rest(pool, cost);
    assert r[d] + r[OMNI] - 1 >= k && Slack(pool, cost) > r[c];
  }

  /** The same when the same-colour part uses colour c: its native dice can be counted to the elements. */
  lemma AllOmni(pool: Dice, need: seq<int>, s: Dice, c: nat, d: nat, k: nat, u: nat)
    requires |need| == OMNI && c < OMNI && d < OMNI && c != d && u <= k && PaysSpecific(need, OMNI, s)
    requires s[c] + k - u < Greedy(pool, need)[c] && forall i :: 0 <= i < OMNI ==> s[i] <= pool[i]
    ensures s[d] + s[OMNI] - (k - u) >= Greedy(pool, need)[d] + Greedy(pool, need)[OMNI] + 1
  {
    var t: Dice := s[c := s[c] + k - u][OMNI := s[OMNI] - (k - u)];
    SumRaised(s, t, c, k - u, OMNI);
    assert PaysSpecific(need, OMNI, t);
    hide PaysSpecific, Sum;
    SavingCosts(pool, need, t, c, d);
  }

  lemma {:induction false} SumRaised(a: Dice, b: Dice, c: nat, x: int, n: nat)
    requires c < n <= OMNI && b[c] == a[c] + x && forall i :: 0 <= i < n && i != c ==> a[i] == b[i]
    ensures Sum(b, n) == Sum(a, n) + x
  {
    if n == c + 1 { SumSame(a, b, c); } else { SumRaised(a, b, c, x, n - 1); }
  }

  /** Where native-first is unavoidable, the code returns every valid payment, whatever it overwrites. */
  lemma UnavoidableIsComplete(pool: Dice, cost: DiceCost, pay: Dice)
    requires Clamped(cost) && ValidPool(pool) && cost.same > 0 && Unavoidable(pool, cost) && Valid(pool, cost, pay)
    ensures Returned(pool, cost, pay)
  {
    var g, k, list := Greedy(pool, cost.specific), cost.same, PrefixList(pool, cost);
    var s: Dice, m: Dice, a: Dice :| Parts(pool, cost, s, m, a) && pay == Plus(Plus(s, m), a);
    PaymentIsAffordable(pool, cost, pay);
    ContainsGreedy(pool, cost, s, m, a);
    ValidTotal(pool, cost, pay);
    GreedyFirst(pool, cost);
    var e := SameColourLeft(pool, cost, s, m, a);
    hide Unavoidable, Valid, Affordable, Parts, PaysSpecific, Sum, Prefixes;
    var p := ColourPays(pay, g, e, k);
    PayWithinPool(pool, g, e, k, pay, p);
    FromPrefixMember(pool, g, k, p);
    WrittenGrows(pool, list, k, |list|);
    PrefixIn(SameOuts(pool, g, k, OMNI), Written(pool, list, k, |list|), p);
    hide SameOuts, Written;
    assert p in AfterSame(pool, cost);
    CompletedBy(pool, cost, p, pay);
  }

  lemma PrefixIn(a: seq<Dice>, b: seq<Dice>, p: Dice)
    requires a <= b && p in a
    ensures p in b
  {
    var j :| 0 <= j < |a| && a[j] == p;
    assert b[j] == p;
  }

  /** In what a valid payment adds to native-first, one colour and omni still hold the same-colour part. */
  lemma SameColourLeft(pool: Dice, cost: DiceCost, s: Dice, m: Dice, a: Dice) returns (e: nat)
    requires Clamped(cost) && ValidPool(pool) && cost.same > 0 && Parts(pool, cost, s, m, a)
    ensures var g, v := Greedy(pool, cost.specific), Plus(Plus(s, m), a);
      e < OMNI && v[e] - g[e] + v[OMNI] - g[OMNI] >= cost.same
  {
    var u: nat;
    e, u :| e < OMNI && u <= cost.same && m == SameOf(cost.same, e, u);
    var v := Plus(Plus(s, m), a);
    assert forall i :: 0 <= i < COLORS ==> v[i] == s[i] + m[i] + a[i] && a[i] >= 0 && m[i] >= 0;
    SpentNonNegative(cost.specific, OMNI, s);
    GreedyBest(pool, cost.specific, s, e, OMNI);
    hide Sum;
  }

  lemma PayWithinPool(pool: Dice, g: Dice, e: nat, k: nat, pay: Dice, p: Dice)
    requires ValidPool(pool) && Within(pay, pool) && Within(g, pay) && e < OMNI && FromColour(pay, g, e, k, p)
    ensures FromPrefix(pool, g, k, p) && Within(p, pay) && Within(p, pool) && Within(g, pool) && Sum(p, COLORS) == Sum(g, COLORS) + k
  {
    ColourSum(pay, g, e, k, p);
    var u: nat :| u <= k && SplitBy(pay, g, e, k, u, p);
    assert SplitBy(pool, g, e, k, u, p);
    assert FromColour(pool, g, e, k, p);
  }

  lemma CompletedBy(pool: Dice, cost: DiceCost, p: Dice, pay: Dice)
    requires Clamped(cost) && p in AfterSame(pool, cost) && Within(p, pay) && Within(pay, pool)
    requires Sum(pay, COLORS) == Sum(p, COLORS) + cost.any
    ensures Returned(pool, cost, pay)
  {
    hide AfterSame;
    SumMinus(pay, p, COLORS);
    hide Sum;
    var i :| 0 <= i < |AfterSame(pool, cost)| && AfterSame(pool, cost)[i] == p;
    assert Completes(pool, AfterSame(pool, cost)[i], cost.any, pay);
  }

  /** Native-first with one native die exchanged for omni. */
  lemma SaveOne(pool: Dice, need: seq<int>, g: Dice, c: nat) returns (s: Dice)
    requires |need| == OMNI && PaysSpecific(need, OMNI, g) && c < OMNI && g[c] > 0
    ensures s == g[c := g[c] - 1][OMNI := g[OMNI] + 1] && PaysSpecific(need, OMNI, s)
  {
    s := g[c := g[c] - 1][OMNI := g[OMNI] + 1];
    SumOneLess(g, s, c, OMNI);
    hide Sum;
  }

  lemma SavedFits(pool: Dice, g: Dice, s: Dice, c: nat, d: nat, k: nat) returns (u: nat)
    requires ValidPool(pool) && Within(g, pool) && c < OMNI && d < OMNI && c != d && g[c] > 0
    requires s == g[c := g[c] - 1][OMNI := g[OMNI] + 1] && pool[OMNI] > g[OMNI]
    requires pool[d] - g[d] + pool[OMNI] - g[OMNI] - 1 >= k
    ensures u <= k && Within(Plus(s, SameOf(k, d, u)), pool)
  {
    u := k - Min(k, pool[d] - g[d]);
  }

  /** A payment that goes without a native die native-first spends. */
  lemma Avoiding(pool: Dice, cost: DiceCost) returns (pay: Dice, c: nat)
    requires Clamped(cost) && ValidPool(pool) && cost.same > 0 && Affordable(pool, cost)
    requires !NoChoice(pool, cost) && !Unavoidable(pool, cost)
    ensures Valid(pool, cost, pay) && c < OMNI && pay[c] < Greedy(pool, cost.specific)[c]
  {
    var g, r, k := Greedy(pool, cost.specific), Rest(pool, cost), cost.same;
    var d: nat;
    c, d := Avoidable(pool, cost);
    GreedyFirst(pool, cost);
    ChoiceHasPrefixes(pool, cost);
    assert r[c] == pool[c] - g[c] && r[d] == pool[d] - g[d] && r[OMNI] == pool[OMNI] - g[OMNI];
    hide Unavoidable, NoChoice, Affordable, Prefixes, PaysSpecific, Valid, Sum, Greedy;
    var s := SaveOne(pool, cost.specific, g, c);
    var u := SavedFits(pool, g, s, c, d, k);
    pay := AvoidingPay(pool, cost, c, d, s, SameOf(k, d, u));
  }

  lemma Avoidable(pool: Dice, cost: DiceCost) returns (c: nat, d: nat)
    requires Clamped(cost) && !Unavoidable(pool, cost)
    ensures c < OMNI && d < OMNI && c != d && Greedy(pool, cost.specific)[c] > 0
    ensures Slack(pool, cost) > Rest(pool, cost)[c] && Rest(pool, cost)[d] + Rest(pool, cost)[OMNI] - 1 >= cost.same
  {
    var r, k := Rest(pool, cost), cost.same;
    hide Rest, Slack;
    c :| c < OMNI && Greedy(pool, cost.specific)[c] > 0 && Slack(pool, cost) > r[c]
         && exists d: nat :: d < OMNI && d != c && r[d] + r[OMNI] - 1 >= k;
    d :| d < OMNI && d != c && r[d] + r[OMNI] - 1 >= k;
  }

  lemma AvoidingPay(pool: Dice, cost: DiceCost, c: nat, d: nat, s: Dice, m: Dice) returns (pay: Dice)
    requires Clamped(cost) && ValidPool(pool) && cost.same > 0 && c < OMNI && d < OMNI && d != c
    requires PaysSpecific(cost.specific, OMNI, s) && Within(Plus(s, m), pool)
    requires exists u: nat :: u <= cost.same && m == SameOf(cost.same, d, u)
    requires Sum(pool, COLORS) - TotalCost(cost) >= pool[c] - s[c]
    ensures Valid(pool, cost, pay) && pay[c] == s[c]
  {
    var u: nat :| u <= cost.same && m == SameOf(cost.same, d, u);
    var p := Plus(s, m);
    var rest := Minus(pool, p);
    var kept: Dice := rest[c := 0];
    SumMinus(pool, p, COLORS);
    SumPlus(s, m, COLORS);
    SameTotal(cost.same, m);
    SumZeroed(rest, kept, c, COLORS);
    var a := DrawSome(kept, cost.any, COLORS);
    pay := Plus(p, a);
    assert Parts(pool, cost, s, m, a);
  }

  lemma {:induction false} SumZeroed(a: Dice, b: Dice, c: nat, n: nat)
    requires c < n <= COLORS && b == a[c := 0]
    ensures Sum(b, n) == Sum(a, n) - a[c]
  {
    if n == c + 1 { SumSame(a, b, c); } else { SumZeroed(a, b, c, n - 1); }
  }

  // ---- Few prefixes: every one but the first is overwritten before it is read ----

  lemma {:induction false} OnlyFirst(pool: Dice, prefixes: seq<Dice>, k: nat, base: int, n: nat)
    requires 0 < n <= |prefixes| && ValidPool(pool) && |prefixes| <= |SameOuts(pool, prefixes[0], k, OMNI)|
    requires forall j :: 0 <= j < |prefixes| ==> Within(prefixes[j], pool) && Sum(prefixes[j], COLORS) == base
    ensures forall p :: p in Written(pool, prefixes, k, n) ==> p in SameOuts(pool, prefixes[0], k, OMNI) || Sum(p, COLORS) >= base + 2 * k
  {
    hide SameOuts, Sum, Within;
    var firsts := SameOuts(pool, prefixes[0], k, OMNI);
    if n == 1 {
      assert Written(pool, prefixes, k, 0) == [];
    } else {
      OnlyFirst(pool, prefixes, k, base, n - 1);
      WrittenGrows(pool, prefixes, k, n - 1);
      WrittenFits(pool, prefixes, k, n - 1);
      WrittenHolds(pool, prefixes, k, base, n - 1);
      var out := Written(pool, prefixes, k, n - 1);
      assert out[n - 1] in out;
      forall p | p in SameOuts(pool, out[n - 1], k, OMNI) ensures Sum(p, COLORS) >= base + 2 * k {
        ExtensionFits(pool, out[n - 1], k, p);
      }
    }
  }

  /** With few prefixes the code misses a valid payment as soon as native-first can be avoided. */
  lemma AvoidableIsMissed(pool: Dice, cost: DiceCost) returns (pay: Dice)
    requires Clamped(cost) && ValidPool(pool) && cost.same > 0 && Affordable(pool, cost)
    requires !NoChoice(pool, cost) && !Unavoidable(pool, cost) && |PrefixList(pool, cost)| <= |Firsts(pool, cost)|
    ensures Valid(pool, cost, pay) && !Returned(pool, cost, pay)
  {
    hide Unavoidable, NoChoice, Affordable, Written, SameOuts, Prefixes, Sum, Within, Completes, Valid;
    var g, k, list := Greedy(pool, cost.specific), cost.same, PrefixList(pool, cost);
    var c: nat;
    pay, c := Avoiding(pool, cost);
    ValidTotal(pool, cost, pay);
    GreedyFirst(pool, cost);
    PrefixesFit(pool, cost);
    OnlyFirst(pool, list, k, Sum(cost.specific, OMNI), |list|);
    forall i | 0 <= i < |AfterSame(pool, cost)| ensures !Completes(pool, AfterSame(pool, cost)[i], cost.any, pay) {
      var p := AfterSame(pool, cost)[i];
      assert p in Written(pool, list, k, |list|);
      if Completes(pool, p, cost.any, pay) {
        CompletionSum(pool, p, cost.any, pay);
        CompletionContains(pool, p, cost.any, pay, c);
        ExtensionFits(pool, g, k, p);
      }
    }
  }

  lemma CompletionContains(pool: Dice, p: Dice, n: int, pay: Dice, c: nat)
    requires Completes(pool, p, n, pay) && c < COLORS
    ensures p[c] <= pay[c]
  {
    assert Minus(pay, p)[c] >= 0;
  }

  /** With few prefixes, read i returns the i-th extension of the first prefix. */
  lemma ReadsFirsts(pool: Dice, cost: DiceCost, i: nat)
    requires Clamped(cost) && ValidPool(pool) && Affordable(pool, cost)
    requires 0 < i < |PrefixList(pool, cost)| && i < |Firsts(pool, cost)|
    ensures Overwritten(pool, PrefixList(pool, cost), cost.same, i)
    ensures Written(pool, PrefixList(pool, cost), cost.same, i)[i] == Firsts(pool, cost)[i]
    ensures Firsts(pool, cost)[i] in Firsts(pool, cost) && Within(Firsts(pool, cost)[i], pool)
    ensures Sum(Firsts(pool, cost)[i], COLORS) == Sum(cost.specific, OMNI) + cost.same
  {
    hide Affordable, Written, SameOuts, Prefixes, Sum, Within;
    GreedyFirst(pool, cost);
    WrittenGrows(pool, PrefixList(pool, cost), cost.same, i);
    ExtensionFits(pool, Greedy(pool, cost.specific), cost.same, Firsts(pool, cost)[i]);
  }

  /** Extensions of the first prefix that phase 2 reads as prefixes and can extend once more. */
  ghost predicate Extendable(pool: Dice, cost: DiceCost, i: nat)
    requires Clamped(cost)
  {
    0 < i < |PrefixList(pool, cost)| && i < |Firsts(pool, cost)| && SameOuts(pool, Firsts(pool, cost)[i], cost.same, OMNI) != []
  }

  lemma ExtendableIsHarmful(pool: Dice, cost: DiceCost, i: nat)
    requires Clamped(cost) && ValidPool(pool) && cost.same > 0 && Affordable(pool, cost) && Extendable(pool, cost, i)
    requires Slack(pool, cost) >= cost.same
    ensures Harmful(pool, cost, i)
  {
    hide Affordable, Written, SameOuts, Prefixes, Within;
    ReadsFirsts(pool, cost, i);
  }

  /** With few prefixes none of which reads something extendable, only the first prefix is extended. */
  lemma {:induction false} NothingAdded(pool: Dice, cost: DiceCost, n: nat)
    requires Clamped(cost) && ValidPool(pool) && Affordable(pool, cost) && 0 < n <= |PrefixList(pool, cost)| <= |Firsts(pool, cost)|
    requires forall i: nat :: !Extendable(pool, cost, i)
    ensures Written(pool, PrefixList(pool, cost), cost.same, n) == Firsts(pool, cost)
  {
    hide Affordable, SameOuts, Prefixes, Within, Sum;
    GreedyFirst(pool, cost);
    if n == 1 {
      assert Written(pool, PrefixList(pool, cost), cost.same, 0) == [];
    } else {
      NothingAdded(pool, cost, n - 1);
      assert !Extendable(pool, cost, n - 1);
    }
  }

  lemma NoReadIsHarmful(pool: Dice, cost: DiceCost)
    requires Clamped(cost) && ValidPool(pool) && cost.same > 0 && Affordable(pool, cost)
    requires |PrefixList(pool, cost)| <= |Firsts(pool, cost)| && forall i: nat :: !Extendable(pool, cost, i)
    ensures forall i: nat :: !Harmful(pool, cost, i)
  {
    hide Affordable, SameOuts, Prefixes, Within, Sum;
    forall i: nat ensures !Harmful(pool, cost, i) {
      if 0 < i < |PrefixList(pool, cost)| {
        ReadsFirsts(pool, cost, i);
        assert !Extendable(pool, cost, i);
      } else {
        assert i == 0 ==> Written(pool, PrefixList(pool, cost), cost.same, i) == [];
      }
    }
  }

  /** An affordable cost with a same-colour part and no more prefixes than the first one has extensions:
      the code is right iff there is no choice, or no payment avoids native-first and no overwritten read
      can be extended and paid for. */
  lemma RightIff(pool: Dice, cost: DiceCost)
    requires Clamped(cost) && ValidPool(pool) && cost.same > 0 && Affordable(pool, cost)
    requires |PrefixList(pool, cost)| <= |Firsts(pool, cost)|
    ensures Right(pool, cost) <==>
      || NoChoice(pool, cost)
      || (Unavoidable(pool, cost) && (Slack(pool, cost) < cost.same || forall i: nat :: !Extendable(pool, cost, i)))
  {
    hide Affordable, Unavoidable, NoChoice, Extendable, Returned, Valid, Prefixes, SameOuts;
    if NoChoice(pool, cost) {
      forall pay: Dice { ReturnedIsValid(pool, cost, pay); }
    } else if !Unavoidable(pool, cost) {
      var pay := AvoidableIsMissed(pool, cost);
    } else {
      forall pay: Dice | Valid(pool, cost, pay) ensures Returned(pool, cost, pay) { UnavoidableIsComplete(pool, cost, pay); }
      if Slack(pool, cost) < cost.same {
        forall pay: Dice | Returned(pool, cost, pay) ensures Valid(pool, cost, pay) { LittleSlackIsSound(pool, cost, pay); }
      } else if i: nat :| Extendable(pool, cost, i) {
        ExtendableIsHarmful(pool, cost, i);
        var pay := Overpays(pool, cost, i);
      } else {
        NoReadIsHarmful(pool, cost);
        SoundIff(pool, cost);
      }
    }
  }

  // ---- Any number of prefixes ----

  /** Native-first can pay the elements and leave a choice: then there are two prefixes or more. */
  lemma ChoiceHasPrefixes(pool: Dice, cost: DiceCost)
    requires Clamped(cost) && ValidPool(pool) && !NoChoice(pool, cost)
    ensures |PrefixList(pool, cost)| >= 2 && Rest(pool, cost)[OMNI] >= 1
  {
    SinglePrefix(pool, cost);
  }

  lemma SplitsPart(pool: Dice, q: Dice, k: nat, c: nat, n: nat)
    requires c < n <= OMNI && Splits(pool, q, c, k, k + 1) != []
    ensures |SameOuts(pool, q, k, n)| > |SameOuts(pool, q, k, c)|
  {
    hide Splits;
    SameOutsGrows(pool, q, k, c + 1, n);
  }

  /** A same-colour part that could be doubled has two extensions at least. */
  lemma DoublesHasTwo(pool: Dice, cost: DiceCost)
    requires Clamped(cost) && ValidPool(pool) && cost.same > 0 && Affordable(pool, cost) && !NoChoice(pool, cost) && Doubles(pool, cost)
    ensures |Firsts(pool, cost)| >= 2
  {
    var g, r, k := Greedy(pool, cost.specific), Rest(pool, cost), cost.same;
    var c: nat :| c < OMNI && r[c] + r[OMNI] >= 2 * k;
    GreedyFirst(pool, cost);
    ChoiceHasPrefixes(pool, cost);
    hide Prefixes, SameOuts, Affordable, NoChoice, Sum;
    if r[c] >= k {
      TwoSplits(pool, g, c, k);
    } else {
      var p := ColourPays(pool, g, 0, k);
      SplitsAll(pool, g, 0, k, p);
      var q := ColourPays(pool, g, 1, k);
      SplitsAll(pool, g, 1, k, q);
      SplitsPart(pool, g, k, 0, 1);
      SplitsPart(pool, g, k, 1, OMNI);
    }
  }

  lemma TwoSplits(pool: Dice, g: Dice, c: nat, k: nat)
    requires ValidPool(pool) && Within(g, pool) && c < OMNI && k > 0 && pool[c] - g[c] >= k && pool[OMNI] - g[OMNI] >= 1
    ensures |SameOuts(pool, g, k, OMNI)| >= 2
  {
    var p, q := Plus(g, SameOf(k, c, 0)), Plus(g, SameOf(k, c, 1));
    assert SplitBy(pool, g, c, k, 0, p) && SplitBy(pool, g, c, k, 1, q);
    assert FromColour(pool, g, c, k, p) && FromColour(pool, g, c, k, q);
    assert p[OMNI] != q[OMNI];
    SameOutsMember(pool, g, k, OMNI, p);
    SameOutsMember(pool, g, k, OMNI, q);
  }

  /** Then the second extension, which phase 2 reads as a prefix, can be extended. */
  lemma DoublesExtends(pool: Dice, cost: DiceCost)
    requires Clamped(cost) && ValidPool(pool) && cost.same > 0 && Affordable(pool, cost) && !NoChoice(pool, cost) && Doubles(pool, cost)
    ensures Extendable(pool, cost, 1)
  {
    hide PrefixList, Prefixes, SameOuts, Affordable, NoChoice, Sum, PaysSpecific, Greedy;
    var g, r, k := Greedy(pool, cost.specific), Rest(pool, cost), cost.same;
    DoublesHasTwo(pool, cost);
    ChoiceHasPrefixes(pool, cost);
    ReadsFirsts(pool, cost, 1);
    GreedyFirst(pool, cost);
    var c: nat :| c < OMNI && r[c] + r[OMNI] >= 2 * k;
    var q := Firsts(pool, cost)[1];
    FromPrefixMember(pool, g, k, q);
    var d: nat :| d < OMNI && FromColour(pool, g, d, k, q);
    var u: nat :| u <= k && SplitBy(pool, g, d, k, u, q);
    assert q[c] + q[OMNI] <= g[c] + g[OMNI] + k;
    ExtendsIff(pool, q, k);
  }

  /** When there is a choice and a second same-colour part fits, the code returns a payment that costs
      too much, however many prefixes there are. */
  lemma DoublesOverpays(pool: Dice, cost: DiceCost) returns (pay: Dice)
    requires Clamped(cost) && ValidPool(pool) && cost.same > 0 && Affordable(pool, cost) && !NoChoice(pool, cost) && Doubles(pool, cost)
    ensures Returned(pool, cost, pay) && !Valid(pool, cost, pay)
  {
    DoublesExtends(pool, cost);
    hide Affordable, NoChoice, Returned, Valid, Extendable, Harmful;
    ExtendableIsHarmful(pool, cost, 1);
    pay := Overpays(pool, cost, 1);
  }

  /** A same-colour part of one die: the code is right iff there is no choice or nothing is left over. */
  lemma SameOneIff(pool: Dice, cost: DiceCost)
    requires Clamped(cost) && ValidPool(pool) && cost.same == 1 && Affordable(pool, cost)
    ensures Right(pool, cost) <==> NoChoice(pool, cost) || Sum(pool, COLORS) == TotalCost(cost)
  {
    hide Returned, Valid;
    if NoChoice(pool, cost) {
      forall pay: Dice { ReturnedIsValid(pool, cost, pay); }
    } else if Sum(pool, COLORS) == TotalCost(cost) {
      forall pay: Dice { TightIsExact(pool, cost, pay); }
    } else {
      LeftOverDoubles(pool, cost);
      var pay := DoublesOverpays(pool, cost);
    }
  }

  lemma LeftOverDoubles(pool: Dice, cost: DiceCost)
    requires Clamped(cost) && ValidPool(pool) && cost.same == 1 && Affordable(pool, cost) && !NoChoice(pool, cost)
    requires Sum(pool, COLORS) != TotalCost(cost)
    ensures Doubles(pool, cost)
  {
    var g, r := Greedy(pool, cost.specific), Rest(pool, cost);
    GreedyFirst(pool, cost);
    ChoiceHasPrefixes(pool, cost);
    SumMinus(pool, g, COLORS);
    hide Prefixes;
    if r[OMNI] == 1 {
      if forall c :: 0 <= c < OMNI ==> r[c] <= 0 { SumMonotone(r, ZERO, OMNI); SumZero(ZERO, OMNI); }
      var c: nat :| c < OMNI && r[c] > 0;
    } else {
      assert r[0] >= 0;
    }
  }

  /** Omni enough left for the whole same-colour part, that many dice left over, and few prefixes: the code
      is right iff there is no choice. */
  lemma AmpleOmniIff(pool: Dice, cost: DiceCost)
    requires Clamped(cost) && ValidPool(pool) && cost.same > 0 && Affordable(pool, cost)
    requires Rest(pool, cost)[OMNI] >= cost.same && Slack(pool, cost) >= cost.same
    requires |PrefixList(pool, cost)| <= |Firsts(pool, cost)|
    ensures Right(pool, cost) <==> NoChoice(pool, cost)
  {
    RightIff(pool, cost);
    if !NoChoice(pool, cost) && Unavoidable(pool, cost) {
      AmpleDoubles(pool, cost);
      DoublesExtends(pool, cost);
    }
    hide Unavoidable, NoChoice, Extendable, Right, Prefixes, SameOuts;
  }

  lemma AmpleDoubles(pool: Dice, cost: DiceCost)
    requires Clamped(cost) && ValidPool(pool) && cost.same > 0 && Affordable(pool, cost) && !NoChoice(pool, cost) && Unavoidable(pool, cost)
    requires Rest(pool, cost)[OMNI] >= cost.same && Slack(pool, cost) >= cost.same
    ensures Doubles(pool, cost)
  {
    var g, r, k := Greedy(pool, cost.specific), Rest(pool, cost), cost.same;
    GreedyFirst(pool, cost);
    SumMinus(pool, g, COLORS);
    hide Prefixes;
    var c: nat :| c < OMNI && g[c] > 0;
    if Slack(pool, cost) > r[c] {
      assert forall d: nat :: d < OMNI && d != c ==> r[d] + r[OMNI] - 1 < k;
      assert forall d: nat :: d < OMNI && d != c ==> r[d] == 0 && r[OMNI] == k;
      OnlyColour(r, c, OMNI);
    }
  }

  lemma {:induction false} OnlyColour(r: Dice, c: nat, n: nat)
    requires c < n <= OMNI && forall i :: 0 <= i < n && i != c ==> r[i] == 0
    ensures Sum(r, n) == r[c]
  {
    if n == c + 1 { SumZero(r, c); } else { OnlyColour(r, c, n - 1); }
  }

  // ---- A single extension ----

  /** At most one way to split when native and omni dice together only just suffice. */
  lemma {:induction false} SplitsFew(pool: Dice, q: Dice, c: nat, k: nat, n: nat)
    requires c < OMNI && pool[c] - q[c] + pool[OMNI] - q[OMNI] <= k
    ensures |Splits(pool, q, c, k, n)| <= if pool[c] - q[c] + pool[OMNI] - q[OMNI] == k && n > pool[OMNI] - q[OMNI] then 1 else 0
  {
    if n > 0 { SplitsFew(pool, q, c, k, n - 1); }
  }

  lemma {:induction false} SameOutsFew(pool: Dice, q: Dice, k: nat, c: nat, n: nat)
    requires n <= OMNI && c < OMNI && pool[c] - q[c] + pool[OMNI] - q[OMNI] <= k
    requires forall d: nat :: d < OMNI && d != c ==> pool[d] - q[d] + pool[OMNI] - q[OMNI] < k
    ensures |SameOuts(pool, q, k, n)| <= if c < n then 1 else 0
  {
    hide Splits;
    if n > 0 {
      SameOutsFew(pool, q, k, c, n - 1);
      SplitsFew(pool, q, n - 1, k, k + 1);
    }
  }

  /** Then no prefix has more than one extension. */
  lemma PrefixesExtendOnce(pool: Dice, cost: DiceCost, p: Dice)
    requires Clamped(cost) && ValidPool(pool) && OneExtension(pool, cost) && p in PrefixList(pool, cost)
    ensures |SameOuts(pool, p, cost.same, OMNI)| <= 1
  {
    var g, r, k := Greedy(pool, cost.specific), Rest(pool, cost), cost.same;
    var c: nat :| c < OMNI && r[c] + r[OMNI] <= k && forall d: nat :: d < OMNI && d != c ==> r[d] + r[OMNI] < k;
    PrefixesMember(pool, cost.specific, OMNI, p);
    SpentNonNegative(cost.specific, OMNI, p);
    forall d: nat | d < OMNI ensures pool[d] - p[d] + pool[OMNI] - p[OMNI] <= r[d] + r[OMNI] {
      GreedyBest(pool, cost.specific, p, d, OMNI);
      assert r[d] == pool[d] - g[d];
    }
    hide Prefixes, Sum, PaysSpecific, SameOuts;
    SameOutsFew(pool, p, k, c, OMNI);
  }

  /** So nothing is overwritten before it is read. */
  lemma {:induction false} NothingOverwritten(pool: Dice, prefixes: seq<Dice>, k: nat, n: nat)
    requires n <= |prefixes| && forall j :: 0 <= j < |prefixes| ==> |SameOuts(pool, prefixes[j], k, OMNI)| <= 1
    ensures Written(pool, prefixes, k, n) == Fresh(pool, prefixes, k, n) && |Written(pool, prefixes, k, n)| <= n
  {
    hide SameOuts;
    if n > 0 { NothingOverwritten(pool, prefixes, k, n - 1); }
  }

  lemma OneExtensionIsRight(pool: Dice, cost: DiceCost)
    requires Clamped(cost) && ValidPool(pool) && OneExtension(pool, cost)
    ensures Right(pool, cost)
  {
    hide OneExtension, Valid, Prefixes, Written, Fresh, SameOuts;
    var list := PrefixList(pool, cost);
    forall j | 0 <= j < |list| ensures |SameOuts(pool, list[j], cost.same, OMNI)| <= 1 {
      assert list[j] in list;
      PrefixesExtendOnce(pool, cost, list[j]);
    }
    NothingOverwritten(pool, list, cost.same, |list|);
    assert AfterSame(pool, cost) == Documented(pool, cost);
    forall pay: Dice { DocumentedIsValid(pool, cost, pay); }
  }

  // ---- Two same-colour parts on top of native-first ----

  /** Omni dice that colour c needs, after native-first, for the same-colour part. */
  function Short(pool: Dice, cost: DiceCost, c: nat): int
    requires |cost.specific| == OMNI && c < OMNI
  {
    var r := Rest(pool, cost);
    if r[c] >= cost.same then 0 else cost.same - r[c]
  }

  ghost predicate BothFit(pool: Dice, cost: DiceCost, c: nat, d: nat)
    requires |cost.specific| == OMNI && c < OMNI && d < OMNI
  {
    var r := Rest(pool, cost);
    if c == d then r[c] + r[OMNI] >= 2 * cost.same else Short(pool, cost, c) + Short(pool, cost, d) <= r[OMNI]
  }

  /** After native-first the pool could pay a second same-colour part, of the same or another colour. */
  ghost predicate TwoParts(pool: Dice, cost: DiceCost)
    requires |cost.specific| == OMNI
  {
    exists c: nat, d: nat :: c < OMNI && d < OMNI && BothFit(pool, cost, c, d)
  }

  /** Native-first leaves the most of any two colours and omni together. */
  lemma {:induction false} GreedyBestPair(pool: Dice, need: seq<int>, s: Dice, c: nat, d: nat, n: nat)
    requires |need| == OMNI && n <= OMNI && c != d && (forall i :: 0 <= i < n ==> s[i] <= need[i] && s[i] <= pool[i])
    ensures c < n && d < n ==> s[c] + s[d] + Sum(need, n) - Sum(s, n) >= Native(pool, need)[c] + Native(pool, need)[d] + Shortfall(pool, need, n)
  {
    if n > 0 {
      GreedyBestPair(pool, need, s, c, d, n - 1);
      GreedyBest(pool, need, s, c, n - 1);
      GreedyBest(pool, need, s, d, n - 1);
    }
  }

  /** What a prefix leaves of one colour and of two, compared with native-first. */
  lemma PrefixLeaves(pool: Dice, cost: DiceCost, q: Dice, c: nat, d: nat)
    requires Clamped(cost) && ValidPool(pool) && q in PrefixList(pool, cost) && c < OMNI && d < OMNI
    ensures var r := Rest(pool, cost);
      && Within(q, pool) && pool[c] - q[c] + pool[OMNI] - q[OMNI] <= r[c] + r[OMNI]
      && (c != d ==> pool[c] - q[c] + pool[d] - q[d] + pool[OMNI] - q[OMNI] <= r[c] + r[d] + r[OMNI])
      && r[c] <= pool[c] - q[c] && r[d] <= pool[d] - q[d]
  {
    PrefixesMember(pool, cost.specific, OMNI, q);
    SpentNonNegative(cost.specific, OMNI, q);
    GreedyBest(pool, cost.specific, q, c, OMNI);
    if c != d { GreedyBestPair(pool, cost.specific, q, c, d, OMNI); }
    hide Prefixes, Sum;
  }

  /** Where two parts do not fit, no extension of a prefix can be extended again. */
  lemma ExtendsOnce(pool: Dice, cost: DiceCost, q: Dice, p: Dice)
    requires Clamped(cost) && ValidPool(pool) && !TwoParts(pool, cost)
    requires q in PrefixList(pool, cost) && p in SameOuts(pool, q, cost.same, OMNI)
    ensures SameOuts(pool, p, cost.same, OMNI) == []
  {
    hide PrefixList, SameOuts, Sum, TwoParts;
    PrefixLeaves(pool, cost, q, 0, 0);
    FromPrefixMember(pool, q, cost.same, p);
    ExtensionFits(pool, q, cost.same, p);
    ExtendsIff(pool, p, cost.same);
    if d: nat :| d < OMNI && pool[d] - p[d] + pool[OMNI] - p[OMNI] >= cost.same {
      var c: nat :| c < OMNI && FromColour(pool, q, c, cost.same, p);
      PrefixLeaves(pool, cost, q, c, d);
      FitsTwice(pool, cost, q, c, d, p);
    }
  }

  lemma FitsTwice(pool: Dice, cost: DiceCost, q: Dice, c: nat, d: nat, p: Dice)
    requires Clamped(cost) && c < OMNI && d < OMNI && FromColour(pool, q, c, cost.same, p)
    requires Within(p, pool) && pool[d] - p[d] + pool[OMNI] - p[OMNI] >= cost.same
    requires var r := Rest(pool, cost);
      && pool[c] - q[c] + pool[OMNI] - q[OMNI] <= r[c] + r[OMNI]
      && (c != d ==> pool[c] - q[c] + pool[d] - q[d] + pool[OMNI] - q[OMNI] <= r[c] + r[d] + r[OMNI])
      && r[c] <= pool[c] - q[c] && r[d] <= pool[d] - q[d]
    ensures TwoParts(pool, cost)
  {
    hide Rest;
    var u: nat :| u <= cost.same && SplitBy(pool, q, c, cost.same, u, p);
    assert p[c] == q[c] + cost.same - u && p[OMNI] == q[OMNI] + u && (c != d ==> p[d] == q[d]);
    assert BothFit(pool, cost, c, d);
  }

  /** Then the output only ever holds extensions of prefixes. */
  lemma {:induction false} OnlyExtensions(pool: Dice, cost: DiceCost, n: nat, p: Dice)
    requires Clamped(cost) && ValidPool(pool) && !TwoParts(pool, cost)
    requires n <= |PrefixList(pool, cost)| && p in Written(pool, PrefixList(pool, cost), cost.same, n)
    ensures exists q: Dice :: q in PrefixList(pool, cost) && p in SameOuts(pool, q, cost.same, OMNI)
    decreases n
  {
    hide PrefixList, SameOuts, TwoParts;
    var list, k := PrefixList(pool, cost), cost.same;
    var out := Written(pool, list, k, n - 1);
    if p in out {
      OnlyExtensions(pool, cost, n - 1, p);
    } else if |out| > n - 1 {
      OnlyExtensions(pool, cost, n - 1, out[n - 1]);
      var q: Dice :| q in list && out[n - 1] in SameOuts(pool, q, k, OMNI);
      ExtendsOnce(pool, cost, q, out[n - 1]);
    } else {
      assert list[n - 1] in list && p in SameOuts(pool, list[n - 1], k, OMNI);
    }
  }

  /** So whatever is overwritten does no harm. */
  lemma NoTwoPartsIsHarmless(pool: Dice, cost: DiceCost)
    requires Clamped(cost) && ValidPool(pool) && !TwoParts(pool, cost)
    ensures forall i: nat :: !Harmful(pool, cost, i)
  {
    hide PrefixList, SameOuts, TwoParts, Written;
    var list, k := PrefixList(pool, cost), cost.same;
    forall i: nat ensures !Harmful(pool, cost, i) {
      if Harmful(pool, cost, i) {
        var p := Written(pool, list, k, i)[i];
        assert p in Written(pool, list, k, i);
        OnlyExtensions(pool, cost, i, p);
        var q: Dice :| q in list && p in SameOuts(pool, q, k, OMNI);
        ExtendsOnce(pool, cost, q, p);
      }
    }
  }

  /** The extension of native-first by colour c that uses as few omni dice as possible; if d can pay a second
      part beside it, it can be extended. */
  lemma CheapExtension(pool: Dice, cost: DiceCost, c: nat, d: nat) returns (p: Dice)
    requires Clamped(cost) && ValidPool(pool) && Affordable(pool, cost) && c < OMNI && d < OMNI && c != d && BothFit(pool, cost, c, d)
    ensures p in Firsts(pool, cost) && SameOuts(pool, p, cost.same, OMNI) != []
    ensures forall i :: 0 <= i < COLORS ==> p[i] == Greedy(pool, cost.specific)[i] + SameOf(cost.same, c, Short(pool, cost, c))[i]
    ensures 0 <= Short(pool, cost, c) <= cost.same
  {
    var g, k, u := Greedy(pool, cost.specific), cost.same, Short(pool, cost, c);
    GreedyFirst(pool, cost);
    hide Affordable, SameOuts, Sum;
    p := Plus(g, SameOf(k, c, u));
    assert p[c] == g[c] + k - u && p[d] == g[d] && p[OMNI] == g[OMNI] + u;
    assert pool[d] - p[d] + pool[OMNI] - p[OMNI] >= k && 0 <= u <= k;
    assert FromColour(pool, g, c, k, p) by { assert SplitBy(pool, g, c, k, u, p); }
    hide Rest, SameOf, FromColour;
    assert FromPrefix(pool, g, k, p);
    FromPrefixMember(pool, g, k, p);
    ExtensionFits(pool, g, k, p);
    ExtendsIff(pool, p, k);
  }

  /** With many prefixes and two parts of different colours, a read returns an extension of the first prefix
      that can be extended. */
  lemma TwoColoursExtend(pool: Dice, cost: DiceCost, c: nat, d: nat) returns (i: nat)
    requires Clamped(cost) && ValidPool(pool) && cost.same > 0 && Affordable(pool, cost)
    requires c < OMNI && d < OMNI && c != d && BothFit(pool, cost, c, d) && !BothFit(pool, cost, c, c)
    requires |Firsts(pool, cost)| <= |PrefixList(pool, cost)|
    ensures Extendable(pool, cost, i)
  {
    hide Affordable, SameOuts, PrefixList, Sum, Firsts;
    var g, k := Greedy(pool, cost.specific), cost.same;
    var p := CheapExtension(pool, cost, c, d);
    var q := CheapExtension(pool, cost, d, c);
    assert p != q by { Differ(pool, cost, c, d, p, q); }
    var a :| 0 <= a < |Firsts(pool, cost)| && Firsts(pool, cost)[a] == p;
    var b :| 0 <= b < |Firsts(pool, cost)| && Firsts(pool, cost)[b] == q;
    i := if a == 0 then b else a;
  }

  lemma Differ(pool: Dice, cost: DiceCost, c: nat, d: nat, p: Dice, q: Dice)
    requires |cost.specific| == OMNI && cost.same > 0 && c < OMNI && d < OMNI && c != d
    requires BothFit(pool, cost, c, d) && !BothFit(pool, cost, c, c)
    requires forall i :: 0 <= i < COLORS ==> p[i] == Greedy(pool, cost.specific)[i] + SameOf(cost.same, c, Short(pool, cost, c))[i]
    requires forall i :: 0 <= i < COLORS ==> q[i] == Greedy(pool, cost.specific)[i] + SameOf(cost.same, d, Short(pool, cost, d))[i]
    ensures p != q
  {
    assert p[OMNI] == Greedy(pool, cost.specific)[OMNI] + Short(pool, cost, c);
    assert q[OMNI] == Greedy(pool, cost.specific)[OMNI] + Short(pool, cost, d);
    assert p[c] == Greedy(pool, cost.specific)[c] + cost.same - Short(pool, cost, c) && q[c] == Greedy(pool, cost.specific)[c];
    hide Greedy;
  }

  /** With many prefixes the code overpays as soon as two parts fit and that many dice are left over. */
  lemma TwoPartsOverpay(pool: Dice, cost: DiceCost) returns (pay: Dice)
    requires Clamped(cost) && ValidPool(pool) && cost.same > 0 && Affordable(pool, cost) && !NoChoice(pool, cost)
    requires |Firsts(pool, cost)| <= |PrefixList(pool, cost)| && TwoParts(pool, cost) && Slack(pool, cost) >= cost.same
    ensures Returned(pool, cost, pay) && !Valid(pool, cost, pay)
  {
    hide Affordable, NoChoice, Returned, Valid, Extendable, Harmful, PrefixList, Firsts;
    var c: nat, d: nat :| c < OMNI && d < OMNI && BothFit(pool, cost, c, d);
    if BothFit(pool, cost, c, c) {
      pay := DoublesOverpays(pool, cost);
    } else {
      var i := TwoColoursExtend(pool, cost, c, d);
      ExtendableIsHarmful(pool, cost, i);
      pay := Overpays(pool, cost, i);
    }
  }

  /** More prefixes than the first one has extensions: the code returns only valid payments iff two parts do
      not fit or too few dice are left over to pay them.  If no payment avoids native-first, that decides
      whether it is right. */
  lemma ManyIff(pool: Dice, cost: DiceCost)
    requires Clamped(cost) && ValidPool(pool) && cost.same > 0 && Affordable(pool, cost)
    requires |Firsts(pool, cost)| < |PrefixList(pool, cost)|
    ensures (forall pay: Dice :: Returned(pool, cost, pay) ==> Valid(pool, cost, pay)) <==> OnePart(pool, cost)
    ensures Unavoidable(pool, cost) ==> (Right(pool, cost) <==> OnePart(pool, cost))
  {
    hide Affordable, Unavoidable, NoChoice, Returned, Valid, Harmful, PrefixList, Firsts, TwoParts;
    if Slack(pool, cost) < cost.same {
      forall pay: Dice | Returned(pool, cost, pay) ensures Valid(pool, cost, pay) { LittleSlackIsSound(pool, cost, pay); }
    } else if TwoParts(pool, cost) {
      ManyHaveChoice(pool, cost);
      var pay := TwoPartsOverpay(pool, cost);
    } else {
      NoTwoPartsIsHarmless(pool, cost);
      SoundIff(pool, cost);
    }
    if Unavoidable(pool, cost) {
      forall pay: Dice | Valid(pool, cost, pay) ensures Returned(pool, cost, pay) { UnavoidableIsComplete(pool, cost, pay); }
    }
  }

  /** Too few dice are left over for a second same-colour part, or two do not fit. */
  ghost predicate OnePart(pool: Dice, cost: DiceCost)
    requires |cost.specific| == OMNI
  {
    Slack(pool, cost) < cost.same || !TwoParts(pool, cost)
  }

  /** An affordable cost has a first extension, so more prefixes than that are at least two. */
  lemma ManyHaveChoice(pool: Dice, cost: DiceCost)
    requires Clamped(cost) && ValidPool(pool) && cost.same > 0 && Affordable(pool, cost)
    requires |Firsts(pool, cost)| < |PrefixList(pool, cost)|
    ensures !NoChoice(pool, cost)
  {
    GreedyFirst(pool, cost);
    ExtendsIff(pool, Greedy(pool, cost.specific), cost.same);
    SinglePrefix(pool, cost);
    hide Prefixes, SameOuts, NoChoice;
  }

  // ---- Every cost ----

  /** The payment extends a prefix that phase 2 still reads intact. */
  ghost predicate Covered(pool: Dice, cost: DiceCost, pay: Dice)
    requires Clamped(cost)
  {
    exists i: nat, p: Dice :: CoveredBy(pool, cost, pay, i, p)
  }

  ghost predicate CoveredBy(pool: Dice, cost: DiceCost, pay: Dice, i: nat, p: Dice)
    requires Clamped(cost)
  {
    var list := PrefixList(pool, cost);
    && i < |list| && !Overwritten(pool, list, cost.same, i)
    && p in SameOuts(pool, list[i], cost.same, OMNI) && Completes(pool, p, cost.any, pay)
  }

  /** A valid payment is returned iff it extends an intact prefix. */
  lemma ReturnedIffCovered(pool: Dice, cost: DiceCost, pay: Dice)
    requires Clamped(cost) && ValidPool(pool) && cost.same > 0 && Valid(pool, cost, pay)
    ensures Returned(pool, cost, pay) <==> Covered(pool, cost, pay)
  {
    hide Written, SameOuts, Prefixes, Valid, Completes, Within, Sum;
    var list, k := PrefixList(pool, cost), cost.same;
    ValidTotal(pool, cost, pay);
    PrefixesFit(pool, cost);
    if Returned(pool, cost, pay) {
      var j :| 0 <= j < |AfterSame(pool, cost)| && Completes(pool, AfterSame(pool, cost)[j], cost.any, pay);
      var p := AfterSame(pool, cost)[j];
      assert p in Written(pool, list, k, |list|);
      CompletionSum(pool, p, cost.any, pay);
      var i := IntactOrigin(pool, list, k, Sum(cost.specific, OMNI), |list|, p);
      assert CoveredBy(pool, cost, pay, i, p);
    }
    if i: nat, p: Dice :| CoveredBy(pool, cost, pay, i, p) {
      IntactIsWritten(pool, list, k, i, p);
      var j :| 0 <= j < |AfterSame(pool, cost)| && AfterSame(pool, cost)[j] == p;
      assert Completes(pool, AfterSame(pool, cost)[j], cost.any, pay);
    }
  }

  /** An output with a single same-colour part comes from a prefix read intact. */
  lemma {:induction false} IntactOrigin(pool: Dice, prefixes: seq<Dice>, k: nat, base: int, n: nat, p: Dice) returns (i: nat)
    requires n <= |prefixes| && ValidPool(pool) && p in Written(pool, prefixes, k, n) && Sum(p, COLORS) < base + 2 * k
    requires forall j :: 0 <= j < |prefixes| ==> Within(prefixes[j], pool) && Sum(prefixes[j], COLORS) == base
    ensures i < n && !Overwritten(pool, prefixes, k, i) && p in SameOuts(pool, prefixes[i], k, OMNI)
    decreases n
  {
    hide SameOuts, Sum, Within;
    var out := Written(pool, prefixes, k, n - 1);
    if p in out {
      i := IntactOrigin(pool, prefixes, k, base, n - 1, p);
    } else {
      i := n - 1;
      if |out| > i {
        WrittenHolds(pool, prefixes, k, base, i);
        WrittenFits(pool, prefixes, k, i);
        assert out[i] in out;
        ExtensionFits(pool, out[i], k, p);
      }
    }
  }

  lemma IntactIsWritten(pool: Dice, prefixes: seq<Dice>, k: nat, i: nat, p: Dice)
    requires i < |prefixes| && !Overwritten(pool, prefixes, k, i) && p in SameOuts(pool, prefixes[i], k, OMNI)
    ensures p in Written(pool, prefixes, k, |prefixes|)
  {
    hide SameOuts;
    var out, outs := Written(pool, prefixes, k, i), SameOuts(pool, prefixes[i], k, OMNI);
    WrittenPrefix(pool, prefixes, k, i + 1, |prefixes|);
    assert Written(pool, prefixes, k, i + 1) == out + outs;
    var j :| 0 <= j < |outs| && outs[j] == p;
    assert (out + outs)[|out| + j] == p && Written(pool, prefixes, k, |prefixes|)[|out| + j] == p;
  }

  /** For every cost with a same-colour part: the code is right iff no overwritten read can be extended and
      paid for, and every valid payment extends a prefix read intact. */
  lemma RightAlways(pool: Dice, cost: DiceCost)
    requires Clamped(cost) && ValidPool(pool) && cost.same > 0
    ensures Right(pool, cost) <==>
      (forall i: nat :: !Harmful(pool, cost, i)) && forall pay: Dice :: Valid(pool, cost, pay) ==> Covered(pool, cost, pay)
  {
    hide Returned, Valid, Harmful, Covered;
    SoundIff(pool, cost);
    forall pay: Dice | Valid(pool, cost, pay) ensures Returned(pool, cost, pay) <==> Covered(pool, cost, pay) {
      ReturnedIffCovered(pool, cost, pay);
    }
  }

  // ---- EnumerateCostPayments ----

  /** Where the code is right whatever the number of prefixes. */
  ghost predicate Safe(pool: Dice, cost: DiceCost)
    requires Clamped(cost)
  {
    || Exact(pool, cost)
    || OneExtension(pool, cost)
    || (OnePart(pool, cost) && Unavoidable(pool, cost))
  }

  lemma SafeIsRight(pool: Dice, cost: DiceCost)
    requires Clamped(cost) && ValidPool(pool) && Safe(pool, cost)
    ensures Right(pool, cost)
  {
    hide OneExtension, Unavoidable, NoChoice, Valid, Returned, TwoParts, Harmful;
    if OneExtension(pool, cost) {
      OneExtensionIsRight(pool, cost);
    } else if Exact(pool, cost) {
      forall pay: Dice { ReturnedIsValid(pool, cost, pay); }
    } else {
      forall pay: Dice ensures Returned(pool, cost, pay) <==> Valid(pool, cost, pay) {
        if Returned(pool, cost, pay) { OnePartIsSound(pool, cost, pay); }
        if Valid(pool, cost, pay) { UnavoidableIsComplete(pool, cost, pay); }
      }
    }
  }

  lemma OnePartIsSound(pool: Dice, cost: DiceCost, pay: Dice)
    requires Clamped(cost) && ValidPool(pool) && cost.same > 0 && OnePart(pool, cost) && Returned(pool, cost, pay)
    ensures Valid(pool, cost, pay)
  {
    hide TwoParts, Valid, Returned, Harmful;
    if Slack(pool, cost) < cost.same {
      LittleSlackIsSound(pool, cost, pay);
    } else {
      NoTwoPartsIsHarmless(pool, cost);
      SoundIff(pool, cost);
    }
  }

  /** The two conditions under which RightIff is an equivalence in both directions, as one. */
  ghost predicate Settles(pool: Dice, cost: DiceCost)
    requires Clamped(cost)
  {
    || NoChoice(pool, cost)
    || (Unavoidable(pool, cost) && (Slack(pool, cost) < cost.same || forall i: nat :: !Extendable(pool, cost, i)))
  }

  /** EnumerateCostPayments.  Always: distinct payments that fit the pool, none exactly when the cost
      cannot be afforded.  Whether they are exactly the valid ones is decided as follows. */
  method EnumerateCostPayments(pool: Dice, cost: DiceCost, spare: nat) returns (out: seq<Dice>)
    requires Clamped(cost) && ValidPool(pool)
    ensures Distinct(out) && forall i :: 0 <= i < |out| ==> Within(out[i], pool)
    ensures out != [] <==> exists pay: Dice :: Valid(pool, cost, pay)
    ensures !Affordable(pool, cost) || Safe(pool, cost) ==> forall pay: Dice :: pay in out <==> Valid(pool, cost, pay)
    ensures Affordable(pool, cost) && cost.same > 0 && !NoChoice(pool, cost) && Doubles(pool, cost) ==>
      exists pay: Dice :: pay in out && !Valid(pool, cost, pay)
    ensures Affordable(pool, cost) && cost.same == 1 ==>
      ((forall pay: Dice :: pay in out <==> Valid(pool, cost, pay)) <==> NoChoice(pool, cost) || Sum(pool, COLORS) == TotalCost(cost))
    ensures Affordable(pool, cost) && cost.same > 0 && |PrefixList(pool, cost)| <= |Firsts(pool, cost)| ==>
      ((forall pay: Dice :: pay in out <==> Valid(pool, cost, pay)) <==> Settles(pool, cost))
    ensures Affordable(pool, cost) && cost.same > 0 && |Firsts(pool, cost)| < |PrefixList(pool, cost)| ==>
      && ((forall pay: Dice :: pay in out ==> Valid(pool, cost, pay)) <==> OnePart(pool, cost))
      && (Unavoidable(pool, cost) ==> ((forall pay: Dice :: pay in out <==> Valid(pool, cost, pay)) <==> OnePart(pool, cost)))
    ensures Affordable(pool, cost) && cost.same > 0 ==>
      && ((forall pay: Dice :: pay in out ==> Valid(pool, cost, pay)) <==> forall i: nat :: !Harmful(pool, cost, i))
      && (forall pay: Dice :: Valid(pool, cost, pay) ==> (pay in out <==> Covered(pool, cost, pay)))
  {
    hide Safe, Doubles, NoChoice, Settles, Harmful, Affordable, Valid, PrefixList, Firsts, Prefixes, Written, OnePart, Unavoidable, Covered;
    AffordableIffPayment(pool, cost);
    out := ReturnedPayments(pool, cost, spare);
    if Affordable(pool, cost) {
      Verdicts(pool, cost);
      ghost var some := AffordableReturns(pool, cost);
      assert some in out;
    } else {
      assert forall pay: Dice :: !Valid(pool, cost, pay);
    }
  }

  /** The code itself: what it returns, in terms of phase 2's output. */
  method ReturnedPayments(pool: Dice, cost: DiceCost, spare: nat) returns (out: seq<Dice>)
    requires Clamped(cost) && ValidPool(pool)
    ensures Distinct(out) && forall i :: 0 <= i < |out| ==> Within(out[i], pool)
    ensures Affordable(pool, cost) ==> forall pay: Dice :: pay in out <==> Returned(pool, cost, pay)
    ensures !Affordable(pool, cost) ==> out == []
  {
    hide Affordable, Valid;
    var affordable := CanAfford(pool, cost);
    if !affordable { return []; }
    var specPayments := SpecificPayments(pool, cost.specific);
    var matchPrefixes := specPayments;
    if cost.same > 0 {
      matchPrefixes := SamePayments(pool, specPayments, cost.same, spare);
    }
    AfterSameFits(pool, cost);
    assert matchPrefixes == AfterSame(pool, cost);
    out := Complete(pool, matchPrefixes, cost.any);
  }

  /** Everything decided about the returned payments of an affordable cost. */
  lemma Verdicts(pool: Dice, cost: DiceCost)
    requires Clamped(cost) && ValidPool(pool) && Affordable(pool, cost)
    ensures Safe(pool, cost) ==> Right(pool, cost)
    ensures cost.same > 0 && !NoChoice(pool, cost) && Doubles(pool, cost) ==>
      exists pay: Dice :: Returned(pool, cost, pay) && !Valid(pool, cost, pay)
    ensures cost.same == 1 ==> (Right(pool, cost) <==> NoChoice(pool, cost) || Sum(pool, COLORS) == TotalCost(cost))
    ensures cost.same > 0 && |PrefixList(pool, cost)| <= |Firsts(pool, cost)| ==> (Right(pool, cost) <==> Settles(pool, cost))
    ensures cost.same > 0 && |Firsts(pool, cost)| < |PrefixList(pool, cost)| ==>
      && ((forall pay: Dice :: Returned(pool, cost, pay) ==> Valid(pool, cost, pay)) <==> OnePart(pool, cost))
      && (Unavoidable(pool, cost) ==> (Right(pool, cost) <==> OnePart(pool, cost)))
    ensures cost.same > 0 ==>
      && ((forall pay: Dice :: Returned(pool, cost, pay) ==> Valid(pool, cost, pay)) <==> forall i: nat :: !Harmful(pool, cost, i))
      && (forall pay: Dice :: Valid(pool, cost, pay) ==> (Returned(pool, cost, pay) <==> Covered(pool, cost, pay)))
  {
    hide Safe, Doubles, NoChoice, Harmful, Affordable, Valid, Returned, Prefixes, SameOuts, Unavoidable, Extendable, OnePart, Covered;
    if Safe(pool, cost) { SafeIsRight(pool, cost); }
    if cost.same > 0 {
      SoundIff(pool, cost);
      if !NoChoice(pool, cost) && Doubles(pool, cost) { var pay := DoublesOverpays(pool, cost); }
      if cost.same == 1 { SameOneIff(pool, cost); }
      if |PrefixList(pool, cost)| <= |Firsts(pool, cost)| { RightIff(pool, cost); } else { ManyIff(pool, cost); }
      forall pay: Dice | Valid(pool, cost, pay) ensures Returned(pool, cost, pay) <==> Covered(pool, cost, pay) {
        ReturnedIffCovered(pool, cost, pay);
      }
    }
  }
}
