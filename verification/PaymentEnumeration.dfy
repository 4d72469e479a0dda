/** gicg_engine/cost_payment.go: EnumerateCostPayments and enumerateMultiset, phase by phase, with the
    order in which each phase appends. */
module PaymentEnumeration {
  import opened DiceVectors
  import opened CostPayment

  // ---- What the phases append ----

  /** prev with native dice of colour c and omni dice added, in int8 arithmetic. */
  function Add(prev: Dice, c: nat, native: int, omni: int): Dice
    requires c < OMNI
  {
    prev[c := Int8(prev[c] + Int8(native))][OMNI := Int8(prev[OMNI] + Int8(omni))]
  }

  /** The ways to pay k dice with colour c and fewer than n omni, in increasing omni. */
  function Splits(pool: Dice, prev: Dice, c: nat, k: int, n: nat): seq<Dice>
    requires c < OMNI
  {
    if n == 0 then [] else
      var shorter := Splits(pool, prev, c, k, n - 1);
      if k - (n - 1) > pool[c] - prev[c] || n - 1 > pool[OMNI] - prev[OMNI] then shorter
      else shorter + [Add(prev, c, k - (n - 1), n - 1)]
  }

  /** Phase 1 for one element: every split of every one of the first n prefixes. */
  function Extended(pool: Dice, prefixes: seq<Dice>, c: nat, k: nat, n: nat): seq<Dice>
    requires c < OMNI && n <= |prefixes|
  {
    if n == 0 then [] else Extended(pool, prefixes, c, k, n - 1) + Splits(pool, prefixes[n - 1], c, k, k + 1)
  }

  /** Phase 1 for the first n elements. */
  function Prefixes(pool: Dice, need: seq<int>, n: nat): seq<Dice>
    requires |need| == OMNI && n <= OMNI && forall c :: 0 <= c < OMNI ==> need[c] >= 0
  {
    if n == 0 then [ZERO] else
      var before := Prefixes(pool, need, n - 1);
      if need[n - 1] == 0 then before else Extended(pool, before, n - 1, need[n - 1], |before|)
  }

  /** Phase 2 for one prefix: the one-colour payments over the first n colours. */
  function SameOuts(pool: Dice, prev: Dice, k: nat, n: nat): seq<Dice>
    requires n <= OMNI
  {
    if n == 0 then [] else SameOuts(pool, prev, k, n - 1) + Splits(pool, prev, n - 1, k, k + 1)
  }

  /** Phase 2 over the first n prefixes, as documented: each prefix is extended. */
  function Fresh(pool: Dice, prefixes: seq<Dice>, k: nat, n: nat): seq<Dice>
    requires n <= |prefixes|
  {
    if n == 0 then [] else Fresh(pool, prefixes, k, n - 1) + SameOuts(pool, prefixes[n - 1], k, OMNI)
  }

  /** Phase 2 over the first n prefixes, as written: the output reuses the storage of the prefixes, so
      the prefix read at i is the i-th output whenever more than i outputs exist by then. */
  function Written(pool: Dice, prefixes: seq<Dice>, k: nat, n: nat): seq<Dice>
    requires n <= |prefixes|
  {
    if n == 0 then [] else
      var out := Written(pool, prefixes, k, n - 1);
      out + SameOuts(pool, if |out| > n - 1 then out[n - 1] else prefixes[n - 1], k, OMNI)
  }

  function AfterSame(pool: Dice, cost: DiceCost): seq<Dice>
    requires Clamped(cost)
  {
    var prefixes := Prefixes(pool, cost.specific, OMNI);
    if cost.same == 0 then prefixes else Written(pool, prefixes, cost.same, |prefixes|)
  }

  ghost predicate Completes(pool: Dice, prefix: Dice, n: int, pay: Dice) {
    PaysAny(n, Minus(pay, prefix)) && Within(Minus(pay, prefix), Minus(pool, prefix))
  }

  ghost predicate CompletesSome(pool: Dice, list: seq<Dice>, n: int, pay: Dice) {
    exists i :: 0 <= i < |list| && Completes(pool, list[i], n, pay)
  }

  /** The payments the code returns: completions of the phase-2 list. */
  ghost predicate Returned(pool: Dice, cost: DiceCost, pay: Dice)
    requires Clamped(cost)
  {
    CompletesSome(pool, AfterSame(pool, cost), cost.any, pay)
  }

  // ---- The code ----

  ghost predicate Draws(pool: Dice, start: nat, n: int, current: Dice, v: Dice)
    requires start <= COLORS
  {
    && (forall i :: 0 <= i < start ==> v[i] == current[i])
    && (forall i :: start <= i < COLORS ==> 0 <= v[i] <= pool[i])
    && Sum(v, COLORS) - Sum(v, start) == n
  }

  lemma DrawsLeft(pool: Dice, start: nat, n: int, current: Dice, v: Dice)
    requires start <= COLORS && Draws(pool, start, n, current, v)
    ensures n >= 0
    ensures n == 0 ==> forall i :: start <= i < COLORS ==> v[i] == 0
    ensures start < COLORS ==> v[start] <= n
    decreases COLORS - start
  {
    if start < COLORS { DrawsLeft(pool, start + 1, n - v[start], v, v); }
  }

  /** The closure of enumerateMultiset: appends every completion of `current` from colour `start`. */
  method Draw(pool: Dice, start: nat, remaining: nat, current: Dice, out: seq<Dice>)
    returns (out': seq<Dice>, ghost added: seq<Dice>)
    requires start <= COLORS && ValidPool(pool) && forall i :: start <= i < COLORS ==> current[i] == 0
    ensures out' == out + added && Distinct(added)
    ensures forall v: Dice :: v in added <==> Draws(pool, start, remaining, current, v)
    decreases COLORS - start
  {
    if remaining == 0 {
      forall v: Dice | Draws(pool, start, 0, current, v) ensures v == current {
        DrawsLeft(pool, start, 0, current, v);
      }
      SumFromZero(current, start, COLORS);
      return out + [current], [current];
    }
    out', added := out, [];
    if start >= COLORS { return; }
    var maxHere := pool[start];
    if maxHere > remaining { maxHere := remaining; }
    var current' := current;
    for take := 0 to maxHere + 1
      invariant out' == out + added && Distinct(added) && |current'| == COLORS
      invariant forall i :: 0 <= i < COLORS && i != start ==> current'[i] == current[i]
      invariant forall v: Dice :: v in added <==> Draws(pool, start, remaining, current, v) && v[start] < take
    {
      current' := current'[start := Int8(take)];
      ghost var before := added;
      ghost var more;
      out', more := Draw(pool, start + 1, remaining - take, current', out');
      forall v: Dice ensures v in more <==> Draws(pool, start, remaining, current, v) && v[start] == take {
        DrawStep(pool, start, remaining, current, current', take, v);
      }
      DistinctConcat(before, more);
      added := before + more;
    }
    forall v: Dice | Draws(pool, start, remaining, current, v) ensures v in added {
      DrawsLeft(pool, start, remaining, current, v);
    }
  }

  lemma DistinctConcat<T>(a: seq<T>, b: seq<T>)
    requires Distinct(a) && Distinct(b) && forall x :: x in a ==> x !in b
    ensures Distinct(a + b)
  {
    forall i, j | 0 <= i < j < |a + b| ensures (a + b)[i] != (a + b)[j] {
      if i < |a| <= j { assert a[i] in a && b[j - |a|] in b; }
    }
  }

  lemma DrawStep(pool: Dice, start: nat, n: int, current: Dice, current': Dice, take: int, v: Dice)
    requires start < COLORS && 0 <= take <= pool[start] && current' == current[start := take]
    ensures Draws(pool, start + 1, n - take, current', v) <==> Draws(pool, start, n, current, v) && v[start] == take
  {
  }

  /** enumerateMultiset: exactly the vectors of n dice the pool contains, each once. */
  method EnumerateMultiset(pool: Dice, n: nat) returns (out: seq<Dice>)
    requires ValidPool(pool)
    ensures Distinct(out)
    ensures forall v: Dice :: v in out <==> PaysAny(n, v) && Within(v, pool)
  {
    if n == 0 {
      forall v: Dice | PaysAny(0, v) ensures v == ZERO {
        assert Draws(v, 0, 0, ZERO, v);
        DrawsLeft(v, 0, 0, ZERO, v);
      }
      SumZero(ZERO, COLORS);
      return [ZERO];
    }
    ghost var added;
    out, added := Draw(pool, 0, n, ZERO, []);
  }

  /** Phase 1. */
  method SpecificPayments(pool: Dice, need: seq<int>) returns (specPayments: seq<Dice>)
    requires |need| == OMNI && forall c :: 0 <= c < OMNI ==> need[c] >= 0
    ensures specPayments == Prefixes(pool, need, OMNI)
  {
    hide Add;
    specPayments := [ZERO];
    for color := 0 to OMNI
      invariant specPayments == Prefixes(pool, need, color)
    {
      if need[color] == 0 { continue; }
      var next: seq<Dice> := [];
      for i := 0 to |specPayments|
        invariant next == Extended(pool, specPayments, color, need[color], i)
      {
        var prev := specPayments[i];
        for omniUse := 0 to need[color] + 1
          invariant next == Extended(pool, specPayments, color, need[color], i) + Splits(pool, prev, color, need[color], omniUse)
        {
          var nativeUse := need[color] - omniUse;
          if nativeUse > pool[color] - prev[color] { continue; }
          if omniUse > pool[OMNI] - prev[OMNI] { continue; }
          next := next + [Add(prev, color, nativeUse, omniUse)];
        }
      }
      specPayments := next;
    }
  }

  /** The output laid over the prefixes, as far as the array reaches. */
  ghost predicate Overlaid(store: array<Dice>, out: seq<Dice>, prefixes: seq<Dice>)
    reads store
  {
    && |prefixes| <= store.Length
    && (forall j :: 0 <= j < |out| && j < store.Length ==> store[j] == out[j])
    && (forall j :: |out| <= j < |prefixes| ==> store[j] == prefixes[j])
  }

  /** Go's append to the slice over `store`: in place while the capacity lasts. */
  method Append(store: array<Dice>, out: seq<Dice>, p: Dice, ghost prefixes: seq<Dice>) returns (out': seq<Dice>)
    requires Overlaid(store, out, prefixes)
    modifies store
    ensures out' == out + [p] && Overlaid(store, out', prefixes)
  {
    if |out| < store.Length { store[|out|] := p; }
    out' := out + [p];
  }

  /** The inner loops of phase 2, for one prefix. */
  method ExtendPrefix(store: array<Dice>, pool: Dice, prev: Dice, k: nat, out: seq<Dice>, ghost prefixes: seq<Dice>)
    returns (out': seq<Dice>)
    requires Overlaid(store, out, prefixes)
    modifies store
    ensures out' == out + SameOuts(pool, prev, k, OMNI) && Overlaid(store, out', prefixes)
  {
    out' := out;
    for c := 0 to OMNI
      invariant out' == out + SameOuts(pool, prev, k, c) && Overlaid(store, out', prefixes)
    {
      for omniUse := 0 to k + 1
        invariant out' == out + SameOuts(pool, prev, k, c) + Splits(pool, prev, c, k, omniUse)
        invariant Overlaid(store, out', prefixes)
      {
        var nativeUse := k - omniUse;
        if nativeUse > pool[c] - prev[c] { continue; }
        if omniUse > pool[OMNI] - prev[OMNI] { continue; }
        out' := Append(store, out', Add(prev, c, nativeUse, omniUse), prefixes);
      }
    }
  }

  /** Phase 2, with the output slice laid over the array that still holds the prefixes.  `spare` is
      the unused capacity append left behind the prefixes; outputs beyond the capacity go elsewhere. */
  method SamePayments(pool: Dice, specPayments: seq<Dice>, k: nat, spare: nat) returns (matchPrefixes: seq<Dice>)
    ensures matchPrefixes == Written(pool, specPayments, k, |specPayments|)
  {
    hide SameOuts;
    var m := |specPayments|;
    var store := new Dice[m + spare](i => if 0 <= i < m then specPayments[i] else ZERO);
    matchPrefixes := [];
    for i := 0 to m
      invariant matchPrefixes == Written(pool, specPayments, k, i) && Overlaid(store, matchPrefixes, specPayments)
    {
      matchPrefixes := ExtendPrefix(store, pool, store[i], k, matchPrefixes, specPayments);
    }
  }
}
