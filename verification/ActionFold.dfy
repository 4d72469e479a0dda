/** filterLogicalActions of gicg_actor/dmc/dice_greedy.go: one cheapest payment per logical action. */
module ActionFold {
  import opened DiceVectors

  /** A legal action: its identity tuple, its payment, and its hand index. */
  datatype LegalAction = LegalAction(identity: Identity, payment: Dice, index: int)

  type Identity = s: seq<int> | |s| == 5 witness [0, 0, 0, 0, 0]

  const TUNE := 4

  function Dot(payment: Dice, values: Dice, n: nat): int
    requires n <= COLORS
  {
    if n == 0 then 0 else Dot(payment, values, n - 1) + payment[n - 1] * values[n - 1]
  }

  function Cost(a: LegalAction, values: Dice): int { Dot(a.payment, values, COLORS) }

  lemma DotSteps(payment: Dice, values: Dice)
    ensures Dot(payment, values, 0) == 0
    ensures forall n: nat :: n < COLORS ==> Dot(payment, values, n + 1) == Dot(payment, values, n) + payment[n] * values[n]
  {
  }

  lemma EightColours(payment: Dice, values: Dice)
    ensures Dot(payment, values, COLORS)
      == payment[0] * values[0] + payment[1] * values[1] + payment[2] * values[2] + payment[3] * values[3]
         + payment[4] * values[4] + payment[5] * values[5] + payment[6] * values[6] + payment[7] * values[7]
  {
    assert Dot(payment, values, 0) == 0;
    assert Dot(payment, values, 1) == payment[0] * values[0];
    assert Dot(payment, values, 2) == Dot(payment, values, 1) + payment[1] * values[1];
    assert Dot(payment, values, 3) == Dot(payment, values, 2) + payment[2] * values[2];
    assert Dot(payment, values, 4) == Dot(payment, values, 3) + payment[3] * values[3];
    assert Dot(payment, values, 5) == Dot(payment, values, 4) + payment[4] * values[4];
    assert Dot(payment, values, 6) == Dot(payment, values, 5) + payment[5] * values[5];
    assert Dot(payment, values, 7) == Dot(payment, values, 6) + payment[6] * values[6];
  }

  method PaymentCost(payment: Dice, values: Dice) returns (cost: int)
    ensures cost == Dot(payment, values, COLORS)
    ensures cost == payment[0] * values[0] + payment[1] * values[1] + payment[2] * values[2] + payment[3] * values[3]
      + payment[4] * values[4] + payment[5] * values[5] + payment[6] * values[6] + payment[7] * values[7]
  {
    EightColours(payment, values);
    hide Dot;
    DotSteps(payment, values);
    cost := 0;
    for c := 0 to COLORS
      invariant cost == Dot(payment, values, c)
    {
      cost := cost + payment[c] * values[c];
    }
  }

  /** Cheaper; for tuning, of equal costs the lower hand index. */
  predicate Cheaper(a: LegalAction, b: LegalAction, values: Dice) {
    || Cost(a, values) < Cost(b, values)
    || (Cost(a, values) == Cost(b, values) && a.identity[0] == TUNE && a.index < b.index)
  }

  /** The first of the cheapest actions with its identity. */
  predicate Chosen(actions: seq<LegalAction>, values: Dice, i: nat) {
    && i < |actions|
    && forall j :: 0 <= j < |actions| && actions[j].identity == actions[i].identity && j != i ==>
         Cheaper(actions[i], actions[j], values) || (!Cheaper(actions[j], actions[i], values) && i < j)
  }

  // ---- sortInts ----

  ghost predicate Ascending(s: seq<nat>) { forall i, j :: 0 <= i < j < |s| ==> s[i] <= s[j] }

  /** The state of the inner loop: s[i] is taken out, the larger entries have moved up past j. */
  ghost predicate Shifted(s: seq<nat>, now: seq<nat>, i: nat, j: int) {
    && i < |s| == |now| && -1 <= j < i
    && (forall k :: 0 <= k <= j ==> now[k] == s[k])
    && (forall k :: j + 2 <= k <= i ==> now[k] == s[k - 1])
    && (forall k :: i < k < |s| ==> now[k] == s[k])
    && forall k :: j < k < i ==> s[k] > s[i]
  }

  lemma ShiftStart(s: seq<nat>, i: nat)
    requires i < |s|
    ensures Shifted(s, s, i, i - 1)
  {
  }

  lemma ShiftStep(s: seq<nat>, now: seq<nat>, i: nat, j: int)
    requires Shifted(s, now, i, j) && j >= 0 && now[j] > s[i]
    ensures Shifted(s, now[j + 1 := now[j]], i, j - 1)
  {
  }

  lemma InsertedContents(s: seq<nat>, now: seq<nat>, i: nat, j: int)
    requires Shifted(s, now, i, j)
    ensures multiset(now[j + 1 := s[i]]) == multiset(s)
  {
    var done := now[j + 1 := s[i]];
    var a, b, c := s[..j + 1], s[j + 1..i], s[i + 1..];
    assert done == a + [s[i]] + b + c;
    assert s == a + b + [s[i]] + c;
    hide Shifted;
  }

  lemma InsertedOrder(s: seq<nat>, now: seq<nat>, i: nat, j: int)
    requires Shifted(s, now, i, j) && Ascending(s[..i]) && (j >= 0 ==> now[j] <= s[i])
    ensures Ascending(now[j + 1 := s[i]][..i + 1])
  {
    var done := now[j + 1 := s[i]];
    assert forall k :: 0 <= k < i ==> s[..i][k] == s[k];
    forall a, b | 0 <= a < b < i + 1 ensures done[a] <= done[b] {
      var a', b' := if a <= j then a else a - 1, if b <= j then b else b - 1;
      if a != j + 1 && b != j + 1 { assert s[..i][a'] <= s[..i][b']; }
      else if b == j + 1 && a < j { assert s[..i][a] <= s[..i][j]; }
    }
  }

  /** The inner loop: the i-th entry moves down to its place among the sorted ones before it. */
  method Insert(a: array<nat>, i: nat)
    requires i < a.Length && Ascending(a[..i])
    modifies a
    ensures Ascending(a[..i + 1]) && multiset(a[..]) == multiset(old(a[..]))
  {
    hide Shifted, Ascending;
    var v := a[i];
    ghost var s := a[..];
    assert s[..i] == a[..i];
    ShiftStart(s, i);
    var j := i - 1;
    while j >= 0 && a[j] > v
      invariant -1 <= j < i && Shifted(s, a[..], i, j)
    {
      ShiftStep(s, a[..], i, j);
      ghost var now := a[..];
      a[j + 1] := a[j];
      assert a[..] == now[j + 1 := now[j]];
      j := j - 1;
    }
    ghost var now := a[..];
    Inserted(s, now, i, j);
    a[j + 1] := v;
    assert a[..] == now[j + 1 := v];
    assert a[..i + 1] == a[..][..i + 1];
  }

  lemma Inserted(s: seq<nat>, now: seq<nat>, i: nat, j: int)
    requires Shifted(s, now, i, j) && Ascending(s[..i]) && (j >= 0 ==> now[j] <= s[i])
    ensures |now| == |s| && Ascending(now[j + 1 := s[i]][..i + 1]) && multiset(now[j + 1 := s[i]]) == multiset(s)
  {
    InsertedOrder(s, now, i, j);
    InsertedContents(s, now, i, j);
    hide Ascending;
  }

  method SortInts(a: array<nat>)
    modifies a
    ensures Ascending(a[..]) && multiset(a[..]) == multiset(old(a[..]))
  {
    hide Ascending;
    Trivial(a[..]);
    var i := 1;
    assert a.Length >= 1 ==> a[..][..1] == a[..1];
    while i < a.Length
      invariant 1 <= i && (i <= a.Length || a.Length == 0)
      invariant if i <= a.Length then Ascending(a[..i]) else Ascending(a[..])
      invariant multiset(a[..]) == multiset(old(a[..]))
    {
      Insert(a, i);
      i := i + 1;
    }
    assert a.Length > 0 ==> a[..i] == a[..];
  }

  lemma Trivial(s: seq<nat>)
    ensures if |s| >= 1 then Ascending(s[..1]) else Ascending(s)
  {
  }

  // ---- Grouping ----

  datatype Group = Group(key: Identity, idxs: seq<nat>)

  ghost predicate Increasing(s: seq<nat>) { forall i, j :: 0 <= i < j < |s| ==> s[i] < s[j] }

  /** A group holds the places of its identity among the first n actions, ascending. */
  ghost predicate Holds(actions: seq<LegalAction>, n: nat, group: Group) {
    && n <= |actions| && group.idxs != [] && Increasing(group.idxs)
    && forall i: nat :: i in group.idxs <==> i < n && actions[i].identity == group.key
  }

  /** The first n actions by identity, the groups in order of first appearance. */
  ghost predicate Grouped(actions: seq<LegalAction>, n: nat, groups: seq<Group>, place: map<Identity, nat>) {
    && n <= |actions|
    && (forall g :: 0 <= g < |groups| ==> groups[g].key in place && place[groups[g].key] == g)
    && (forall key :: key in place ==> place[key] < |groups| && groups[place[key]].key == key)
    && (forall i :: 0 <= i < n ==> actions[i].identity in place)
    && forall g :: 0 <= g < |groups| ==> Holds(actions, n, groups[g])
  }

  lemma HoldsMore(actions: seq<LegalAction>, n: nat, group: Group)
    requires Holds(actions, n, group) && n < |actions|
    ensures Holds(actions, n + 1, if actions[n].identity == group.key then group.(idxs := group.idxs + [n]) else group)
  {
    forall k | 0 <= k < |group.idxs| ensures group.idxs[k] < n { assert group.idxs[k] in group.idxs; }
    if actions[n].identity == group.key {
      var more := group.idxs + [n];
      forall a, b | 0 <= a < b < |more| ensures more[a] < more[b] {
        assert a < |group.idxs| && group.idxs[a] < n;
      }
      assert forall i: nat :: i in more <==> i in group.idxs || i == n;
    }
  }

  lemma NewGroup(actions: seq<LegalAction>, n: nat, key: Identity)
    requires n < |actions| && actions[n].identity == key && forall i :: 0 <= i < n ==> actions[i].identity != key
    ensures Holds(actions, n + 1, Group(key, [n]))
  {
    assert forall i: nat :: i in [n] <==> i == n;
  }

  lemma GroupedMore(actions: seq<LegalAction>, n: nat, groups: seq<Group>, place: map<Identity, nat>)
    requires Grouped(actions, n, groups, place) && n < |actions|
    ensures var key := actions[n].identity;
      if key in place
      then place[key] < |groups| && Grouped(actions, n + 1, groups[place[key] := groups[place[key]].(idxs := groups[place[key]].idxs + [n])], place)
      else Grouped(actions, n + 1, groups + [Group(key, [n])], place[key := |groups|])
  {
    hide Holds;
    var key := actions[n].identity;
    forall g | 0 <= g < |groups| ensures Holds(actions, n + 1, if key == groups[g].key then groups[g].(idxs := groups[g].idxs + [n]) else groups[g]) {
      HoldsMore(actions, n, groups[g]);
    }
    if key !in place { NewGroup(actions, n, key); }
  }

  /** i is the first of the cheapest in its group. */
  predicate BestIn(actions: seq<LegalAction>, values: Dice, idxs: seq<nat>, i: nat) {
    && i in idxs && (forall j :: j in idxs ==> j < |actions|)
    && forall j :: j in idxs && j != i ==>
         Cheaper(actions[i], actions[j], values) || (!Cheaper(actions[j], actions[i], values) && i < j)
  }

  lemma Better(a: LegalAction, b: LegalAction, c: LegalAction, values: Dice)
    requires a.identity == b.identity == c.identity
    ensures !Cheaper(a, a, values)
    ensures Cheaper(a, b, values) ==> !Cheaper(b, a, values)
    ensures Cheaper(a, b, values) && !Cheaper(c, b, values) ==> Cheaper(a, c, values)
    ensures Cheaper(a, b, values) && Cheaper(b, c, values) ==> Cheaper(a, c, values)
    ensures !Cheaper(a, b, values) && !Cheaper(b, c, values) ==> !Cheaper(a, c, values)
  {
    hide Cost;
  }

  /** The inner choice of one group. */
  method BestOf(actions: seq<LegalAction>, values: Dice, idxs: seq<nat>) returns (best: nat)
    requires idxs != [] && Increasing(idxs) && forall k :: 0 <= k < |idxs| ==> idxs[k] < |actions| && actions[idxs[k]].identity == actions[idxs[0]].identity
    ensures BestIn(actions, values, idxs, best)
  {
    hide Dot, Cheaper;
    best := idxs[0];
    var kind := actions[best].identity[0];
    var bestCost := PaymentCost(actions[best].payment, values);
    for k := 1 to |idxs|
      invariant best in idxs[..k] && best < |actions| && bestCost == Cost(actions[best], values)
      invariant actions[best].identity == actions[idxs[0]].identity
      invariant forall j :: 0 <= j < k && idxs[j] != best ==>
        Cheaper(actions[best], actions[idxs[j]], values) || (!Cheaper(actions[idxs[j]], actions[best], values) && best < idxs[j])
    {
      var i := idxs[k];
      assert best < i;
      var cost := PaymentCost(actions[i].payment, values);
      var cheaper := cost < bestCost || (kind == TUNE && cost == bestCost && actions[i].index < actions[best].index);
      CheaperIs(actions[i], actions[best], values);
      Better(actions[best], actions[i], actions[best], values);
      if cheaper {
        forall j | 0 <= j < k ensures Cheaper(actions[i], actions[idxs[j]], values) {
          Better(actions[i], actions[best], actions[idxs[j]], values);
          Better(actions[best], actions[idxs[j]], actions[i], values);
        }
        best, bestCost := i, cost;
      }
    }
  }

  lemma CheaperIs(a: LegalAction, b: LegalAction, values: Dice)
    ensures Cheaper(a, b, values) <==>
      Cost(a, values) < Cost(b, values) || (Cost(a, values) == Cost(b, values) && a.identity[0] == TUNE && a.index < b.index)
  {
  }

  lemma GroupBest(actions: seq<LegalAction>, values: Dice, groups: seq<Group>, place: map<Identity, nat>, g: nat, i: nat)
    requires Grouped(actions, |actions|, groups, place) && g < |groups| && BestIn(actions, values, groups[g].idxs, i)
    ensures Chosen(actions, values, i) && actions[i].identity == groups[g].key
    ensures forall k: nat :: k < |actions| && actions[k].identity == groups[g].key && Chosen(actions, values, k) ==> k == i
  {
    hide Cheaper;
    assert i in groups[g].idxs;
    forall k: nat | k < |actions| && actions[k].identity == groups[g].key && Chosen(actions, values, k) ensures k == i {
      assert k in groups[g].idxs;
      if k != i { Better(actions[i], actions[k], actions[i], values); }
    }
  }

  /** Ascending, and exactly the first cheapest action of each identity. */
  ghost predicate IsFold(actions: seq<LegalAction>, values: Dice, chosen: seq<nat>) {
    Increasing(chosen) && forall i: nat :: i in chosen <==> Chosen(actions, values, i)
  }

  /** The choices for the first n groups. */
  ghost predicate Picks(actions: seq<LegalAction>, values: Dice, groups: seq<Group>, n: nat, chosen: seq<nat>) {
    && n <= |groups| && |chosen| == n
    && forall g :: 0 <= g < n ==> chosen[g] < |actions| && BestIn(actions, values, groups[g].idxs, chosen[g])
  }

  lemma PicksAll(actions: seq<LegalAction>, values: Dice, groups: seq<Group>, place: map<Identity, nat>, chosen: seq<nat>, sorted: seq<nat>)
    requires Grouped(actions, |actions|, groups, place) && Picks(actions, values, groups, |groups|, chosen)
    requires Ascending(sorted) && multiset(sorted) == multiset(chosen)
    ensures IsFold(actions, values, sorted)
  {
    hide BestIn, Chosen, Increasing;
    forall i: nat ensures i in chosen <==> Chosen(actions, values, i) {
      if i in chosen {
        var g :| 0 <= g < |chosen| && chosen[g] == i;
        GroupBest(actions, values, groups, place, g, i);
      }
      if Chosen(actions, values, i) {
        ChosenInside(actions, values, i);
        var g := place[actions[i].identity];
        GroupBest(actions, values, groups, place, g, chosen[g]);
      }
    }
    forall g, h | 0 <= g < h < |chosen| ensures chosen[g] != chosen[h] {
      GroupBest(actions, values, groups, place, g, chosen[g]);
      GroupBest(actions, values, groups, place, h, chosen[h]);
      assert place[groups[g].key] == g && place[groups[h].key] == h;
    }
    hide Grouped, Picks;
    assert forall i :: i in sorted <==> i in multiset(sorted);
    assert forall i :: i in chosen <==> i in multiset(chosen);
    DistinctSorted(chosen, sorted);
  }

  lemma ChosenInside(actions: seq<LegalAction>, values: Dice, i: nat)
    requires Chosen(actions, values, i)
    ensures i < |actions|
  {
  }

  lemma {:induction false} DistinctCount(s: seq<nat>, x: nat)
    requires forall i, j :: 0 <= i < j < |s| ==> s[i] != s[j]
    ensures multiset(s)[x] <= 1
  {
    if s != [] {
      var front := s[..|s| - 1];
      DistinctCount(front, x);
      assert s == front + [s[|s| - 1]];
      assert s[|s| - 1] !in front;
    }
  }

  lemma DistinctSorted(chosen: seq<nat>, sorted: seq<nat>)
    requires forall i, j :: 0 <= i < j < |chosen| ==> chosen[i] != chosen[j]
    requires Ascending(sorted) && multiset(sorted) == multiset(chosen)
    ensures Increasing(sorted)
  {
    forall i, j | 0 <= i < j < |sorted| ensures sorted[i] < sorted[j] {
      DistinctCount(chosen, sorted[i]);
      assert sorted == sorted[..j] + sorted[j..];
      assert sorted[i] in sorted[..j] && sorted[j] in sorted[j..];
      assert multiset(sorted)[sorted[i]] == multiset(sorted[..j])[sorted[i]] + multiset(sorted[j..])[sorted[i]];
    }
  }

  /** filterLogicalActions, with the colour values given. */
  method FilterLogicalActions(actions: seq<LegalAction>, values: Dice) returns (chosen: seq<nat>)
    ensures IsFold(actions, values, chosen)
    ensures actions != [] <==> chosen != []
  {
    hide Grouped, Picks, BestIn, IsFold, Ascending, Increasing, Chosen;
    var groups: seq<Group> := [];
    var place: map<Identity, nat> := map[];
    NoGroups(actions, values);
    for i := 0 to |actions|
      invariant Grouped(actions, i, groups, place)
    {
      GroupedMore(actions, i, groups, place);
      var key := actions[i].identity;
      if key in place {
        var g := place[key];
        groups := groups[g := groups[g].(idxs := groups[g].idxs + [i])];
      } else {
        place := place[key := |groups|];
        groups := groups + [Group(key, [i])];
      }
    }
    var picks: seq<nat> := [];
    for g := 0 to |groups|
      invariant Picks(actions, values, groups, g, picks)
    {
      GroupFacts(actions, groups, place, g);
      var best := BestOf(actions, values, groups[g].idxs);
      PicksMore(actions, values, groups, g, picks, best);
      picks := picks + [best];
    }
    var a := new nat[|picks|](k requires 0 <= k < |picks| => picks[k]);
    assert a[..] == picks;
    SortInts(a);
    chosen := a[..];
    PicksAll(actions, values, groups, place, picks, chosen);
    FoldEmpty(actions, values, groups, place, picks, chosen);
  }

  lemma FoldEmpty(actions: seq<LegalAction>, values: Dice, groups: seq<Group>, place: map<Identity, nat>, picks: seq<nat>, chosen: seq<nat>)
    requires Grouped(actions, |actions|, groups, place) && Picks(actions, values, groups, |groups|, picks)
    requires multiset(chosen) == multiset(picks)
    ensures actions != [] <==> chosen != []
  {
    assert |chosen| == |multiset(chosen)| && |picks| == |multiset(picks)|;
    if actions != [] { assert actions[0].identity in place; }
    if groups != [] { assert groups[0].idxs[0] in groups[0].idxs; }
    hide BestIn;
  }

  lemma NoGroups(actions: seq<LegalAction>, values: Dice)
    ensures Grouped(actions, 0, [], map[]) && Picks(actions, values, [], 0, [])
    ensures forall groups :: Picks(actions, values, groups, 0, [])
  {
  }

  lemma GroupFacts(actions: seq<LegalAction>, groups: seq<Group>, place: map<Identity, nat>, g: nat)
    requires Grouped(actions, |actions|, groups, place) && g < |groups|
    ensures groups[g].idxs != [] && Increasing(groups[g].idxs)
    ensures forall k :: 0 <= k < |groups[g].idxs| ==>
      groups[g].idxs[k] < |actions| && actions[groups[g].idxs[k]].identity == actions[groups[g].idxs[0]].identity
  {
    assert Holds(actions, |actions|, groups[g]);
    hide Increasing;
    forall k | 0 <= k < |groups[g].idxs|
      ensures groups[g].idxs[k] < |actions| && actions[groups[g].idxs[k]].identity == groups[g].key
    {
      assert groups[g].idxs[k] in groups[g].idxs;
    }
  }

  lemma PicksMore(actions: seq<LegalAction>, values: Dice, groups: seq<Group>, g: nat, picks: seq<nat>, best: nat)
    requires Picks(actions, values, groups, g, picks) && g < |groups| && BestIn(actions, values, groups[g].idxs, best)
    ensures Picks(actions, values, groups, g + 1, picks + [best])
  {
    assert best in groups[g].idxs;
  }

  lemma LastOf(a: seq<nat>)
    requires Increasing(a) && a != []
    ensures forall x :: x in a ==> x <= a[|a| - 1]
    ensures forall x :: x in a[..|a| - 1] <==> x in a && x != a[|a| - 1]
    ensures Increasing(a[..|a| - 1])
  {
    assert a == a[..|a| - 1] + [a[|a| - 1]];
  }

  /** A fold is unique. */
  lemma {:induction false} FoldUnique(a: seq<nat>, b: seq<nat>)
    requires Increasing(a) && Increasing(b) && forall i: nat :: i in a <==> i in b
    ensures a == b
  {
    hide Increasing;
    assert b == [] || b[0] in b;
    if a != [] {
      assert a[|a| - 1] in b;
      assert b != [] && b[|b| - 1] in a;
      LastOf(a);
      LastOf(b);
      var front, front' := a[..|a| - 1], b[..|b| - 1];
      forall i: nat ensures i in front <==> i in front' { assert i in a <==> i in b; }
      FoldUnique(front, front');
      assert a == front + [a[|a| - 1]] && b == front' + [b[|b| - 1]];
    }
  }

  /** The chosen indices below n, ascending. */
  function Folded(actions: seq<LegalAction>, values: Dice, n: nat): seq<nat> {
    if n == 0 then [] else Folded(actions, values, n - 1) + if Chosen(actions, values, n - 1) then [n - 1] else []
  }

  lemma {:induction false} FoldedIs(actions: seq<LegalAction>, values: Dice, n: nat)
    ensures Increasing(Folded(actions, values, n))
    ensures forall i: nat :: i in Folded(actions, values, n) <==> i < n && Chosen(actions, values, i)
  {
    hide Chosen;
    if n > 0 {
      FoldedIs(actions, values, n - 1);
      var front := Folded(actions, values, n - 1);
      assert forall k :: 0 <= k < |front| ==> front[k] in front;
    }
  }

  /** The fold as a function: what every fold equals. */
  lemma FoldIs(actions: seq<LegalAction>, values: Dice, chosen: seq<nat>)
    requires IsFold(actions, values, chosen)
    ensures chosen == Folded(actions, values, |actions|)
  {
    hide Chosen;
    FoldedIs(actions, values, |actions|);
    forall i: nat | Chosen(actions, values, i) ensures i < |actions| { ChosenInside(actions, values, i); }
    FoldUnique(chosen, Folded(actions, values, |actions|));
  }

  /** Every legal action is represented by exactly one action of the fold: none with its identity is cheaper;
      of those that cost the same a tuning has the lowest hand index, and any other is the first. */
  lemma Represented(actions: seq<LegalAction>, values: Dice, chosen: seq<nat>, i: nat) returns (k: nat)
    requires IsFold(actions, values, chosen) && i < |actions|
    ensures k in chosen && k < |actions| && actions[k].identity == actions[i].identity
    ensures forall j :: 0 <= j < |actions| && actions[j].identity == actions[i].identity ==>
      && Cost(actions[k], values) <= Cost(actions[j], values)
      && (Cost(actions[k], values) == Cost(actions[j], values) ==>
            if actions[k].identity[0] == TUNE && actions[k].index != actions[j].index then actions[k].index < actions[j].index else k <= j)
    ensures forall j :: j in chosen && j < |actions| && actions[j].identity == actions[i].identity ==> j == k
  {
    k := FirstCheapest(actions, values, i, |actions|);
    assert Chosen(actions, values, k);
    forall j | j in chosen && j < |actions| && actions[j].identity == actions[i].identity ensures j == k {
      assert Chosen(actions, values, j);
      if j != k { Better(actions[k], actions[j], actions[k], values); }
    }
    hide Cost;
    forall j | 0 <= j < |actions| && actions[j].identity == actions[i].identity && j != k
      ensures Cheaper(actions[k], actions[j], values) || (!Cheaper(actions[j], actions[k], values) && k < j)
    {
      assert actions[j].identity == actions[k].identity;
    }
  }

  /** The first cheapest among the first n actions of i's identity. */
  lemma {:induction false} FirstCheapest(actions: seq<LegalAction>, values: Dice, i: nat, n: nat) returns (k: nat)
    requires i < |actions| && n <= |actions|
    ensures k < |actions| && actions[k].identity == actions[i].identity && (k < n || k == i)
    ensures forall j :: 0 <= j < n && actions[j].identity == actions[i].identity && j != k ==>
      Cheaper(actions[k], actions[j], values) || (!Cheaper(actions[j], actions[k], values) && k < j)
    decreases n
  {
    hide Cheaper;
    if n == 0 {
      k := i;
    } else {
      k := FirstCheapest(actions, values, i, n - 1);
      var m := n - 1;
      if actions[m].identity == actions[i].identity && m != k {
        Better(actions[m], actions[k], actions[m], values);
        if Cheaper(actions[m], actions[k], values) || (!Cheaper(actions[k], actions[m], values) && m < k) {
          forall j | 0 <= j < n && actions[j].identity == actions[i].identity && j != m
            ensures Cheaper(actions[m], actions[j], values) || (!Cheaper(actions[j], actions[m], values) && m < j)
          {
            Better(actions[m], actions[k], actions[j], values);
            Better(actions[k], actions[j], actions[m], values);
            Better(actions[j], actions[k], actions[m], values);
          }
          k := m;
        }
      }
    }
  }
}
