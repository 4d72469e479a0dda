/** Choosing a child of a tree node that other workers grow at the same time: action_id.go, puct.go and
    rollout_helpers.go of gicg_mcts. */
module Selection {

  type Payment = p: seq<int> | |p| == 8 witness [0, 0, 0, 0, 0, 0, 0, 0]

  datatype ActionId = ActionId(kind: int, subA: int, subB: int, subC: int, subD: int, payment: Payment)

  datatype Option<T> = None | Some(value: T)

  // ---- Order ----

  /** The tuple an ActionId stands for. */
  function Key(a: ActionId): (k: seq<int>)
    ensures |k| == 13
  {
    [a.kind, a.subA, a.subB, a.subC, a.subD] + a.payment
  }

  /** Tuple comparison: the first place where the two differ decides. */
  ghost predicate Before(a: seq<int>, b: seq<int>) {
    exists i :: 0 <= i < |a| && i < |b| && a[..i] == b[..i] && a[i] < b[i]
  }

  ghost predicate Smaller(a: ActionId, b: ActionId) { Before(Key(a), Key(b)) }

  lemma KeyIdentifies(a: ActionId, b: ActionId)
    requires Key(a) == Key(b)
    ensures a == b
  {
    assert a.payment == Key(a)[5..] && b.payment == Key(b)[5..];
    assert Key(a)[0] == a.kind && Key(a)[1] == a.subA && Key(a)[2] == a.subB && Key(a)[3] == a.subC && Key(a)[4] == a.subD;
  }

  method Less(a: ActionId, b: ActionId) returns (less: bool)
    ensures less <==> Smaller(a, b)
  {
    ghost var x, y := Key(a), Key(b);
    if a.kind != b.kind { Decides(x, y, 0); return a.kind < b.kind; }
    if a.subA != b.subA { Decides(x, y, 1); return a.subA < b.subA; }
    if a.subB != b.subB { Decides(x, y, 2); return a.subB < b.subB; }
    if a.subC != b.subC { Decides(x, y, 3); return a.subC < b.subC; }
    if a.subD != b.subD { Decides(x, y, 4); return a.subD < b.subD; }
    for i := 0 to 8
      invariant forall j :: 0 <= j < 5 + i ==> x[j] == y[j]
    {
      if a.payment[i] != b.payment[i] {
        Decides(x, y, 5 + i);
        return a.payment[i] < b.payment[i];
      }
      assert x[5 + i] == y[5 + i];
    }
    return false;
  }

  /** Where two tuples agree up to a differing place, that place decides. */
  lemma Decides(a: seq<int>, b: seq<int>, i: nat)
    requires i < |a| == |b| && (forall j :: 0 <= j < i ==> a[j] == b[j]) && a[i] != b[i]
    ensures Before(a, b) <==> a[i] < b[i]
  {
    assert a[..i] == b[..i];
    if j :| 0 <= j < |a| && a[..j] == b[..j] && a[j] < b[j] {
      if i < j { assert a[..j][i] == b[..j][i]; }
    }
  }

  lemma FirstDifference(a: seq<int>, b: seq<int>) returns (i: nat)
    requires |a| == |b| && a != b
    ensures i < |a| && a[i] != b[i] && forall j :: 0 <= j < i ==> a[j] == b[j]
  {
    i := 0;
    while i < |a| && a[i] == b[i]
      invariant i <= |a| && forall j :: 0 <= j < i ==> a[j] == b[j]
    {
      i := i + 1;
    }
    assert i == |a| ==> a == b;
  }

  /** Less is a strict total order, and incomparable ids are equal. */
  lemma StrictTotalOrder(a: ActionId, b: ActionId, c: ActionId)
    ensures !Smaller(a, a)
    ensures a != b ==> Smaller(a, b) != Smaller(b, a)
    ensures Smaller(a, b) && Smaller(b, c) ==> Smaller(a, c)
  {
    if a != b {
      if Key(a) == Key(b) { KeyIdentifies(a, b); }
      var i := FirstDifference(Key(a), Key(b));
      Decides(Key(a), Key(b), i);
      Decides(Key(b), Key(a), i);
    }
    if Smaller(a, b) && Smaller(b, c) { Transitive(Key(a), Key(b), Key(c)); }
  }

  lemma Transitive(a: seq<int>, b: seq<int>, c: seq<int>)
    requires |a| == |b| == |c| && Before(a, b) && Before(b, c)
    ensures Before(a, c)
  {
    var i :| 0 <= i < |a| && a[..i] == b[..i] && a[i] < b[i];
    var j :| 0 <= j < |b| && b[..j] == c[..j] && b[j] < c[j];
    var k := if i < j then i else j;
    forall m | 0 <= m < k ensures a[m] == c[m] {
      assert a[..i][m] == b[..i][m] && b[..j][m] == c[..j][m];
    }
    if i < j { assert b[..j][i] == c[..j][i]; }
    if j < i { assert a[..i][j] == b[..i][j]; }
    Decides(a, c, k);
  }

  // ---- Slots ----

  /** The first slot of an action, or |actions|. */
  function Slot(actions: seq<ActionId>, a: ActionId): (i: nat)
    ensures i <= |actions| && (a in actions <==> i < |actions|) && (i < |actions| ==> actions[i] == a)
    ensures forall j :: 0 <= j < i ==> actions[j] != a
  {
    if actions == [] then 0 else if actions[0] == a then 0 else 1 + Slot(actions[1..], a)
  }

  /** Slot i may be chosen: it is the first slot of some legal action. */
  ghost predicate Eligible(actions: seq<ActionId>, legal: seq<ActionId>, i: int) {
    0 <= i < |actions| && actions[i] in legal && Slot(actions, actions[i]) == i
  }

  /** The best eligible slot: highest score, then smallest id. */
  ghost predicate Best(actions: seq<ActionId>, legal: seq<ActionId>, score: nat -> real, i: nat) {
    && Eligible(actions, legal, i)
    && forall j :: Eligible(actions, legal, j) && j != i ==>
         score(i) > score(j) || (score(i) == score(j) && Smaller(actions[i], actions[j]))
  }

  /** Slot i has the higher score, or the same score and no larger an id. */
  ghost predicate NotWorse(actions: seq<ActionId>, score: nat -> real, i: nat, j: nat)
    requires i < |actions| && j < |actions|
  {
    || score(i) > score(j)
    || (score(i) == score(j) && (Smaller(actions[i], actions[j]) || actions[i] == actions[j]))
  }

  lemma BestSlot(actions: seq<ActionId>, legal: seq<ActionId>, score: nat -> real, i: nat)
    requires Best(actions, legal, score, i)
    ensures i < |actions| && Slot(actions, actions[i]) == i
  {
  }

  lemma BestIsUnique(actions: seq<ActionId>, legal: seq<ActionId>, score: nat -> real, i: nat, j: nat)
    requires Best(actions, legal, score, i) && Best(actions, legal, score, j)
    ensures i == j
  {
    if i != j { StrictTotalOrder(actions[i], actions[j], actions[i]); }
  }

  /** Growth by others never moves an action to another slot, even when ids repeat. */
  lemma SlotStays(actions: seq<ActionId>, more: seq<ActionId>, a: ActionId)
    requires a in actions
    ensures Slot(actions + more, a) == Slot(actions, a)
  {
    var i, j := Slot(actions, a), Slot(actions + more, a);
    assert forall k :: 0 <= k < |actions| ==> (actions + more)[k] == actions[k];
  }

  // ---- Node ----

  /** The ids of `legal` that `known` lacks, in order and with repetitions. */
  function Missing(legal: seq<ActionId>, known: seq<ActionId>): (m: seq<ActionId>)
    ensures forall a :: a in m <==> a in legal && a !in known
  {
    if legal == [] then []
    else Missing(legal[..|legal| - 1], known) + (if legal[|legal| - 1] in known then [] else [legal[|legal| - 1]])
  }

  /** `m` holds the legal ids at exactly the places whose id is not known, in order. */
  ghost predicate Picked(legal: seq<ActionId>, known: seq<ActionId>, places: seq<nat>, m: seq<ActionId>) {
    && |m| == |places| && (forall i, j :: 0 <= i < j < |places| ==> places[i] < places[j])
    && (forall k: nat :: k in places <==> k < |legal| && legal[k] !in known)
    && forall i :: 0 <= i < |m| ==> places[i] < |legal| && m[i] == legal[places[i]]
  }

  lemma PickedMore(legal: seq<ActionId>, known: seq<ActionId>, places: seq<nat>, m: seq<ActionId>, a: ActionId)
    requires Picked(legal, known, places, m)
    ensures a in known ==> Picked(legal + [a], known, places, m)
    ensures a !in known ==> Picked(legal + [a], known, places + [|legal|], m + [a])
  {
    var more := legal + [a];
    assert forall k: nat :: k in places ==> k < |legal|;
    assert forall i :: 0 <= i < |places| ==> places[i] in places;
    forall k: nat ensures k < |more| && more[k] !in known <==> k in places || (k == |legal| && a !in known) { }
    if a !in known {
      var longer := places + [|legal|];
      forall k: nat ensures k in longer <==> k in places || k == |legal| { }
    }
  }

  lemma MissingStep(legal: seq<ActionId>, known: seq<ActionId>)
    ensures legal == [] ==> Missing(legal, known) == [] && Picked(legal, known, [], [])
    ensures legal != [] ==>
      var front, last := legal[..|legal| - 1], legal[|legal| - 1];
      legal == front + [last] && Missing(legal, known) == if last in known then Missing(front, known) else Missing(front, known) + [last]
  {
  }

  lemma {:induction false} MissingPicked(legal: seq<ActionId>, known: seq<ActionId>) returns (places: seq<nat>)
    ensures Picked(legal, known, places, Missing(legal, known))
  {
    hide Picked, Missing;
    MissingStep(legal, known);
    if legal == [] { return []; }
    var front, last := legal[..|legal| - 1], legal[|legal| - 1];
    var before := MissingPicked(front, known);
    PickedMore(front, known, before, Missing(front, known), last);
    places := if last in known then before else before + [|front|];
  }

  ghost predicate Distinct<T>(s: seq<T>) { forall i, j :: 0 <= i < j < |s| ==> s[i] != s[j] }

  /** Adding legal ids keeps a node's ids distinct iff the new legal ids do not repeat. */
  lemma AddKeepsDistinct(known: seq<ActionId>, legal: seq<ActionId>)
    ensures Distinct(known + Missing(legal, known)) <==> Distinct(known) && Distinct(Missing(legal, known))
  {
    var added := Missing(legal, known);
    var all := known + added;
    if Distinct(all) {
      forall i, j | 0 <= i < j < |known| ensures known[i] != known[j] { assert all[i] != all[j]; }
      forall i, j | 0 <= i < j < |added| ensures added[i] != added[j] { assert all[|known| + i] != all[|known| + j]; }
    }
    if Distinct(known) && Distinct(added) {
      forall i, j | 0 <= i < j < |all| ensures all[i] != all[j] {
        if i < |known| <= j { assert all[j] in added && all[i] in known; }
      }
    }
  }

  /** An id that is legal twice and unknown is appended twice. */
  lemma RepeatedIdIsAppendedTwice(a: ActionId)
    ensures Missing([a, a], []) == [a, a] && Distinct<ActionId>([]) && !Distinct([] + Missing([a, a], []))
  {
    assert [a, a][..1] == [a] && [a][..0] == [];
    assert Missing([a], []) == [a];
    var both := [] + [a, a];
    assert both[0] == both[1];
  }

  class Pool {
    var size: nat
  }

  /** An expanded node.  `avail[i]` is NAvail of children[i]. */
  class Node {
    var children: seq<nat>
    var actions: seq<ActionId>
    var avail: seq<nat>

    ghost predicate Valid()
      reads this
    {
      |children| == |actions| == |avail|
    }

    /** What other workers may do between two critical sections of one worker. */
    method Grow(pool: Pool, more: seq<ActionId>)
      requires Valid()
      modifies this, pool
      ensures Valid() && actions == old(actions) + more
      ensures children[..|old(children)|] == old(children) && avail[..|old(avail)|] == old(avail)
      ensures forall i :: |old(actions)| <= i < |actions| ==> children[i] == old(pool.size) + i - |old(actions)|
      ensures pool.size == old(pool.size) + |more|
    {
      actions := actions + more;
      var base := pool.size;
      children := children + seq(|more|, i requires 0 <= i < |more| => base + i);
      avail := avail + seq(|more|, i requires 0 <= i < |more| => 0);
      pool.size := pool.size + |more|;
    }

    method HasNewActions(legal: seq<ActionId>) returns (missing: bool)
      ensures missing <==> exists a :: a in legal && a !in actions
    {
      for k := 0 to |legal|
        invariant forall i :: 0 <= i < k ==> legal[i] in actions
      {
        var found := false;
        for i := 0 to |actions|
          invariant !found && forall j :: 0 <= j < i ==> actions[j] != legal[k]
        {
          if actions[i] == legal[k] { found := true; break; }
        }
        if !found {
          assert legal[k] in legal;
          return true;
        }
      }
      return false;
    }

    /** One child for every legal id the node lacks; the count of them. */
    method AddNewActionsUniform(pool: Pool, legal: seq<ActionId>) returns (added: nat)
      requires Valid()
      modifies this, pool
      ensures Valid() && actions == old(actions) + Missing(legal, old(actions)) && added == |actions| - |old(actions)|
      ensures old(actions) <= actions && exists places :: Picked(legal, old(actions), places, actions[|old(actions)|..])
      ensures forall a :: a in legal ==> a in actions
      ensures children[..|old(children)|] == old(children) && avail[..|old(avail)|] == old(avail)
      ensures forall i :: |old(children)| <= i < |children| ==> old(pool.size) <= children[i] < pool.size
      ensures Distinct(children[|old(children)|..])
    {
      hide Picked;
      var existing := set i | 0 <= i < |actions| :: actions[i];
      var newChildren: seq<nat>, newActions: seq<ActionId> := [], [];
      ghost var first := pool.size;
      for k := 0 to |legal|
        invariant Valid() && actions == old(actions) && children == old(children) && avail == old(avail)
        invariant newActions == Missing(legal[..k], actions) && |newChildren| == |newActions|
        invariant pool.size == first + |newChildren|
        invariant forall i :: 0 <= i < |newChildren| ==> newChildren[i] == first + i
      {
        assert legal[..k + 1][..k] == legal[..k];
        if legal[k] in existing { continue; }
        var child := pool.size;
        pool.size := pool.size + 1;
        newChildren := newChildren + [child];
        newActions := newActions + [legal[k]];
      }
      assert legal[..|legal|] == legal;
      children, actions := children + newChildren, actions + newActions;
      avail := avail + seq(|newActions|, i requires 0 <= i < |newActions| => 0);
      assert children[|old(children)|..] == newChildren;
      added := |newChildren|;
      ghost var places := MissingPicked(legal, old(actions));
      assert actions[|old(actions)|..] == Missing(legal, old(actions));
    }

    /** `score(i)` is what PUCTScore returned when the loop reached slot i; None is the panic. */
    method SelectChild(mask: seq<bool>, score: nat -> real) returns (best: Option<nat>)
      requires Valid() && |mask| == |actions|
      ensures best.None? <==> forall i :: 0 <= i < |mask| ==> !mask[i]
      ensures best.Some? ==> best.value < |mask| && mask[best.value]
      ensures best.Some? ==> forall j :: 0 <= j < |mask| && mask[j] ==> NotWorse(actions, score, best.value, j)
    {
      best := None;
      for i := 0 to |mask|
        invariant best.None? <==> forall j :: 0 <= j < i ==> !mask[j]
        invariant best.Some? ==> best.value < i && mask[best.value]
        invariant best.Some? ==> forall j :: 0 <= j < i && mask[j] ==> NotWorse(actions, score, best.value, j)
      {
        if !mask[i] { continue; }
        if best.None? {
          best := Some(i);
          continue;
        }
        var less := Less(actions[i], actions[best.value]);
        forall j | 0 <= j < i ensures
          (Smaller(actions[i], actions[best.value]) && Smaller(actions[best.value], actions[j]) ==> Smaller(actions[i], actions[j]))
          && (actions[i] != actions[best.value] && !less ==> Smaller(actions[best.value], actions[i]))
        {
          StrictTotalOrder(actions[i], actions[best.value], actions[j]);
        }
        if score(i) > score(best.value) || (score(i) == score(best.value) && less) { best := Some(i); }
      }
    }

    /** Marks the first slot of every legal id. */
    method LegalMask(legal: seq<ActionId>) returns (mask: seq<bool>)
      ensures |mask| == |actions| && forall i :: 0 <= i < |mask| ==> (mask[i] <==> Eligible(actions, legal, i))
    {
      mask := seq(|actions|, i => false);
      for k := 0 to |legal|
        invariant |mask| == |actions|
        invariant forall i :: 0 <= i < |mask| ==> (mask[i] <==> Eligible(actions, legal[..k], i))
      {
        for i := 0 to |actions|
          invariant forall j :: 0 <= j < i ==> actions[j] != legal[k]
        {
          if actions[i] == legal[k] {
            mask := mask[i := true];
            break;
          }
        }
        ghost var slot := Slot(actions, legal[k]);
        assert legal[..k + 1] == legal[..k] + [legal[k]];
      }
      assert legal[..|legal|] == legal;
    }

    /** The chosen child with its action and the action's index in `legal`.  Some exactly when a legal id
        is among the node's; the "not in current legal set" error cannot happen then. */
    method SelectAndMap(legal: seq<ActionId>, score: nat -> real) returns (slot: Option<nat>, step: int)
      requires Valid()
      modifies this`avail
      ensures Valid() && (slot.Some? <==> exists a :: a in legal && a in actions)
      ensures slot.Some? ==> Best(actions, legal, score, slot.value)
      ensures slot.Some? ==> 0 <= step < |legal| && legal[step] == actions[slot.value] && legal[step] !in legal[..step]
      ensures forall i :: 0 <= i < |avail| ==> avail[i] == old(avail[i]) + if Eligible(actions, legal, i) then 1 else 0
    {
      var mask := LegalMask(legal);
      for i := 0 to |mask|
        invariant |avail| == |old(avail)|
        invariant forall j :: 0 <= j < |avail| ==> avail[j] == old(avail[j]) + if j < i && mask[j] then 1 else 0
      {
        if mask[i] { avail := avail[i := avail[i] + 1]; }
      }
      slot := SelectChild(mask, score);
      step := -1;
      assert forall a :: a in legal && a in actions ==> mask[Slot(actions, a)];
      if slot.None? { return; }
      for i := 0 to |legal|
        invariant step == -1 && forall j :: 0 <= j < i ==> legal[j] != actions[slot.value]
      {
        if legal[i] == actions[slot.value] { step := i; break; }
      }
    }

    /** One level of the descent, with what other workers append before and between its critical
        sections.  It never panics and never errs: a legal action is stepped, and it is the unique best
        among the legal ones. */
    method Descend(pool: Pool, legal: seq<ActionId>, early: seq<ActionId>, late: seq<ActionId>, score: nat -> real)
      returns (child: nat, action: ActionId, step: nat)
      requires Valid() && legal != []
      modifies this, pool
      ensures Valid() && old(actions) <= actions && old(children) <= children && forall a :: a in legal ==> a in actions
      ensures step < |legal| && legal[step] == action
      ensures child == children[Slot(actions, action)] && Best(actions, legal, score, Slot(actions, action))
    {
      hide Slot, Missing, Distinct, Smaller, Picked, Best, Eligible;
      var missing := HasNewActions(legal);
      Grow(pool, early);
      if missing { var _ := AddNewActionsUniform(pool, legal); }
      Grow(pool, late);
      assert legal[0] in legal && legal[0] in actions;
      var slot, k := SelectAndMap(legal, score);
      BestSlot(actions, legal, score, slot.value);
      child, action, step := children[slot.value], actions[slot.value], k;
    }
  }
}
