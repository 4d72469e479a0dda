/** The order in which hooks fire: registration (hook.go) and the stable schedule (buff_schedule.go,
    buff_round.go). */
module HookSchedule {

  /** One scheduled call.  `pos` is history: where the call stood when it was collected. */
  datatype Call = Call(hook: nat, priority: int, instance: nat, rank: int, player: int, character: int, summon: bool, pos: nat)

  // ---- Registration ----

  /** What a hook listens to: an event kind, or one operation on one counter. */
  type Topic(==, !new)

  datatype Hook = Hook(id: nat, topic: Topic, priority: int)

  /** Higher priority first, then earlier registration. */
  predicate Ahead(a: Hook, b: Hook) { a.priority > b.priority || (a.priority == b.priority && a.id < b.id) }

  /** A topic's list holds exactly its enabled hooks, in order. */
  ghost predicate Complete(all: seq<Hook>, enabled: set<nat>, topic: Topic, list: seq<Hook>) {
    && (forall h :: h in list <==> h.id in enabled && h.id < |all| && all[h.id] == h && h.topic == topic)
    && forall i, j :: 0 <= i < j < |list| ==> Ahead(list[i], list[j])
  }

  lemma Inserted(all: seq<Hook>, enabled: set<nat>, list: seq<Hook>, h: Hook, i: nat)
    requires Complete(all, enabled, h.topic, list) && i <= |list| && h.id == |all|
    requires forall k :: 0 <= k < i ==> Ahead(list[k], h)
    requires forall k :: i <= k < |list| ==> Ahead(h, list[k])
    requires forall k :: k in enabled ==> k < |all|
    ensures Complete(all + [h], enabled + {h.id}, h.topic, list[..i] + [h] + list[i..])
  {
    var longer := list[..i] + [h] + list[i..];
    assert list == list[..i] + list[i..];
    forall x ensures x in longer <==> x in list || x == h { }
    forall a, b | 0 <= a < b < |longer| ensures Ahead(longer[a], longer[b]) {
      if a != i && b != i { assert Ahead(list[if a < i then a else a - 1], list[if b < i then b else b - 1]); }
    }
  }

  lemma InsertedElsewhere(all: seq<Hook>, enabled: set<nat>, topic: Topic, list: seq<Hook>, h: Hook)
    requires Complete(all, enabled, topic, list) && topic != h.topic && h.id == |all|
    requires forall k :: k in enabled ==> k < |all|
    ensures Complete(all + [h], enabled + {h.id}, topic, list)
  {
  }

  lemma Removed(all: seq<Hook>, enabled: set<nat>, topic: Topic, list: seq<Hook>, kept: seq<Hook>, id: nat)
    requires Complete(all, enabled, topic, list) && id < |all|
    requires if topic == all[id].topic then IsWithout(list, id, kept) else kept == list
    ensures Complete(all, enabled - {id}, topic, kept)
  {
    forall x ensures x in kept <==> x.id in enabled - {id} && x.id < |all| && all[x.id] == x && x.topic == topic {
      if topic != all[id].topic && x in list { assert x.id != id; }
    }
  }

  /** `kept` is the list without the hook `id`, order kept. */
  ghost predicate IsWithout(list: seq<Hook>, id: nat, kept: seq<Hook>) {
    && (forall x :: x in kept <==> x in list && x.id != id)
    && ((forall i, j :: 0 <= i < j < |list| ==> Ahead(list[i], list[j])) ==>
        forall i, j :: 0 <= i < j < |kept| ==> Ahead(kept[i], kept[j]))
  }

  method Without(list: seq<Hook>, id: nat) returns (kept: seq<Hook>)
    requires forall i, j :: 0 <= i < j < |list| ==> Ahead(list[i], list[j])
    ensures IsWithout(list, id, kept)
  {
    kept := [];
    for k := 0 to |list|
      invariant forall x :: x in kept <==> x in list[..k] && x.id != id
      invariant forall a, b :: 0 <= a < b < |kept| ==> Ahead(kept[a], kept[b])
      invariant forall a, m :: 0 <= a < |kept| && k <= m < |list| ==> Ahead(kept[a], list[m])
    {
      assert list[..k + 1] == list[..k] + [list[k]];
      if list[k].id != id { kept := kept + [list[k]]; }
    }
    assert list[..|list|] == list;
  }

  function List(lists: map<Topic, seq<Hook>>, topic: Topic): seq<Hook> {
    if topic in lists then lists[topic] else []
  }

  /** What a registry keeps. */
  ghost predicate Consistent(all: seq<Hook>, enabled: set<nat>, lists: map<Topic, seq<Hook>>) {
    && (forall i :: 0 <= i < |all| ==> all[i].id == i)
    && (forall i :: i in enabled ==> i < |all|)
    && forall topic :: Complete(all, enabled, topic, List(lists, topic))
  }

  lemma RegisterKeeps(all: seq<Hook>, enabled: set<nat>, lists: map<Topic, seq<Hook>>, h: Hook, longer: seq<Hook>)
    requires Consistent(all, enabled, lists) && h.id == |all| && Complete(all + [h], enabled + {h.id}, h.topic, longer)
    ensures Consistent(all + [h], enabled + {h.id}, lists[h.topic := longer])
  {
    hide Complete;
    var after := lists[h.topic := longer];
    forall other ensures Complete(all + [h], enabled + {h.id}, other, List(after, other)) {
      if other != h.topic { InsertedElsewhere(all, enabled, other, List(lists, other), h); }
    }
  }

  lemma RemoveKeeps(all: seq<Hook>, enabled: set<nat>, lists: map<Topic, seq<Hook>>, id: nat, kept: seq<Hook>)
    requires Consistent(all, enabled, lists) && id < |all| && IsWithout(List(lists, all[id].topic), id, kept)
    ensures Consistent(all, enabled - {id}, lists[all[id].topic := kept])
  {
    hide Complete, IsWithout;
    var after := lists[all[id].topic := kept];
    forall other ensures Complete(all, enabled - {id}, other, List(after, other)) {
      Removed(all, enabled, other, List(lists, other), List(after, other), id);
    }
  }

  /** The insertion point separates the hooks that stay ahead from the rest. */
  lemma Place(all: seq<Hook>, enabled: set<nat>, list: seq<Hook>, h: Hook, i: nat)
    requires Complete(all, enabled, h.topic, list) && h.id == |all| && i <= |list|
    requires i > 0 ==> list[i - 1].priority >= h.priority
    requires forall k :: i <= k < |list| ==> list[k].priority < h.priority
    ensures forall k :: 0 <= k < i ==> Ahead(list[k], h)
    ensures forall k :: i <= k < |list| ==> Ahead(h, list[k])
  {
    forall k | 0 <= k < i ensures Ahead(list[k], h) {
      assert list[k] in list;
      if k < i - 1 { assert Ahead(list[k], list[i - 1]); }
    }
  }

  lemma InsertionKeeps(all: seq<Hook>, enabled: set<nat>, lists: map<Topic, seq<Hook>>, h: Hook, list: seq<Hook>, i: nat)
    requires Consistent(all, enabled, lists) && list == List(lists, h.topic) && h.id == |all| && i <= |list|
    requires i > 0 ==> list[i - 1].priority >= h.priority
    requires forall k :: i <= k < |list| ==> list[k].priority < h.priority
    ensures Consistent(all + [h], enabled + {h.id}, lists[h.topic := list[..i] + [h] + list[i..]])
  {
    assert Complete(all, enabled, h.topic, list);
    hide Complete;
    Place(all, enabled, list, h, i);
    Inserted(all, enabled, list, h, i);
    RegisterKeeps(all, enabled, lists, h, list[..i] + [h] + list[i..]);
  }

  /** What the lists of a consistent registry hold, and in which order. */
  lemma ListsAre(all: seq<Hook>, enabled: set<nat>, lists: map<Topic, seq<Hook>>, topic: Topic)
    requires Consistent(all, enabled, lists)
    ensures forall other, i, j :: other in lists && 0 <= i < j < |lists[other]| ==>
      var a, b := lists[other][i], lists[other][j]; a.priority > b.priority || (a.priority == b.priority && a.id < b.id)
    ensures forall h: Hook :: h in List(lists, topic) <==> h.topic == topic && h in all && h.id in enabled
  {
    forall other | other in lists ensures Complete(all, enabled, other, lists[other]) {
      assert Complete(all, enabled, other, List(lists, other));
    }
    assert Complete(all, enabled, topic, List(lists, topic));
    assert forall h: Hook :: h in all ==> h.id < |all| && all[h.id] == h;
  }

  class Registry {
    var all: seq<Hook>
    var enabled: set<nat>
    var lists: map<Topic, seq<Hook>>

    ghost predicate Valid()
      reads this
    {
      Consistent(all, enabled, lists)
    }

    constructor ()
      ensures Valid() && all == []
    {
      all, enabled, lists := [], {}, map[];
    }

    method Register(topic: Topic, priority: int) returns (id: nat)
      requires Valid()
      modifies this
      ensures Valid() && id == |old(all)| && all == old(all) + [Hook(id, topic, priority)] && enabled == old(enabled) + {id}
      ensures forall other, i, j :: other in lists && 0 <= i < j < |lists[other]| ==>
        var a, b := lists[other][i], lists[other][j]; a.priority > b.priority || (a.priority == b.priority && a.id < b.id)
      ensures forall h: Hook :: h in List(lists, topic) <==> h.topic == topic && h in all && h.id in enabled
    {
      id := |all|;
      var h := Hook(id, topic, priority);
      var list := List(lists, topic);
      assert Complete(all, enabled, topic, list);
      hide Consistent, Complete;
      var i := |list|;
      while i > 0 && list[i - 1].priority < priority
        invariant 0 <= i <= |list|
        invariant forall k :: i <= k < |list| ==> list[k].priority < priority
      {
        i := i - 1;
      }
      InsertionKeeps(all, enabled, lists, h, list, i);
      all, enabled := all + [h], enabled + {id};
      lists := lists[topic := list[..i] + [h] + list[i..]];
      ListsAre(all, enabled, lists, topic);
    }

    method Remove(id: int)
      requires Valid()
      modifies this
      ensures Valid() && all == old(all) && enabled == old(enabled) - (if id < 0 then {} else {id})
      ensures 0 <= id < |all| ==> forall h: Hook :: h in List(lists, all[id].topic) ==> h.id != id
    {
      if id < 0 || id >= |all| { return; }
      var topic := all[id].topic;
      assert Complete(all, enabled, topic, List(lists, topic));
      var kept := Without(List(lists, topic), id);
      RemoveKeeps(all, enabled, lists, id, kept);
      enabled := enabled - {id};
      lists := lists[topic := kept];
      ListsAre(all, enabled, lists, topic);
    }
  }

  // ---- Stable sorting ----

  type Key = (int, int)

  predicate KeyLess(a: Key, b: Key) { a.0 < b.0 || (a.0 == b.0 && a.1 < b.1) }

  /** sort.SliceStable's promise, with `tie` the order in which the calls came in. */
  ghost predicate StablyBefore(key: Call -> Key, tie: (Call, Call) -> bool, a: Call, b: Call) {
    KeyLess(key(a), key(b)) || (key(a) == key(b) && tie(a, b))
  }

  ghost predicate Sorted(calls: seq<Call>, key: Call -> Key, tie: (Call, Call) -> bool) {
    forall i, j :: 0 <= i < j < |calls| ==> StablyBefore(key, tie, calls[i], calls[j])
  }

  method InsertLast(sorted: seq<Call>, call: Call, key: Call -> Key, ghost tie: (Call, Call) -> bool) returns (r: seq<Call>)
    requires Sorted(sorted, key, tie) && forall k :: 0 <= k < |sorted| ==> tie(sorted[k], call)
    ensures Sorted(r, key, tie) && multiset(r) == multiset(sorted) + multiset{call}
  {
    var i := |sorted|;
    while i > 0 && KeyLess(key(call), key(sorted[i - 1]))
      invariant 0 <= i <= |sorted| && forall k :: i <= k < |sorted| ==> KeyLess(key(call), key(sorted[k]))
    {
      i := i - 1;
    }
    Insert(sorted, call, i, key, tie);
    r := sorted[..i] + [call] + sorted[i..];
  }

  lemma InsertPlace(sorted: seq<Call>, call: Call, i: nat, key: Call -> Key, tie: (Call, Call) -> bool)
    requires Sorted(sorted, key, tie) && i <= |sorted| && forall k :: 0 <= k < |sorted| ==> tie(sorted[k], call)
    requires i > 0 ==> !KeyLess(key(call), key(sorted[i - 1]))
    ensures forall k :: 0 <= k < i ==> StablyBefore(key, tie, sorted[k], call)
  {
    forall k | 0 <= k < i ensures StablyBefore(key, tie, sorted[k], call) {
      if k < i - 1 { assert StablyBefore(key, tie, sorted[k], sorted[i - 1]); }
    }
  }

  lemma Insert(sorted: seq<Call>, call: Call, i: nat, key: Call -> Key, tie: (Call, Call) -> bool)
    requires Sorted(sorted, key, tie) && i <= |sorted| && forall k :: 0 <= k < |sorted| ==> tie(sorted[k], call)
    requires i > 0 ==> !KeyLess(key(call), key(sorted[i - 1]))
    requires forall k :: i <= k < |sorted| ==> KeyLess(key(call), key(sorted[k]))
    ensures Sorted(sorted[..i] + [call] + sorted[i..], key, tie)
    ensures multiset(sorted[..i] + [call] + sorted[i..]) == multiset(sorted) + multiset{call}
  {
    var r := sorted[..i] + [call] + sorted[i..];
    InsertPlace(sorted, call, i, key, tie);
    assert forall k :: i <= k < |sorted| ==> StablyBefore(key, tie, call, sorted[k]);
    hide StablyBefore, KeyLess;
    assert forall k :: 0 <= k < i ==> r[k] == sorted[k];
    assert forall k :: i < k < |r| ==> r[k] == sorted[k - 1];
    assert r[i] == call;
    assert Sorted(r, key, tie);
    InsertContents(sorted, call, i);
  }

  lemma InsertContents(sorted: seq<Call>, call: Call, i: nat)
    requires i <= |sorted|
    ensures multiset(sorted[..i] + [call] + sorted[i..]) == multiset(sorted) + multiset{call}
  {
    assert sorted == sorted[..i] + sorted[i..];
  }

  method StableSort(calls: seq<Call>, key: Call -> Key, ghost tie: (Call, Call) -> bool) returns (sorted: seq<Call>)
    requires forall i, j :: 0 <= i < j < |calls| ==> tie(calls[i], calls[j])
    ensures Sorted(sorted, key, tie) && multiset(sorted) == multiset(calls)
  {
    sorted := [];
    for k := 0 to |calls|
      invariant Sorted(sorted, key, tie) && multiset(sorted) == multiset(calls[..k])
    {
      forall m | 0 <= m < |sorted| ensures tie(sorted[m], calls[k]) {
        assert sorted[m] in multiset(calls[..k]);
      }
      sorted := InsertLast(sorted, calls[k], key, tie);
      assert calls[..k + 1] == calls[..k] + [calls[k]];
    }
    assert calls[..|calls|] == calls;
  }

  // ---- The common schedule ----

  function PriorityThenRank(c: Call): Key { (-c.priority, c.rank) }

  predicate Collected(a: Call, b: Call) { a.pos < b.pos }

  /** Priority, then creation rank of the buff, then collection order. */
  ghost predicate Before(a: Call, b: Call) { StablyBefore(PriorityThenRank, Collected, a, b) }

  // ---- The round schedule ----

  /** Rank of a player: its last place in `order`, 0 for a player who is not there. */
  function PlayerRank(order: seq<int>, player: int): int {
    if order == [] then 0
    else if order[|order| - 1] == player then |order| - 1 else PlayerRank(order[..|order| - 1], player)
  }

  function ByPlayer(order: seq<int>): Call -> Key { (c: Call) => (PlayerRank(order, c.player), 0) }

  ghost predicate SummonBefore(order: seq<int>, a: Call, b: Call) { StablyBefore(ByPlayer(order), Before, a, b) }

  function Summons(calls: seq<Call>): seq<Call> {
    if calls == [] then []
    else Summons(calls[..|calls| - 1]) + if calls[|calls| - 1].summon then [calls[|calls| - 1]] else []
  }

  /** The band with its summons replaced, slot by slot. */
  ghost predicate Refilled(band: seq<Call>, summons: seq<Call>, filled: seq<Call>) {
    && |filled| == |band| && |summons| == |Summons(band)|
    && forall k :: 0 <= k < |band| ==>
         if !band[k].summon then filled[k] == band[k]
         else |Summons(band[..k])| < |summons| && filled[k] == summons[|Summons(band[..k])|]
  }

  lemma {:induction false} SummonsPrefix(band: seq<Call>, k: nat, n: nat)
    requires k < n <= |band|
    ensures |Summons(band[..k])| + (if band[k].summon then 1 else 0) <= |Summons(band[..n])|
    decreases n - k
  {
    assert band[..k + 1][..k] == band[..k];
    if k + 1 < n { SummonsPrefix(band, k + 1, n); }
  }

  lemma SummonsMore(band: seq<Call>, n: nat)
    requires n < |band|
    ensures Summons(band[..n + 1]) == Summons(band[..n]) + if band[n].summon then [band[n]] else []
  {
    assert band[..n + 1][..n] == band[..n];
  }

  function Count(calls: seq<Call>, c: Call): nat { multiset(calls)[c] }

  lemma CountMore(calls: seq<Call>, n: nat, c: Call)
    requires n < |calls|
    ensures Count(calls[..n + 1], c) == Count(calls[..n], c) + if calls[n] == c then 1 else 0
  {
    assert calls[..n + 1] == calls[..n] + [calls[n]];
  }

  lemma CountLast(calls: seq<Call>, last: Call, c: Call)
    ensures Count(calls + [last], c) == Count(calls, c) + if last == c then 1 else 0
  {
  }

  /** A refilled prefix holds the summons handed out so far and the band's other calls. */
  ghost predicate Balanced(band: seq<Call>, summons: seq<Call>, filled: seq<Call>, n: nat, c: Call)
    requires n <= |band| && n <= |filled|
  {
    var m := |Summons(band[..n])|;
    m <= |summons| && Count(filled[..n], c) + Count(Summons(band[..n]), c) == Count(band[..n], c) + Count(summons[..m], c)
  }

  lemma {:induction false} RefilledCount(band: seq<Call>, summons: seq<Call>, filled: seq<Call>, n: nat, c: Call)
    requires Refilled(band, summons, filled) && n <= |band|
    ensures Balanced(band, summons, filled, n, c)
  {
    hide Count;
    if n > 0 {
      var m := |Summons(band[..n - 1])|;
      RefilledCount(band, summons, filled, n - 1, c);
      assert filled[n - 1] == band[n - 1] || (band[n - 1].summon && m < |summons| && filled[n - 1] == summons[m]);
      assert band[n - 1].summon ==> m < |summons| && filled[n - 1] == summons[m];
      hide Refilled;
      SummonsMore(band, n - 1);
      hide Summons;
      CountMore(filled, n - 1, c);
      CountMore(band, n - 1, c);
      if band[n - 1].summon {
        CountMore(summons, m, c);
        CountLast(Summons(band[..n - 1]), band[n - 1], c);
      } else {
        assert Summons(band[..n]) == Summons(band[..n - 1]);
      }
    } else {
      assert filled[..0] == band[..0] == summons[..0] == Summons(band[..0]) == [];
    }
  }

  lemma RefilledContents(band: seq<Call>, summons: seq<Call>, filled: seq<Call>)
    requires Refilled(band, summons, filled) && multiset(summons) == multiset(Summons(band))
    ensures multiset(filled) == multiset(band)
  {
    hide Summons;
    assert filled[..|band|] == filled && band[..|band|] == band && summons[..|summons|] == summons;
    forall c ensures multiset(filled)[c] == multiset(band)[c] {
      RefilledCount(band, summons, filled, |band|, c);
      hide Refilled;
    }
  }
}
