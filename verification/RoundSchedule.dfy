/** scheduleRoundHooks of buff_round.go: within a priority band only the summons change places. */
module RoundSchedule {
  import opened HookSchedule

  /** One band: other calls stay, the summon slots hold the same summons by player, then creation. */
  ghost predicate Reordered(order: seq<int>, band: seq<Call>, out: seq<Call>) {
    && |out| == |band| && multiset(out) == multiset(band)
    && (forall k :: 0 <= k < |band| ==> out[k].summon == band[k].summon && (!band[k].summon ==> out[k] == band[k]))
    && forall i, j :: 0 <= i < j < |out| && out[i].summon && out[j].summon ==> SummonBefore(order, out[i], out[j])
  }

  lemma {:induction false} SummonsOf(band: seq<Call>, n: nat, bound: Call)
    requires n <= |band| && forall k :: 0 <= k < n ==> Before(band[k], bound)
    ensures forall m :: 0 <= m < |Summons(band[..n])| ==> Before(Summons(band[..n])[m], bound)
  {
    if n > 0 {
      SummonsOf(band, n - 1, bound);
      SummonsMore(band, n - 1);
      hide Before;
    }
  }

  lemma {:induction false} SummonsSorted(band: seq<Call>, n: nat)
    requires n <= |band| && forall i, j :: 0 <= i < j < |band| ==> Before(band[i], band[j])
    ensures forall i, j :: 0 <= i < j < |Summons(band[..n])| ==> Before(Summons(band[..n])[i], Summons(band[..n])[j])
    ensures forall m :: 0 <= m < |Summons(band[..n])| ==> Summons(band[..n])[m].summon
  {
    hide Before;
    if n > 0 {
      SummonsSorted(band, n - 1);
      SummonsMore(band, n - 1);
      SummonsOf(band, n - 1, band[n - 1]);
    }
  }

  lemma FilledReordered(order: seq<int>, band: seq<Call>, summons: seq<Call>, out: seq<Call>)
    requires Refilled(band, summons, out) && multiset(summons) == multiset(Summons(band))
    requires Sorted(summons, ByPlayer(order), Before)
    requires forall m :: 0 <= m < |Summons(band)| ==> Summons(band)[m].summon
    ensures Reordered(order, band, out)
  {
    RefilledContents(band, summons, out);
    forall m | 0 <= m < |summons| ensures summons[m].summon {
      assert summons[m] in multiset(Summons(band));
    }
    forall i, j | 0 <= i < j < |out| && out[i].summon && out[j].summon ensures SummonBefore(order, out[i], out[j]) {
      SummonsPrefix(band, i, j);
    }
  }

  /** Where the summons of calls[start..i] stand. */
  ghost predicate Slots(calls: seq<Call>, start: nat, i: nat, slots: seq<nat>, summons: seq<Call>) {
    && start <= i <= |calls| && summons == Summons(calls[start..i]) && |slots| == |summons|
    && (forall m :: 0 <= m < |slots| ==> start <= slots[m] < i && calls[slots[m]].summon)
    && (forall m :: 0 <= m < |slots| ==> |Summons(calls[start..slots[m]])| == m)
    && forall k :: start <= k < i && calls[k].summon ==>
         |Summons(calls[start..k])| < |slots| && slots[|Summons(calls[start..k])|] == k
  }

  lemma SlotsMore(calls: seq<Call>, start: nat, i: nat, slots: seq<nat>, summons: seq<Call>)
    requires Slots(calls, start, i, slots, summons) && i < |calls|
    ensures Slots(calls, start, i + 1, if calls[i].summon then slots + [i] else slots,
                  if calls[i].summon then summons + [calls[i]] else summons)
  {
    hide Summons;
    SummonsStep(calls, start, i);
    if calls[i].summon {
      var slots', size := slots + [i], |slots|;
      forall m | 0 <= m < |slots'| ensures |Summons(calls[start..slots'[m]])| == m {
        assert slots'[m] == if m < size then slots[m] else i;
      }
      forall k | start <= k < i + 1 && calls[k].summon
        ensures |Summons(calls[start..k])| < |slots'| && slots'[|Summons(calls[start..k])|] == k
      {
        if k < i { assert slots[|Summons(calls[start..k])|] == k; }
      }
    }
  }

  lemma SummonsStep(calls: seq<Call>, start: nat, i: nat)
    requires start <= i < |calls|
    ensures Summons(calls[start..i + 1]) == Summons(calls[start..i]) + if calls[i].summon then [calls[i]] else []
  {
    assert calls[start..i + 1][..i - start] == calls[start..i];
  }

  /** What writing the sorted summons into their slots makes of the band. */
  lemma SlotsFilled(before: seq<Call>, after: seq<Call>, start: nat, end: nat, slots: seq<nat>, summons: seq<Call>)
    requires start <= end <= |before| == |after| && Slots(before, start, end, slots, Summons(before[start..end])) && |summons| == |slots|
    requires forall m :: 0 <= m < |slots| ==> after[slots[m]] == summons[m]
    requires forall k :: start <= k < end && !before[k].summon ==> after[k] == before[k]
    ensures Refilled(before[start..end], summons, after[start..end])
  {
    forall k | 0 <= k < end - start ensures before[start..end][..k] == before[start..start + k] { }
  }

  method ReorderBand(calls: array<Call>, start: nat, end: nat, order: seq<int>)
    requires start <= end <= calls.Length
    requires forall i, j :: start <= i < j < end ==> Before(calls[i], calls[j])
    modifies calls
    ensures Reordered(order, old(calls[..])[start..end], calls[..][start..end])
    ensures forall k :: 0 <= k < calls.Length && !(start <= k < end) ==> calls[k] == old(calls[k])
  {
    hide Slots, Before, Reordered, Refilled, Sorted, Summons;
    ghost var before := calls[..];
    var slots: seq<nat>, summons: seq<Call> := [], [];
    NoSlots(before, start);
    for i := start to end
      invariant calls[..] == before && Slots(before, start, i, slots, summons)
    {
      SlotsMore(before, start, i, slots, summons);
      if calls[i].summon {
        slots, summons := slots + [i], summons + [calls[i]];
      }
    }
    ghost var band := before[start..end];
    BandSummons(before, start, end, slots, summons);
    var sorted := StableSort(summons, ByPlayer(order), Before);
    SameSize(sorted, summons);
    for m := 0 to |slots|
      invariant forall j :: 0 <= j < m ==> calls[slots[j]] == sorted[j]
      invariant forall k :: 0 <= k < calls.Length && (!(start <= k < end) || !before[k].summon) ==> calls[k] == before[k]
    {
      calls[slots[m]] := sorted[m];
    }
    SlotsFilled(before, calls[..], start, end, slots, sorted);
    FilledReordered(order, band, sorted, calls[..][start..end]);
  }

  lemma NoSlots(calls: seq<Call>, start: nat)
    requires start <= |calls|
    ensures Slots(calls, start, start, [], [])
  {
  }

  lemma SameSize(a: seq<Call>, b: seq<Call>)
    requires multiset(a) == multiset(b)
    ensures |a| == |b|
  {
    assert |multiset(a)| == |a| && |multiset(b)| == |b|;
  }

  lemma BandSummons(calls: seq<Call>, start: nat, end: nat, slots: seq<nat>, summons: seq<Call>)
    requires Slots(calls, start, end, slots, summons)
    requires forall i, j :: start <= i < j < end ==> Before(calls[i], calls[j])
    ensures |slots| == |summons| && summons == Summons(calls[start..end])
    ensures forall m :: 0 <= m < |slots| ==> start <= slots[m] < end && calls[slots[m]].summon
    ensures forall i, j :: 0 <= i < j < |slots| ==> slots[i] != slots[j]
    ensures forall i, j :: 0 <= i < j < |summons| ==> Before(summons[i], summons[j])
    ensures forall m :: 0 <= m < |summons| ==> summons[m].summon
  {
    var band := calls[start..end];
    assert band[..|band|] == band;
    SummonsSorted(band, |band|);
  }

  /** The calls as scheduled, against their stable order `fifo`: priorities stay band by band, other
      calls stay where the stable order puts them, summons take the summon slots of their band. */
  ghost predicate Scheduled(order: seq<int>, fifo: seq<Call>, out: seq<Call>) {
    && |out| == |fifo| && multiset(out) == multiset(fifo)
    && (forall k :: 0 <= k < |fifo| ==> out[k].priority == fifo[k].priority && out[k].summon == fifo[k].summon)
    && (forall k :: 0 <= k < |fifo| && !fifo[k].summon ==> out[k] == fifo[k])
    && forall i, j :: 0 <= i < j < |out| && out[i].summon && out[j].summon && out[i].priority == out[j].priority ==>
         SummonBefore(order, out[i], out[j])
  }

  /** start is the border of two bands. */
  ghost predicate Border(fifo: seq<Call>, start: nat) {
    start <= |fifo| && forall i, j :: 0 <= i < start <= j < |fifo| ==> fifo[i].priority > fifo[j].priority
  }

  lemma BandScheduled(order: seq<int>, fifo: seq<Call>, start: nat, end: nat, front: seq<Call>, band: seq<Call>)
    requires start < end <= |fifo| && Scheduled(order, fifo[..start], front) && Border(fifo, start)
    requires Reordered(order, fifo[start..end], band)
    requires forall k :: start <= k < end ==> fifo[k].priority == fifo[start].priority
    ensures Scheduled(order, fifo[..end], front + band)
  {
    hide SummonBefore;
    var out := front + band;
    assert fifo[..end] == fifo[..start] + fifo[start..end];
    BandPriorities(fifo, start, end, band);
    forall k | 0 <= k < end ensures out[k].priority == fifo[k].priority && out[k].summon == fifo[k].summon {
      if k < start { assert out[k] == front[k] && fifo[..start][k] == fifo[k]; }
      else { assert out[k] == band[k - start] && fifo[start..end][k - start] == fifo[k]; }
    }
    assert forall i, j :: 0 <= i < start <= j < |out| ==> out[i].priority > out[j].priority;
  }

  lemma BandPriorities(fifo: seq<Call>, start: nat, end: nat, band: seq<Call>)
    requires start < end <= |fifo| && multiset(band) == multiset(fifo[start..end])
    requires forall k :: start <= k < end ==> fifo[k].priority == fifo[start].priority
    ensures forall k :: 0 <= k < |band| ==> band[k].priority == fifo[start].priority
  {
    forall k | 0 <= k < |band| ensures band[k].priority == fifo[start].priority {
      assert band[k] in multiset(fifo[start..end]);
    }
  }

  lemma NextBorder(fifo: seq<Call>, start: nat, end: nat)
    requires start < end <= |fifo| && (forall i, j :: 0 <= i < j < |fifo| ==> Before(fifo[i], fifo[j]))
    requires end < |fifo| ==> fifo[end].priority != fifo[start].priority
    requires forall k :: start <= k < end ==> fifo[k].priority == fifo[start].priority
    ensures Border(fifo, end)
  {
    if end < |fifo| {
      assert Before(fifo[start], fifo[end]);
      forall i, j | 0 <= i < end <= j < |fifo| ensures fifo[i].priority > fifo[j].priority {
        if i < start { assert Before(fifo[i], fifo[start]); }
        if end < j { assert Before(fifo[end], fifo[j]); }
      }
    }
  }

  /** `out` is scheduled against the collected calls in their stable order, which is the only sequence of
      them that Before sorts. */
  ghost predicate IsRoundSchedule(collected: seq<Call>, order: seq<int>, out: seq<Call>) {
    exists fifo :: Fifo(collected, fifo) && Scheduled(order, fifo, out)
  }

  ghost predicate Fifo(collected: seq<Call>, fifo: seq<Call>) {
    multiset(fifo) == multiset(collected) && forall i, j :: 0 <= i < j < |fifo| ==> Before(fifo[i], fifo[j])
  }

  /** scheduleRoundHooks on the collected calls. */
  method ScheduleRound(collected: seq<Call>, order: seq<int>) returns (out: seq<Call>)
    requires forall i :: 0 <= i < |collected| ==> collected[i].pos == i
    ensures IsRoundSchedule(collected, order, out) && RoundLaw(order, out) && multiset(out) == multiset(collected)
  {
    hide Scheduled, Reordered, Border, Before, RoundLaw;
    var sorted := StableSort(collected, PriorityThenRank, Collected);
    AllBefore(sorted);
    ghost var fifo := sorted;
    assert Fifo(collected, fifo);
    var calls := new Call[|sorted|](i requires 0 <= i < |sorted| => sorted[i]);
    var start := 0;
    StartScheduled(order, fifo);
    while start < calls.Length
      invariant start <= calls.Length == |fifo| && Border(fifo, start)
      invariant Scheduled(order, fifo[..start], calls[..start])
      invariant forall k :: start <= k < calls.Length ==> calls[k] == fifo[k]
    {
      var end := start + 1;
      while end < calls.Length && calls[end].priority == calls[start].priority
        invariant start < end <= calls.Length
        invariant forall k :: start <= k < end ==> calls[k].priority == calls[start].priority
      {
        end := end + 1;
      }
      ghost var front := calls[..start];
      assert calls[..][start..end] == fifo[start..end];
      NextBorder(fifo, start, end);
      ReorderBand(calls, start, end, order);
      assert calls[..start] == front && calls[..end] == front + calls[..][start..end];
      BandScheduled(order, fifo, start, end, front, calls[..][start..end]);
      start := end;
    }
    assert fifo[..start] == fifo;
    out := calls[..];
    assert out == calls[..start];
    ScheduleIsLaw(collected, order, out);
  }

  /** Priorities never increase.  Among equals, summons go by the place of their player in `order` and then by
      creation; other calls by creation and then as collected. */
  ghost predicate RoundLaw(order: seq<int>, out: seq<Call>) {
    forall i, j :: 0 <= i < j < |out| ==>
      && out[i].priority >= out[j].priority
      && (out[i].priority == out[j].priority && out[i].summon && out[j].summon ==> SummonsInOrder(order, out[i], out[j]))
      && (out[i].priority == out[j].priority && !out[i].summon && !out[j].summon ==>
            out[i].rank < out[j].rank || (out[i].rank == out[j].rank && out[i].pos < out[j].pos))
  }

  ghost predicate SummonsInOrder(order: seq<int>, a: Call, b: Call) {
    && (a.player == b.player ==> a.rank < b.rank || (a.rank == b.rank && a.pos < b.pos))
    && ((forall k, m :: 0 <= k < m < |order| ==> order[k] != order[m]) ==>
          forall k, m :: 0 <= k < |order| && 0 <= m < |order| && order[k] == a.player && order[m] == b.player ==> k <= m)
  }

  lemma {:induction false} RankIsPlace(order: seq<int>, k: nat)
    requires k < |order| && forall k, m :: 0 <= k < m < |order| ==> order[k] != order[m]
    ensures PlayerRank(order, order[k]) == k
  {
    if k < |order| - 1 { RankIsPlace(order[..|order| - 1], k); }
  }

  lemma SummonLaw(order: seq<int>, a: Call, b: Call)
    requires SummonBefore(order, a, b) && a.priority == b.priority
    ensures SummonsInOrder(order, a, b)
  {
    if forall k, m :: 0 <= k < m < |order| ==> order[k] != order[m] {
      forall k, m | 0 <= k < |order| && 0 <= m < |order| && order[k] == a.player && order[m] == b.player ensures k <= m {
        RankIsPlace(order, k);
        RankIsPlace(order, m);
      }
    }
  }

  lemma ScheduleIsLaw(collected: seq<Call>, order: seq<int>, out: seq<Call>)
    requires IsRoundSchedule(collected, order, out)
    ensures RoundLaw(order, out) && multiset(out) == multiset(collected)
  {
    var fifo :| Fifo(collected, fifo) && Scheduled(order, fifo, out);
    hide SummonBefore, SummonsInOrder;
    forall i, j | 0 <= i < j < |out| && out[i].priority == out[j].priority && out[i].summon && out[j].summon
      ensures SummonsInOrder(order, out[i], out[j])
    {
      SummonLaw(order, out[i], out[j]);
    }
    assert forall i, j :: 0 <= i < j < |fifo| ==> Before(fifo[i], fifo[j]);
  }

  lemma AllBefore(calls: seq<Call>)
    requires Sorted(calls, PriorityThenRank, Collected)
    ensures forall i, j :: 0 <= i < j < |calls| ==> Before(calls[i], calls[j])
  {
  }

  lemma StartScheduled(order: seq<int>, fifo: seq<Call>)
    ensures Border(fifo, 0) && Scheduled(order, fifo[..0], [])
  {
  }

  lemma BeforeIsStrict(a: Call, b: Call)
    requires Before(a, b)
    ensures !Before(b, a)
  {
  }

  lemma FirstOf(a: seq<Call>, b: seq<Call>)
    requires a != [] && b != [] && (forall i, j :: 0 <= i < j < |a| ==> Before(a[i], a[j]))
    requires (forall i, j :: 0 <= i < j < |b| ==> Before(b[i], b[j])) && multiset(a) == multiset(b)
    ensures a[0] == b[0]
  {
    assert a[0] in multiset(b) && b[0] in multiset(a);
    var i :| 0 <= i < |b| && b[i] == a[0];
    var j :| 0 <= j < |a| && a[j] == b[0];
    if i > 0 && j > 0 { BeforeIsStrict(b[0], b[i]); }
  }

  lemma TailOf(a: seq<Call>)
    requires a != []
    ensures a == [a[0]] + a[1..] && multiset(a[1..]) == multiset(a) - multiset{a[0]}
  {
    assert a == [a[0]] + a[1..];
  }

  /** The stable order is unique. */
  lemma {:induction false} FifoUnique(a: seq<Call>, b: seq<Call>)
    requires multiset(a) == multiset(b) && forall i, j :: 0 <= i < j < |a| ==> Before(a[i], a[j])
    requires forall i, j :: 0 <= i < j < |b| ==> Before(b[i], b[j])
    ensures a == b
  {
    hide Before;
    SameSize(a, b);
    if a != [] {
      FirstOf(a, b);
      TailOf(a);
      TailOf(b);
      FifoUnique(a[1..], b[1..]);
    }
  }
}
