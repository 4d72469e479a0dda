/** What the ring promises its callers, over every run of any number of producers and one consumer. */
module RingTheorems {
  import opened ShmRing
  import opened RingProof

  /** Count never leaves 0..capacity, and it is exactly the reservations not yet turned into a tail
      position, plus the claimed positions, plus a pop that has not yet decremented. */
  lemma CountBounds(c: Config, states: seq<Ring>, events: seq<Event>, i: nat)
    requires ValidConfig(c) && IsRun(c, states, events) && i < |states|
    ensures var s := states[i];
      && 0 <= s.count <= c.cap && s.head < c.cap && s.tail < c.cap
      && s.count == |Reserved(s.producers)| + (|s.claims| - s.taken) + (if s.consumer.DecCount? then 1 else 0)
  {
    RunInv(c, states, events, i);
  }

  /** A producer that writes owns its slot alone: the slot is not FULL, no other producer writes it,
      the consumer is not reading it, and the step leaves every other slot as it was. */
  lemma WriterOwnsSlot(c: Config, states: seq<Ring>, events: seq<Event>, i: nat, p: nat)
    requires ValidConfig(c) && IsRun(c, states, events) && i < |events| && events[i] == PushStep(p)
    requires states[i].producers[p].Fill?
    ensures var s, s' := states[i], states[i + 1];
      var slot := s.producers[p].slot;
      && slot < |s.slots| == |s'.slots| && !s.slots[slot].full
      && (forall q :: q in s.producers && q != p && s.producers[q].Fill? ==> s.producers[q].slot != slot)
      && (s.consumer.Copy? || s.consumer.StoreHead? ==> s.consumer.head != slot)
      && forall j :: 0 <= j < |s.slots| && j != slot ==> s'.slots[j] == s.slots[j]
  {
    hide Inv, Accounting;
    RunInv(c, states, events, i);
    SlotOwned(c, states[i], p);
    assert states[i + 1] == Push(c, states[i], p);
    FillEffect(c, states[i], p);
    hide Next, Push;
  }

  lemma SlotOwned(c: Config, s: Ring, p: nat)
    requires ValidConfig(c) && Inv(c, s) && p in s.producers && s.producers[p].Fill?
    ensures var slot := s.producers[p].slot;
      && slot < |s.slots| && !s.slots[slot].full
      && (forall q :: q in s.producers && q != p && s.producers[q].Fill? ==> s.producers[q].slot != slot)
      && (s.consumer.Copy? || s.consumer.StoreHead? ==> s.consumer.head != slot)
  {
    hide Identities, History, Window, Sized, Pos, Written, Read, Delivers, Reserved;
    WriterOf(c, s, p);
    var f := s.producers[p];
    forall q | q in s.producers && q != p && s.producers[q].Fill? ensures s.producers[q].slot != f.slot {
      WriterOf(c, s, q);
      WindowDistinct(c, s, f.index, s.producers[q].index);
    }
    if s.consumer.Copy? || s.consumer.StoreHead? {
      WindowDistinctOrSame(c, s, s.taken, f.index);
    }
  }

  lemma WindowDistinctOrSame(c: Config, s: Ring, i: nat, j: nat)
    requires ValidConfig(c) && Accounting(c, s) && InWindow(s, i) && InWindow(s, j)
    ensures i != j ==> Pos(c, i) != Pos(c, j)
  {
    if i != j { WindowDistinct(c, s, i, j); }
  }

  /** A tail claim takes an EMPTY slot that nobody writes or reads. */
  lemma ClaimOwnsSlot(c: Config, states: seq<Ring>, events: seq<Event>, i: nat, p: nat)
    requires ValidConfig(c) && IsRun(c, states, events) && i < |events| && events[i] == PushStep(p)
    requires states[i].producers[p].CasTail? && states[i].tail == states[i].producers[p].seen
    ensures var s := states[i];
      && s.tail < |s.slots| && !s.slots[s.tail].full
      && (forall q :: q in s.producers && s.producers[q].Fill? ==> s.producers[q].slot != s.tail)
      && (s.consumer.Copy? || s.consumer.StoreHead? ==> s.consumer.head != s.tail)
  {
    RunInv(c, states, events, i);
    var s := states[i];
    ClaimedSlotIsFree(c, s, p);
    forall q | q in s.producers && s.producers[q].Fill? ensures s.producers[q].slot != s.tail {
      WriterOf(c, s, q);
    }
  }

  /** The queue the ring represents: claimed positions that no pop has taken. */
  function Queue(s: Ring): seq<Call>
    requires s.taken <= |s.claims|
  {
    s.claims[s.taken..]
  }

  ghost predicate Claims(s: Ring, e: Event) {
    e.PushStep? && e.p in s.producers && s.producers[e.p].CasTail? && s.tail == s.producers[e.p].seen
  }

  ghost predicate QueueStep(c: Config, s: Ring, e: Event, s': Ring) {
    && s.taken <= |s.claims| && s'.taken <= |s'.claims|
    && (if Claims(s, e)
        then |Queue(s)| < c.cap && Queue(s') == Queue(s) + [s.producers[e.p].call]
        else if e.PopStep? && s.consumer.StoreHead?
        then Queue(s) != [] && Queue(s') == Queue(s)[1..] && Delivers(s.consumer.got, Queue(s)[0].msg)
        else Queue(s') == Queue(s))
  }

  lemma StepOnQueue(c: Config, s: Ring, e: Event)
    requires ValidConfig(c) && Enabled(s, e) && Inv(c, s)
    ensures QueueStep(c, s, e, Next(c, s, e))
  {
    QueueFacts(c, s);
    hide Inv;
    OrderOfStep(c, s, e);
  }

  lemma OrderOfStep(c: Config, s: Ring, e: Event)
    requires ValidConfig(c) && Enabled(s, e) && s.tail < |s.slots|
    ensures var s' := Next(c, s, e);
      && s'.claims == (if Claims(s, e) then s.claims + [s.producers[e.p].call] else s.claims)
      && s'.taken == (if e.PopStep? && s.consumer.StoreHead? then s.taken + 1 else s.taken)
  {
  }

  /** Every step is a bounded-queue operation or leaves the queue alone: the tail swap appends its
      call while there is room, the head store removes the first call after reading it. */
  lemma StepRefinesQueue(c: Config, states: seq<Ring>, events: seq<Event>, i: nat)
    requires ValidConfig(c) && IsRun(c, states, events) && i < |events|
    ensures QueueStep(c, states[i], events[i], states[i + 1])
  {
    RunInv(c, states, events, i);
    StepOnQueue(c, states[i], events[i]);
  }

  lemma QueueFacts(c: Config, s: Ring)
    requires ValidConfig(c) && Inv(c, s)
    ensures s.taken <= |s.claims| && |s.slots| == c.cap && s.tail < |s.slots|
    ensures forall p :: p in s.producers && s.producers[p].CasTail? ==> |Queue(s)| < c.cap
    ensures s.consumer.StoreHead? ==> Queue(s) != [] && Delivers(s.consumer.got, Queue(s)[0].msg)
  {
    if p :| p in s.producers && s.producers[p].CasTail? { assert p in Reserved(s.producers); }
  }

  /** First in, first out: the pops returned, in order, the first messages of the claim order, whole
      whenever the caller's buffer is large enough. */
  lemma Fifo(c: Config, states: seq<Ring>, events: seq<Event>, i: nat, k: nat)
    requires ValidConfig(c) && IsRun(c, states, events) && i < |states| && k < |states[i].delivered|
    ensures var s := states[i];
      var d := s.delivered[k];
      && |s.delivered| <= |s.claims| && Delivers(d, s.claims[k].msg)
      && (|s.claims[k].msg.payload| <= d.max ==> d.bytes == s.claims[k].msg.payload)
  {
    RunInv(c, states, events, i);
    var m := states[i].claims[k].msg;
    assert m.payload[..|m.payload|] == m.payload;
  }

  lemma StepGrows(c: Config, s: Ring, e: Event)
    requires ValidConfig(c) && Enabled(s, e)
    ensures var s' := Next(c, s, e);
      s.claims <= s'.claims && s.delivered <= s'.delivered && s.accepted <= s'.accepted && s.refused <= s'.refused
  {
    hide Push, Pop;
    match e
    case PushStep(p) => PushGrows(c, s, p);
    case PopStep => PopEffect(c, s);
    case _ =>
  }

  lemma PushGrows(c: Config, s: Ring, p: nat)
    requires ValidConfig(c) && p in s.producers && !s.producers[p].Idle?
    ensures var s' := Push(c, s, p);
      s.claims <= s'.claims && s.delivered == s'.delivered && s.accepted <= s'.accepted && s.refused <= s'.refused
  {
    hide Write;
  }

  /** The claim order and the returned sequence only ever grow at the end. */
  lemma {:induction false} HistoryGrows(c: Config, states: seq<Ring>, events: seq<Event>, i: nat, j: nat)
    requires ValidConfig(c) && IsRun(c, states, events) && i <= j < |states|
    ensures states[i].claims <= states[j].claims && states[i].delivered <= states[j].delivered
    ensures states[i].accepted <= states[j].accepted && states[i].refused <= states[j].refused
    decreases j
  {
    hide Next;
    if i < j {
      HistoryGrows(c, states, events, i, j - 1);
      StepGrows(c, states[j - 1], events[j - 1]);
    }
  }

  /** An invocation that returned success is claimed at exactly one position; one that was refused
      is claimed at none; and every claimed one has succeeded or is still being written. */
  lemma ExactlyOnce(c: Config, states: seq<Ring>, events: seq<Event>, i: nat, id: nat)
    requires ValidConfig(c) && IsRun(c, states, events) && i < |states|
    ensures var s := states[i];
      && (id in s.accepted ==> exists k :: 0 <= k < |s.claims| && s.claims[k].id == id)
      && (forall k, l :: 0 <= k < |s.claims| && 0 <= l < |s.claims| && s.claims[k].id == id == s.claims[l].id ==> k == l)
      && (id in s.refused ==> id !in s.accepted && forall k :: 0 <= k < |s.claims| ==> s.claims[k].id != id)
      && (forall k :: 0 <= k < |s.claims| ==> s.claims[k].id in s.accepted || k in s.writers)
  {
    RunInv(c, states, events, i);
    var s := states[i];
    assert forall k :: 0 <= k < |s.claims| ==> s.claims[k].id in Ids(s.claims);
  }

  lemma RefusalSeesFull(c: Config, s: Ring, e: Event)
    requires ValidConfig(c) && Enabled(s, e) && Next(c, s, e).refused != s.refused
    ensures s.count >= c.cap || (e.PushCall? && |e.msg.payload| > c.maxPayload)
  {
  }

  /** A push is refused only for an oversized payload or at an instant when the ring is full. */
  lemma RefusedOnlyWhenFull(c: Config, states: seq<Ring>, events: seq<Event>, i: nat)
    requires ValidConfig(c) && IsRun(c, states, events) && i < |events|
    requires states[i + 1].refused != states[i].refused
    ensures states[i].count == c.cap || (events[i].PushCall? && |events[i].msg.payload| > c.maxPayload)
  {
    assert states[i].count <= c.cap by { RunInv(c, states, events, i); }
    RefusalSeesFull(c, states[i], events[i]);
  }

  /** The failure the reservation order rules out cannot occur: while a claimed position is waiting,
      the head slot is FULL with that message, or the producer that claimed it is still writing it. */
  lemma HeadNeverWedged(c: Config, states: seq<Ring>, events: seq<Event>, i: nat)
    requires ValidConfig(c) && IsRun(c, states, events) && i < |states|
    requires states[i].taken < |states[i].claims| && !states[i].consumer.StoreHead?
    ensures var s := states[i];
      && s.count > 0 && s.head < |s.slots|
      && (|| (s.slots[s.head].full && Holds(s.slots[s.head], s.claims[s.taken].msg))
          || (s.taken in s.writers && s.writers[s.taken] in s.producers
              && s.producers[s.writers[s.taken]].Fill? && s.producers[s.writers[s.taken]].slot == s.head))
  {
    RunInv(c, states, events, i);
    assert InWindow(states[i], states[i].taken);
  }

  /** The consumer running alone for n steps. */
  function PopSteps(c: Config, s: Ring, n: nat): Ring
    requires ValidConfig(c)
    decreases n
  {
    if n == 0 then s else PopSteps(c, Pop(c, s), n - 1)
  }

  ghost predicate Returned(s: Ring, s': Ring) {
    && s'.consumer.Rest? && s.taken < |s.claims|
    && |s'.delivered| == |s.delivered| + 1 && Delivers(s'.delivered[|s.delivered|], s.claims[s.taken].msg)
  }

  lemma CopyStep(c: Config, s: Ring)
    requires ValidConfig(c) && s.consumer.Copy?
    requires Accounting(c, s) && Sized(c, s) && Reader(c, s)
    ensures s.taken < |s.claims| && s.consumer.at <= 3 + c.maxPayload
    ensures var t := Pop(c, s);
      && t.claims == s.claims && t.taken == s.taken && t.delivered == s.delivered
      && (if t.consumer.Copy? then t.consumer.at == s.consumer.at + 1
          else t.consumer == StoreHead(s.head, s.consumer.got) && Delivers(s.consumer.got, s.claims[s.taken].msg))
  {
    ReadStep(s.consumer.got, s.slots[s.head], s.claims[s.taken].msg, s.consumer.at);
  }

  lemma Return(c: Config, s: Ring)
    requires ValidConfig(c) && s.consumer.StoreHead? && s.taken < |s.claims|
    requires Delivers(s.consumer.got, s.claims[s.taken].msg)
    ensures Returned(s, PopSteps(c, s, 2))
  {
    var u := Pop(c, s);
    assert PopSteps(c, s, 2) == PopSteps(c, u, 1) == PopSteps(c, Pop(c, u), 0) == Pop(c, u);
  }

  lemma {:induction false} CopyFinishes(c: Config, s: Ring) returns (n: nat)
    requires ValidConfig(c) && Inv(c, s) && s.consumer.Copy?
    ensures Returned(s, PopSteps(c, s, n))
    decreases 4 + c.maxPayload - s.consumer.at
  {
    hide Accounting, Sized, Writers, Window, Reader, History, Identities;
    CopyStep(c, s);
    PopInv(c, s);
    var t := Pop(c, s);
    if t.consumer.Copy? {
      CopyStep(c, t);
      var m := CopyFinishes(c, t);
      n := m + 1;
    } else {
      Return(c, t);
      n := 3;
    }
  }

  lemma FullIsCounted(c: Config, s: Ring)
    requires ValidConfig(c) && Accounting(c, s) && Window(c, s)
    requires s.head < |s.slots| && s.slots[s.head].full
    ensures s.count > 0
  {
    assert InWindow(s, s.slots[s.head].turn);
  }

  /** The first two steps of a pop that finds the head slot FULL. */
  lemma PopStarts(c: Config, s: Ring, max: nat)
    requires ValidConfig(c) && s.consumer.Rest? && s.head < |s.slots| && s.slots[s.head].full && s.count > 0
    ensures var t := Pop(c, Pop(c, Next(c, s, PopCall(max))));
      && t.consumer.Copy? && t.delivered == s.delivered && t.claims == s.claims && t.taken == s.taken
  {
  }

  lemma PopStartsInv(c: Config, s: Ring, max: nat)
    requires ValidConfig(c) && Inv(c, s) && s.consumer.Rest?
    ensures Inv(c, Pop(c, Pop(c, Next(c, s, PopCall(max)))))
  {
    hide Inv;
    StepInv(c, s, PopCall(max));
    PopInv(c, Next(c, s, PopCall(max)));
    PopInv(c, Pop(c, Next(c, s, PopCall(max))));
  }

  /** A pop that finds the head slot FULL completes by its own steps and returns the oldest message. */
  lemma PopCompletes(c: Config, s: Ring, max: nat) returns (n: nat)
    requires ValidConfig(c) && Inv(c, s) && s.consumer.Rest? && s.head < |s.slots| && s.slots[s.head].full
    ensures Returned(s, PopSteps(c, Next(c, s, PopCall(max)), n))
  {
    assert s.count > 0 by { FullIsCounted(c, s); }
    hide Inv, Pop, Next;
    PopStarts(c, s, max);
    PopStartsInv(c, s, max);
    var s1 := Next(c, s, PopCall(max));
    var s2 := Pop(c, s1);
    var m := CopyFinishes(c, Pop(c, s2));
    n := m + 2;
    assert PopSteps(c, s1, n) == PopSteps(c, s2, m + 1) == PopSteps(c, Pop(c, s2), m);
  }

  // ---- When a call comes back empty-handed ----

  /** A pop that gives up before it looks at the head found nothing: no claimed position and no
      reservation was waiting. */
  lemma EmptyPop(c: Config, states: seq<Ring>, events: seq<Event>, i: nat)
    requires ValidConfig(c) && IsRun(c, states, events) && i < |events| && events[i].PopCall? && states[i + 1].consumer.Rest?
    ensures states[i].count == 0 && Reserved(states[i].producers) == {} && states[i].taken == |states[i].claims|
  {
    CountBounds(c, states, events, i);
    assert states[i + 1] == Next(c, states[i], events[i]);
    assert states[i].taken <= |states[i].claims| by { RunInv(c, states, events, i); }
  }

  /** A pop that gives up at the head slot does so because no claimed position is waiting, or because the
      producer that claimed the oldest one is still writing it. */
  lemma TransientPop(c: Config, states: seq<Ring>, events: seq<Event>, i: nat)
    requires ValidConfig(c) && IsRun(c, states, events) && i < |events| && events[i].PopStep?
    requires states[i].consumer.LoadStatus? && states[i + 1].consumer.Rest?
    ensures states[i].taken == |states[i].claims| || states[i].taken in states[i].writers
  {
    var s := states[i];
    RunInv(c, states, events, i);
    assert states[i + 1] == Next(c, s, events[i]);
    assert s.consumer.head == s.head && s.taken <= |s.claims| && |s.slots| == c.cap;
    if s.taken < |s.claims| { HeadNeverWedged(c, states, events, i); }
  }

  // ---- Lost compare-and-swaps ----

  /** The count a producer is about to swap was there when it loaded it, and the producer has not moved since. */
  ghost predicate LoadedCount(states: seq<Ring>, p: nat, j: nat, i: nat) {
    && j <= i < |states| && p in states[i].producers && states[i].producers[p].CasCount?
    && states[j].count == states[i].producers[p].seen
    && forall k :: j <= k <= i ==> p in states[k].producers && states[k].producers[p] == states[i].producers[p]
  }

  lemma {:induction false} CountWasSeen(c: Config, states: seq<Ring>, events: seq<Event>, i: nat, p: nat) returns (j: nat)
    requires ValidConfig(c) && IsRun(c, states, events) && i < |states| && p in states[i].producers && states[i].producers[p].CasCount?
    ensures LoadedCount(states, p, j, i)
    decreases i
  {
    hide Next, Enabled, Initial;
    if i == 0 { NobodyPushes(c, states[0], p); }
    var s, e := states[i - 1], events[i - 1];
    assert Enabled(s, e) && states[i] == Next(c, s, e);
    if p in s.producers && s.producers[p] == states[i].producers[p] {
      j := CountWasSeen(c, states, events, i - 1, p);
    } else {
      OwnStep(c, s, e, p);
      j := i;
    }
  }

  lemma NobodyPushes(c: Config, s: Ring, p: nat)
    requires ValidConfig(c) && Initial(c, s)
    ensures p !in s.producers
  {
  }

  /** Only a producer's own events change its program counter. */
  lemma OwnStep(c: Config, s: Ring, e: Event, p: nat)
    requires ValidConfig(c) && Enabled(s, e) && p in Next(c, s, e).producers
    requires p in s.producers ==> Next(c, s, e).producers[p] != s.producers[p]
    ensures e == PushStep(p) || (e.PushCall? && e.p == p)
    ensures Next(c, s, e).producers[p].CasCount? ==> Next(c, s, e).producers[p].seen == Next(c, s, e).count
    ensures Next(c, s, e).producers[p].CasTail? ==> Next(c, s, e).producers[p].seen == Next(c, s, e).tail
  {
  }

  lemma {:induction false} CountChanged(states: seq<Ring>, j: nat, i: nat) returns (k: nat)
    requires j <= i < |states| && states[j].count != states[i].count
    ensures j <= k < i && states[k].count == states[j].count && states[k + 1].count != states[k].count
    decreases i
  {
    if states[i - 1].count == states[j].count { k := i - 1; } else { k := CountChanged(states, j, i - 1); }
  }

  /** What changes the count: a push that gets its reservation, or a pop that completes. */
  lemma CountStep(c: Config, s: Ring, e: Event)
    requires ValidConfig(c) && Enabled(s, e) && Next(c, s, e).count != s.count
    ensures || (e.PushStep? && s.producers[e.p].CasCount? && Next(c, s, e).producers[e.p].LoadTail? && Next(c, s, e).count == s.count + 1)
            || (e.PopStep? && s.consumer.DecCount? && |Next(c, s, e).delivered| == |s.delivered| + 1)
  {
  }

  /** A producer loses its swap of the count only because, since it loaded it, another push got its
      reservation or a pop completed. */
  lemma LostCountMeansProgress(c: Config, states: seq<Ring>, events: seq<Event>, i: nat, p: nat) returns (k: nat)
    requires ValidConfig(c) && IsRun(c, states, events) && i < |states|
    requires p in states[i].producers && states[i].producers[p].CasCount? && states[i].count != states[i].producers[p].seen
    ensures k < i && events[k] != PushStep(p)
    ensures var s, e, t := states[k], events[k], states[k + 1];
      || (e.PushStep? && e.p in s.producers && s.producers[e.p].CasCount? && e.p in t.producers && t.producers[e.p].LoadTail?)
      || (e.PopStep? && |t.delivered| == |s.delivered| + 1)
  {
    var j := CountWasSeen(c, states, events, i, p);
    k := CountChanged(states, j, i);
    assert Enabled(states[k], events[k]) && states[k + 1] == Next(c, states[k], events[k]);
    CountStep(c, states[k], events[k]);
    assert states[k + 1].producers[p] == states[k].producers[p];
    hide Next;
  }

  ghost predicate LoadedTail(states: seq<Ring>, p: nat, j: nat, i: nat) {
    && j <= i < |states| && p in states[i].producers && states[i].producers[p].CasTail?
    && states[j].tail == states[i].producers[p].seen
    && forall k :: j <= k <= i ==> p in states[k].producers && states[k].producers[p] == states[i].producers[p]
  }

  lemma {:induction false} TailWasSeen(c: Config, states: seq<Ring>, events: seq<Event>, i: nat, p: nat) returns (j: nat)
    requires ValidConfig(c) && IsRun(c, states, events) && i < |states| && p in states[i].producers && states[i].producers[p].CasTail?
    ensures LoadedTail(states, p, j, i)
    decreases i
  {
    hide Next, Enabled, Initial;
    if i == 0 { NobodyPushes(c, states[0], p); }
    var s, e := states[i - 1], events[i - 1];
    assert Enabled(s, e) && states[i] == Next(c, s, e);
    if p in s.producers && s.producers[p] == states[i].producers[p] {
      j := TailWasSeen(c, states, events, i - 1, p);
    } else {
      OwnStep(c, s, e, p);
      j := i;
    }
  }

  lemma {:induction false} TailChanged(states: seq<Ring>, j: nat, i: nat) returns (k: nat)
    requires j <= i < |states| && states[j].tail != states[i].tail
    ensures j <= k < i && states[k + 1].tail != states[k].tail
    decreases i
  {
    if states[i - 1].tail != states[i].tail { k := i - 1; } else { k := TailChanged(states, j, i - 1); }
  }

  lemma TailStep(c: Config, s: Ring, e: Event)
    requires ValidConfig(c) && Enabled(s, e) && Next(c, s, e).tail != s.tail
    ensures Claims(s, e) && Next(c, s, e).producers[e.p].Fill? && |Next(c, s, e).claims| == |s.claims| + 1
  {
  }

  /** A producer loses its swap of the tail only because another push has claimed a position meanwhile. */
  lemma LostTailMeansProgress(c: Config, states: seq<Ring>, events: seq<Event>, i: nat, p: nat) returns (k: nat)
    requires ValidConfig(c) && IsRun(c, states, events) && i < |states|
    requires p in states[i].producers && states[i].producers[p].CasTail? && states[i].tail != states[i].producers[p].seen
    ensures k < i && Claims(states[k], events[k]) && events[k] != PushStep(p) && |states[k + 1].claims| == |states[k].claims| + 1
  {
    var j := TailWasSeen(c, states, events, i, p);
    k := TailChanged(states, j, i);
    assert Enabled(states[k], events[k]) && states[k + 1] == Next(c, states[k], events[k]);
    TailStep(c, states[k], events[k]);
    assert states[k + 1].producers[p] == states[k].producers[p];
    hide Next;
  }

  // ---- The length test ----

  /** A uint32_t seen as an int32_t. */
  function Int32(n: nat): int
    requires n < 0x1_0000_0000
  {
    if n < 0x8000_0000 then n else n - 0x1_0000_0000
  }

  /** The test on the payload length is the intended one iff the length is below 2^31. */
  lemma LengthTestIff(max: nat, len: nat)
    requires max < 0x8000_0000 && len < 0x1_0000_0000
    ensures (Int32(len) <= max <==> len <= max) <==> len < 0x8000_0000
  {
  }
}
