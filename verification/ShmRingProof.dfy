module RingProof {
  import opened ShmRing

  lemma MulBounds(m: int, d: int)
    requires m > 0
    ensures d >= 1 ==> m * d >= m
    ensures d <= -1 ==> m * d <= -m
  {
  }

  lemma ModUnique(x: int, m: int, q: int, r: int)
    requires m > 0 && x == m * q + r && 0 <= r < m
    ensures x % m == r
  {
    assert x == m * (x / m) + x % m;
    assert m * (x / m - q) == r - x % m;
    MulBounds(m, x / m - q);
  }

  /** Indices less than a ring apart live in different slots. */
  lemma PosDistinct(c: Config, i: nat, j: nat)
    requires ValidConfig(c) && i < j < i + c.cap
    ensures Pos(c, i) != Pos(c, j)
  {
    var d := j / c.cap - i / c.cap;
    assert i == c.cap * (i / c.cap) + i % c.cap;
    assert j == c.cap * (j / c.cap) + j % c.cap;
    assert c.cap * d == j - i + i % c.cap - j % c.cap;
    MulBounds(c.cap, d);
  }

  lemma ModNext(i: nat, m: nat)
    requires m > 0
    ensures (i + 1) % m == (i % m + 1) % m
  {
    var q, r := i / m, i % m;
    assert i == m * q + r;
    if r + 1 < m {
      ModUnique(i + 1, m, q, r + 1);
      ModUnique(r + 1, m, 0, r + 1);
    } else {
      ModUnique(m, m, 1, 0);
      assert i + 1 == m * (q + 1) + 0 by { assert m * (q + 1) == m * q + m; }
      ModUnique(i + 1, m, q + 1, 0);
    }
  }

  lemma PosNext(c: Config, i: nat)
    requires ValidConfig(c)
    ensures Pos(c, i + 1) == (Pos(c, i) + 1) % c.cap
  {
    ModNext(i, c.cap);
  }

  lemma WindowDistinct(c: Config, s: Ring, i: nat, j: nat)
    requires ValidConfig(c) && Accounting(c, s) && InWindow(s, i) && InWindow(s, j) && i != j
    ensures Pos(c, i) != Pos(c, j)
  {
    if i < j { PosDistinct(c, i, j); } else { PosDistinct(c, j, i); }
  }

  lemma ReservedUpdate(producers: map<nat, Producer>, p: nat, now: Producer)
    ensures |Reserved(producers[p := now])| == |Reserved(producers)|
              - (if p in Reserved(producers) then 1 else 0) + (if now.LoadTail? || now.CasTail? then 1 else 0)
  {
    var before, after := Reserved(producers), Reserved(producers[p := now]);
    if now.LoadTail? || now.CasTail? {
      assert after == before + {p};
    } else {
      assert after == before - {p};
    }
  }

  // ---- shm_ring_push ----

  /** What a store into a claimed slot changes. */
  lemma FillEffect(c: Config, s: Ring, p: nat)
    requires ValidConfig(c) && p in s.producers && s.producers[p].Fill? && s.producers[p].slot < |s.slots|
    ensures var f, s' := s.producers[p], Push(c, s, p);
      s' == s.(slots := s.slots[f.slot := Write(s.slots[f.slot], f.call.msg, f.at)],
               producers := s'.producers, writers := s'.writers, accepted := s'.accepted)
    ensures var f, s' := s.producers[p], Push(c, s, p);
      if f.at < 3 + |f.call.msg.payload|
      then s'.writers == s.writers && s'.accepted == s.accepted && s'.producers == s.producers[p := f.(at := f.at + 1)]
      else s'.writers == s.writers - {f.index} && s'.accepted == s.accepted + {f.call.id} && s'.producers == s.producers[p := Idle]
  {
  }

  /** What the claim of a slot changes. */
  lemma ClaimEffect(c: Config, s: Ring, p: nat)
    requires ValidConfig(c) && p in s.producers && s.producers[p].CasTail? && s.tail == s.producers[p].seen && s.tail < |s.slots|
    ensures var call := s.producers[p].call;
      Push(c, s, p) == s.(tail := (s.tail + 1) % c.cap, producers := s.producers[p := Fill(call, s.tail, |s.claims|, 0)],
        claims := s.claims + [call], writers := s.writers[|s.claims| := p],
        slots := s.slots[s.tail := s.slots[s.tail].(turn := |s.claims|)])
  {
  }

  /** All other steps of a push leave slots, claims and the consumer alone. */
  lemma OtherEffect(c: Config, s: Ring, p: nat)
    requires ValidConfig(c) && TouchesNothing(s, p)
    ensures var s' := Push(c, s, p);
      && s' == s.(count := s'.count, producers := s'.producers, refused := s'.refused)
      && p in s'.producers && !s'.producers[p].Fill? && s'.producers == s.producers[p := s'.producers[p]]
  {
  }

  lemma PushAccounting(c: Config, s: Ring, p: nat)
    requires ValidConfig(c) && p in s.producers && !s.producers[p].Idle?
    requires Accounting(c, s)
    ensures Accounting(c, Push(c, s, p))
  {
    hide Pos, Reserved, Write;
    ReservedUpdate(s.producers, p, Push(c, s, p).producers[p]);
    ReservedSteps(s.producers, p);
    PosNext(c, |s.claims|);
    if s.producers[p].Fill? && s.producers[p].slot < |s.slots| { FillEffect(c, s, p); }
    else if s.producers[p].CasTail? && s.tail == s.producers[p].seen {
      ClaimEffect(c, s, p);
      hide Push;
    }
  }

  lemma ReservedSteps(producers: map<nat, Producer>, p: nat)
    requires p in producers
    ensures p in Reserved(producers) <==> producers[p].LoadTail? || producers[p].CasTail?
  {
  }

  lemma PushSized(c: Config, s: Ring, p: nat)
    requires ValidConfig(c) && p in s.producers && !s.producers[p].Idle?
    requires Sized(c, s)
    ensures Sized(c, Push(c, s, p))
  {
  }

  /** The claim step takes a slot outside the window: it is EMPTY and nobody else uses it. */
  lemma ClaimedSlotIsFree(c: Config, s: Ring, p: nat)
    requires ValidConfig(c) && p in s.producers && s.producers[p].CasTail? && s.tail == s.producers[p].seen
    requires Accounting(c, s) && Window(c, s)
    ensures s.tail < |s.slots| && !s.slots[s.tail].full
    ensures forall i: nat :: InWindow(s, i) ==> Pos(c, i) != s.tail
  {
    PushAccounting(c, s, p);
    var s' := Push(c, s, p);
    forall i: nat | InWindow(s, i) ensures Pos(c, i) != s.tail {
      assert InWindow(s', i) && InWindow(s', |s.claims|);
      WindowDistinct(c, s', i, |s.claims|);
    }
  }

  lemma ClaimWriters(c: Config, s: Ring, p: nat)
    requires ValidConfig(c) && p in s.producers && s.producers[p].CasTail? && s.tail == s.producers[p].seen
    requires Accounting(c, s) && Writers(c, s) && Window(c, s)
    ensures Accounting(c, Push(c, s, p)) && Writers(c, Push(c, s, p))
  {
    hide Push, Reserved, Written;
    PushAccounting(c, s, p);
    ClaimedSlotIsFree(c, s, p);
    ClaimEffect(c, s, p);
    NothingWritten(s.slots[s.tail], s.producers[p].call.msg);
    hide Window;
    var s' := Push(c, s, p);
    assert |s.claims| !in s.writers;
    forall i | i in s'.writers
      ensures var q := s'.writers[i];
          && InWindow(s', i) && q in s'.producers && s'.producers[q].Fill? && s'.producers[q].index == i
          && Writes(s'.producers[q], s'.claims[i], Pos(c, i), s'.slots[Pos(c, i)]) {
       if i != |s.claims| {
         assert i in s.writers;
         assert s'.slots[Pos(c, i)] == s.slots[Pos(c, i)];
       }
    }
  }

  lemma NothingWritten(slot: Slot, msg: Msg)
    ensures forall turn: nat :: Written(slot.(turn := turn), msg, 0)
  {
  }

  lemma WriterOf(c: Config, s: Ring, p: nat)
    requires ValidConfig(c) && |s.slots| == c.cap && Writers(c, s)
    requires p in s.producers && s.producers[p].Fill?
    ensures var f := s.producers[p];
      f.index in s.writers && s.writers[f.index] == p && InWindow(s, f.index) && s.claims[f.index] == f.call
  {
    assert s.producers[p].index in s.writers;
  }

  lemma WritersInWindow(c: Config, s: Ring)
    requires ValidConfig(c) && |s.slots| == c.cap && Writers(c, s)
    ensures forall i :: i in s.writers ==> InWindow(s, i)
  {
  }

  lemma WriteKeeps(slot: Slot, msg: Msg, at: nat)
    requires Written(slot, msg, at) && !slot.full && at < 3 + |msg.payload| <= 3 + |slot.bytes|
    ensures Written(Write(slot, msg, at), msg, at + 1) && !Write(slot, msg, at).full
  {
  }

  lemma FillWriters(c: Config, s: Ring, p: nat)
    requires ValidConfig(c) && p in s.producers && s.producers[p].Fill?
    requires Accounting(c, s) && Sized(c, s) && Writers(c, s)
    ensures Accounting(c, Push(c, s, p)) && Writers(c, Push(c, s, p))
  {
    hide Push, Reserved, Pos;
    PushAccounting(c, s, p);
    var s' := Push(c, s, p);
    var f := s.producers[p];
    assert f.index in s.writers && s.writers[f.index] == p;
    FillEffect(c, s, p);
    if f.at < 3 + |f.call.msg.payload| { WriteKeeps(s.slots[f.slot], f.call.msg, f.at); }
    hide Written, Write;
    forall i | i in s'.writers
      ensures var q := s'.writers[i];
          && InWindow(s', i) && q in s'.producers && s'.producers[q].Fill? && s'.producers[q].index == i
          && Writes(s'.producers[q], s'.claims[i], Pos(c, i), s'.slots[Pos(c, i)]) {
       if i != f.index {
         WindowDistinct(c, s, i, f.index);
         assert s'.slots[Pos(c, i)] == s.slots[Pos(c, i)];
       }
    }
  }

  lemma OtherWriters(c: Config, s: Ring, p: nat)
    requires ValidConfig(c) && TouchesNothing(s, p) && Accounting(c, s) && Writers(c, s)
    ensures Writers(c, Push(c, s, p))
  {
    hide Push, Accounting, Writes, Pos;
    assert |s.slots| == c.cap by { SlotCount(c, s); }
    OtherEffect(c, s, p);
    var s' := Push(c, s, p);
    assert forall i: nat :: InWindow(s', i) <==> InWindow(s, i);
  }

  ghost predicate WindowAt(c: Config, s: Ring, i: nat)
    requires ValidConfig(c) && |s.slots| == c.cap && InWindow(s, i)
  {
    && s.slots[Pos(c, i)].turn == i
    && (|| i in s.writers
        || (s.slots[Pos(c, i)].full && Holds(s.slots[Pos(c, i)], s.claims[i].msg))
        || (s.consumer.StoreHead? && i == s.taken))
  }

  lemma ClaimWindow(c: Config, s: Ring, p: nat)
    requires ValidConfig(c) && p in s.producers && s.producers[p].CasTail? && s.tail == s.producers[p].seen
    requires Accounting(c, s) && Window(c, s)
    ensures Accounting(c, Push(c, s, p)) && Window(c, Push(c, s, p))
  {
    PushAccounting(c, s, p);
    ClaimedSlotIsFree(c, s, p);
    var s' := Push(c, s, p);
    forall i: nat | InWindow(s', i) ensures WindowAt(c, s', i) {
      if i != |s.claims| {
        assert InWindow(s, i);
        assert s'.slots[Pos(c, i)] == s.slots[Pos(c, i)];
      }
    }
  }

  /** A store keeps the slot's turn, and only the last one makes it FULL, with the whole message in it. */
  lemma WriteEnds(c: Config, s: Ring, p: nat)
    requires ValidConfig(c) && |s.slots| == c.cap && Writers(c, s) && Sized(c, s) && p in s.producers && s.producers[p].Fill?
    ensures var f := s.producers[p];
      f.slot == Pos(c, f.index) && f.slot < |s.slots| && InWindow(s, f.index) && s.claims[f.index] == f.call
      && var slot := Write(s.slots[f.slot], f.call.msg, f.at);
         && slot.turn == s.slots[f.slot].turn && (slot.full <==> f.at >= 3 + |f.call.msg.payload|)
         && (slot.full ==> Holds(slot, f.call.msg))
  {
    hide Pos;
    assert s.producers[p].index in s.writers;
  }

  lemma FillWindow(c: Config, s: Ring, p: nat)
    requires ValidConfig(c) && p in s.producers && s.producers[p].Fill?
    requires Accounting(c, s) && Sized(c, s) && Writers(c, s) && Window(c, s)
    ensures Accounting(c, Push(c, s, p)) && Window(c, Push(c, s, p))
  {
    hide Push, Reserved, Pos, Holds;
    PushAccounting(c, s, p);
    var s' := Push(c, s, p);
    var f := s.producers[p];
    assert f.index in s.writers && s.writers[f.index] == p;
    FillEffect(c, s, p);
    WriteEnds(c, s, p);
    hide Writes, Write;
    forall i: nat | InWindow(s', i) ensures WindowAt(c, s', i) {
      assert InWindow(s, i) && WindowAt(c, s, i);
      if i != f.index {
        WindowDistinct(c, s, i, f.index);
        assert s'.slots[Pos(c, i)] == s.slots[Pos(c, i)];
      }
    }
  }

  lemma ClaimReader(c: Config, s: Ring, p: nat)
    requires ValidConfig(c) && p in s.producers && s.producers[p].CasTail? && s.tail == s.producers[p].seen
    requires Accounting(c, s) && Window(c, s) && Writers(c, s) && Reader(c, s)
    ensures Accounting(c, Push(c, s, p)) && Reader(c, Push(c, s, p))
  {
    PushAccounting(c, s, p);
    ClaimedSlotIsFree(c, s, p);
  }

  lemma FillReader(c: Config, s: Ring, p: nat)
    requires ValidConfig(c) && p in s.producers && s.producers[p].Fill?
    requires Accounting(c, s) && Writers(c, s) && Reader(c, s)
    ensures Accounting(c, Push(c, s, p)) && Reader(c, Push(c, s, p))
  {
    PushAccounting(c, s, p);
    var f := s.producers[p];
    assert f.index in s.writers && s.writers[f.index] == p;
    if s.consumer.Copy? || s.consumer.StoreHead? {
      assert f.index != s.taken;
      WindowDistinct(c, s, s.taken, f.index);
    }
  }

  lemma IdsExtend(claims: seq<Call>, call: Call)
    ensures Ids(claims + [call]) == Ids(claims) + {call.id}
  {
    var after := claims + [call];
    assert after[|claims|] == call;
    assert forall i :: 0 <= i < |claims| ==> after[i] == claims[i];
  }

  lemma ClaimIdentities(s: Ring, c: Config, p: nat)
    requires ValidConfig(c) && p in s.producers && s.producers[p].CasTail? && s.tail == s.producers[p].seen
    requires Accounting(c, s) && Identities(s)
    requires forall i :: i in s.writers ==> InWindow(s, i)
    ensures Identities(Push(c, s, p))
  {
    hide Push, Reserved;
    ClaimEffect(c, s, p);
    hide Accounting;
    var s' := Push(c, s, p);
    var call := s.producers[p].call;
    assert Undecided(s, p);
    assert forall q :: Undecided(s', q) ==> q != p && Undecided(s, q) && s'.producers[q] == s.producers[q];
    IdsExtend(s.claims, call);
    hide Undecided, Ids;
    forall i | 0 <= i < |s.claims| ensures s.claims[i].id != call.id {
      assert s.claims[i].id in Ids(s.claims);
    }
  }

  lemma OutsideSlots(c: Config, s: Ring, p: nat)
    requires ValidConfig(c) && p in s.producers && s.producers[p].Fill? && s.producers[p].slot >= |s.slots|
    ensures Push(c, s, p) == s
  {
  }

  lemma FillIdentities(s: Ring, c: Config, p: nat)
    requires ValidConfig(c) && p in s.producers && s.producers[p].Fill?
    requires Identities(s)
    requires var i := s.producers[p].index; i in s.writers && i < |s.claims| && s.claims[i] == s.producers[p].call
    ensures Identities(Push(c, s, p))
  {
    hide Push;
    var s' := Push(c, s, p);
    var f := s.producers[p];
    if f.slot < |s.slots| { FillEffect(c, s, p); } else { OutsideSlots(c, s, p); }
    assert s.claims[f.index].id in Ids(s.claims);
    assert forall q :: Undecided(s', q) ==> Undecided(s, q) && s'.producers[q] == s.producers[q];
    hide Undecided, Ids;
    if p !in s'.producers || s'.producers[p].Idle? {
      forall i | 0 <= i < |s.claims| ensures s'.claims[i].id in s'.accepted <==> i !in s'.writers {
      }
    }
  }

  /** The steps that touch neither slots nor the claim order. */
  ghost predicate TouchesNothing(s: Ring, p: nat) {
    && p in s.producers && !s.producers[p].Idle? && !s.producers[p].Fill?
    && (s.producers[p].CasTail? ==> s.tail != s.producers[p].seen)
  }

  lemma OtherWindow(c: Config, s: Ring, p: nat)
    requires ValidConfig(c) && TouchesNothing(s, p) && Accounting(c, s) && Window(c, s)
    ensures Accounting(c, Push(c, s, p)) && Window(c, Push(c, s, p))
  {
    hide Push, Reserved, Pos, Holds;
    PushAccounting(c, s, p);
    OtherEffect(c, s, p);
    var s' := Push(c, s, p);
    assert forall i: nat :: InWindow(s', i) <==> InWindow(s, i);
  }

  lemma OtherReader(c: Config, s: Ring, p: nat)
    requires ValidConfig(c) && TouchesNothing(s, p) && Accounting(c, s) && Reader(c, s)
    ensures Accounting(c, Push(c, s, p)) && Reader(c, Push(c, s, p))
  {
    PushAccounting(c, s, p);
  }

  /** Identities look at the history and at the undecided calls only. */
  lemma IdentitiesFrame(s: Ring, s': Ring)
    requires Identities(s)
    requires s'.claims == s.claims && s'.writers == s.writers && s'.accepted == s.accepted
    requires s'.refused == s.refused && s'.nextId == s.nextId
    requires forall q :: Undecided(s', q) ==> Undecided(s, q) && s'.producers[q].call.id == s.producers[q].call.id
    ensures Identities(s')
  {
    hide Undecided, Ids;
  }

  /** Refusing a call that was undecided. */
  lemma RefuseIdentities(s: Ring, s': Ring, p: nat)
    requires Identities(s) && Undecided(s, p)
    requires s'.claims == s.claims && s'.writers == s.writers && s'.accepted == s.accepted && s'.nextId == s.nextId
    requires s'.refused == s.refused + {s.producers[p].call.id} && s'.producers == s.producers[p := Idle]
    ensures Identities(s')
  {
    assert forall q :: Undecided(s', q) ==> q != p && Undecided(s, q) && s'.producers[q].call.id == s.producers[q].call.id;
    hide Undecided, Ids;
  }

  lemma OtherIdentities(c: Config, s: Ring, p: nat)
    requires ValidConfig(c) && TouchesNothing(s, p) && Identities(s)
    ensures Identities(Push(c, s, p))
  {
    var s' := Push(c, s, p);
    assert Undecided(s, p);
    hide Identities, Ids;
    if s.producers[p].LoadCount? && s.count >= c.cap {
      RefuseIdentities(s, s', p);
    } else {
      IdentitiesFrame(s, s');
    }
  }

  lemma PushInv(c: Config, s: Ring, p: nat)
    requires ValidConfig(c) && p in s.producers && !s.producers[p].Idle?
    requires Inv(c, s)
    ensures Inv(c, Push(c, s, p))
  {
    hide Accounting, Sized, Writers, Window, Reader, Identities;
    PushAccounting(c, s, p);
    PushSized(c, s, p);
    assert History(Push(c, s, p));
    if s.producers[p].Fill? {
      FillWriters(c, s, p);
      FillWindow(c, s, p);
      FillReader(c, s, p);
      WriterOf(c, s, p);
      FillIdentities(s, c, p);
    } else if s.producers[p].CasTail? && s.tail == s.producers[p].seen {
      ClaimWriters(c, s, p);
      ClaimWindow(c, s, p);
      ClaimReader(c, s, p);
      assert forall i :: i in s.writers ==> InWindow(s, i) by { WritersInWindow(c, s); }
      ClaimIdentities(s, c, p);
    } else {
      OtherWriters(c, s, p);
      OtherWindow(c, s, p);
      OtherReader(c, s, p);
      OtherIdentities(c, s, p);
    }
  }

  // ---- shm_ring_pop ----

  lemma PopAccounting(c: Config, s: Ring)
    requires ValidConfig(c) && Accounting(c, s) && Reader(c, s)
    ensures Accounting(c, Pop(c, s))
  {
    ModNext(s.taken, c.cap);
  }

  lemma ReadStep(got: Delivery, slot: Slot, msg: Msg, at: nat)
    requires Holds(slot, msg) && Read(got, msg, at) && |slot.bytes| >= |msg.payload|
    ensures at == 0 ==> Read(got.(len := slot.len), msg, 1)
    ensures at == 1 ==> Read(got.(client := slot.client), msg, 2)
    ensures at == 2 ==> Read(got.(req := slot.req), msg, 3)
    ensures at >= 3 && at - 3 < CopyLen(got) ==> Read(got.(bytes := got.bytes + [slot.bytes[at - 3]]), msg, at + 1)
    ensures at >= 3 && at - 3 >= CopyLen(got) ==> Delivers(got, msg)
  {
    if at >= 3 && at - 3 < CopyLen(got) {
      assert msg.payload[..at - 2] == msg.payload[..at - 3] + [msg.payload[at - 3]];
    }
  }

  lemma PopReader(c: Config, s: Ring)
    requires ValidConfig(c) && Accounting(c, s) && Sized(c, s) && Writers(c, s) && Window(c, s) && Reader(c, s)
    ensures Accounting(c, Pop(c, s)) && Reader(c, Pop(c, s))
  {
    PopAccounting(c, s);
    match s.consumer
    case LoadStatus(max, head) =>
      if s.slots[head].full {
        assert InWindow(s, s.slots[head].turn) && InWindow(s, s.taken);
      }
    case Copy(head, at, got) =>
      ReadStep(got, s.slots[head], s.claims[s.taken].msg, at);
    case _ =>
  }

  /** What a step of a pop can change. */
  lemma PopEffect(c: Config, s: Ring)
    requires ValidConfig(c)
    ensures var s' := Pop(c, s);
      && s' == s.(head := s'.head, count := s'.count, slots := s'.slots, consumer := s'.consumer, taken := s'.taken, delivered := s'.delivered)
      && s'.taken == s.taken + (if s.consumer.StoreHead? then 1 else 0)
      && s'.delivered == (if s.consumer.DecCount? then s.delivered + [s.consumer.got] else s.delivered)
      && |s'.slots| == |s.slots|
      && (forall j :: 0 <= j < |s.slots| ==> s'.slots[j] == s.slots[j] || (s.consumer.Copy? && j == s.consumer.head))
      && (s'.consumer.DecCount? <==> s.consumer.StoreHead?)
      && (s.consumer.StoreHead? ==> s'.consumer.got == s.consumer.got)
  {
  }

  lemma PopHistory(c: Config, s: Ring)
    requires ValidConfig(c) && Accounting(c, s) && Reader(c, s) && History(s)
    ensures History(Pop(c, s))
  {
    hide Pop, Delivers, Holds, Read, Reserved, Pos;
    PopEffect(c, s);
  }

  lemma PopWriters(c: Config, s: Ring)
    requires ValidConfig(c) && Accounting(c, s) && Reader(c, s) && Writers(c, s)
    ensures Accounting(c, Pop(c, s)) && Writers(c, Pop(c, s))
  {
    hide Pop, Pos, Holds, Read, Delivers, Reserved, Written;
    PopAccounting(c, s);
    PopEffect(c, s);
    var s' := Pop(c, s);
    forall i | i in s.writers ensures InWindow(s', i) && s'.slots[Pos(c, i)] == s.slots[Pos(c, i)] {
      assert InWindow(s, i);
      if s.consumer.Copy? && i != s.taken { WindowDistinct(c, s, i, s.taken); }
    }
    hide Reader;
  }

  lemma PopClaims(c: Config, s: Ring, i: nat)
    requires ValidConfig(c) && Accounting(c, s) && Accounting(c, Pop(c, s)) && Reader(c, s) && Window(c, s) && InWindow(Pop(c, s), i)
    ensures WindowAt(c, Pop(c, s), i)
  {
    hide Reserved, Read, Delivers, Written;
    assert InWindow(s, i) && WindowAt(c, s, i);
    if s.consumer.Copy? && i != s.taken { WindowDistinct(c, s, i, s.taken); }
  }

  lemma PopFull(c: Config, s: Ring, j: nat)
    requires ValidConfig(c) && Accounting(c, s) && Reader(c, s) && Window(c, s)
    requires |Pop(c, s).slots| == c.cap && j < c.cap && Pop(c, s).slots[j].full
    ensures InWindow(Pop(c, s), Pop(c, s).slots[j].turn) && Pos(c, Pop(c, s).slots[j].turn) == j
  {
    hide Reserved, Read, Delivers, Written;
    assert s.slots[j].full && Pop(c, s).slots[j] == s.slots[j];
  }

  lemma PopWindow(c: Config, s: Ring)
    requires ValidConfig(c) && Accounting(c, s) && Reader(c, s) && Window(c, s)
    ensures Accounting(c, Pop(c, s)) && Window(c, Pop(c, s))
  {
    PopAccounting(c, s);
    var s' := Pop(c, s);
    forall i: nat | InWindow(s', i) ensures WindowAt(c, s', i) { PopClaims(c, s, i); }
    forall j: nat | j < c.cap && s'.slots[j].full
      ensures InWindow(s', s'.slots[j].turn) && Pos(c, s'.slots[j].turn) == j { PopFull(c, s, j); }
    hide Pop, Reader, Pos, Reserved;
  }

  lemma PopIdentities(c: Config, s: Ring)
    requires ValidConfig(c) && Identities(s)
    ensures Identities(Pop(c, s))
  {
    hide Identities;
    IdentitiesFrame(s, Pop(c, s));
  }

  lemma PopSized(c: Config, s: Ring)
    requires ValidConfig(c) && Sized(c, s)
    ensures Sized(c, Pop(c, s))
  {
  }

  lemma PopInv(c: Config, s: Ring)
    requires ValidConfig(c) && Inv(c, s)
    ensures Inv(c, Pop(c, s))
  {
    hide Accounting, Sized, Writers, Window, Reader, History, Identities;
    PopReader(c, s);
    PopHistory(c, s);
    PopWriters(c, s);
    PopWindow(c, s);
    PopIdentities(c, s);
    PopSized(c, s);
  }

  // ---- Calls ----

  lemma SlotCount(c: Config, s: Ring)
    requires ValidConfig(c) && Accounting(c, s)
    ensures |s.slots| == c.cap
  {
  }

  lemma CallAccounting(c: Config, s: Ring, e: Event)
    requires ValidConfig(c) && Enabled(s, e) && (e.PushCall? || e.PopCall?)
    requires Accounting(c, s) && Sized(c, s) && History(s)
    ensures Accounting(c, Next(c, s, e)) && Sized(c, Next(c, s, e)) && History(Next(c, s, e))
  {
    if e.PushCall? {
      ReservedUpdate(s.producers, e.p, LoadCount(Call(s.nextId, e.msg)));
    }
  }

  /** Invoking a push gives an idle producer a call and touches nothing else of the ring. */
  lemma PushCallWindow(c: Config, s: Ring, p: nat, call: Call, nextId: nat, refused: set<nat>)
    requires ValidConfig(c) && (p in s.producers ==> s.producers[p].Idle?)
    requires |s.slots| == c.cap && Writers(c, s) && Window(c, s) && Reader(c, s)
    ensures var s' := s.(nextId := nextId, refused := refused); Writers(c, s') && Window(c, s') && Reader(c, s')
    ensures var s' := s.(nextId := nextId, producers := s.producers[p := LoadCount(call)]);
      Writers(c, s') && Window(c, s') && Reader(c, s')
  {
    hide Writes, Holds, Read, Delivers, Pos;
    assert forall i :: InWindow(s.(nextId := nextId, refused := refused), i) <==> InWindow(s, i);
    assert forall i :: InWindow(s.(nextId := nextId, producers := s.producers[p := LoadCount(call)]), i) <==> InWindow(s, i);
  }

  lemma PopCallWindow(c: Config, s: Ring, max: nat)
    requires ValidConfig(c) && s.consumer.Rest?
    requires |s.slots| == c.cap && Writers(c, s) && Window(c, s)
    ensures var s' := s.(consumer := LoadHead(max)); Writers(c, s') && Window(c, s') && Reader(c, s')
  {
    hide Writes, Holds, Read, Delivers, Pos;
    assert forall i :: InWindow(s.(consumer := LoadHead(max)), i) <==> InWindow(s, i);
  }

  lemma CallWindow(c: Config, s: Ring, e: Event)
    requires ValidConfig(c) && Enabled(s, e) && (e.PushCall? || e.PopCall?)
    requires |s.slots| == c.cap && Writers(c, s) && Window(c, s) && Reader(c, s)
    ensures var s' := Next(c, s, e); Writers(c, s') && Window(c, s') && Reader(c, s')
  {
    hide Writers, Window, Reader;
    match e
    case PushCall(p, msg) => PushCallWindow(c, s, p, Call(s.nextId, msg), s.nextId + 1, s.refused + {s.nextId});
    case PopCall(max) => PopCallWindow(c, s, max);
    case _ =>
  }

  lemma NewCallIdentities(s: Ring, s': Ring, p: nat)
    requires Identities(s) && (p in s.producers ==> s.producers[p].Idle?)
    requires s'.claims == s.claims && s'.writers == s.writers && s'.accepted == s.accepted && s'.nextId == s.nextId + 1
    requires || (s'.refused == s.refused + {s.nextId} && s'.producers == s.producers)
             || (s'.refused == s.refused && exists call: Call :: call.id == s.nextId && s'.producers == s.producers[p := LoadCount(call)])
    ensures Identities(s')
  {
    assert forall q :: Undecided(s', q) ==>
      if q == p then s'.producers[q].call.id == s.nextId else Undecided(s, q) && s'.producers[q] == s.producers[q];
    hide Undecided, Ids;
  }

  lemma CallIdentities(c: Config, s: Ring, e: Event)
    requires ValidConfig(c) && Enabled(s, e) && (e.PushCall? || e.PopCall?)
    requires Identities(s)
    ensures Identities(Next(c, s, e))
  {
    hide Identities, Undecided;
    match e
    case PushCall(p, msg) =>
      assert Call(s.nextId, msg).id == s.nextId;
      NewCallIdentities(s, Next(c, s, e), p);
    case PopCall(_) => PopCallIdentities(s, Next(c, s, e));
    case _ =>
  }

  lemma PopCallIdentities(s: Ring, s': Ring)
    requires Identities(s) && s'.(consumer := s.consumer) == s
    ensures Identities(s')
  {
    hide Identities;
    IdentitiesFrame(s, s');
  }

  lemma InitialInv(c: Config, s: Ring)
    requires ValidConfig(c) && Initial(c, s)
    ensures Inv(c, s)
  {
  }

  lemma StepInv(c: Config, s: Ring, e: Event)
    requires ValidConfig(c) && Enabled(s, e) && Inv(c, s)
    ensures Inv(c, Next(c, s, e))
  {
    hide Accounting, Sized, Writers, Window, Reader, History, Identities;
    match e
    case PushStep(p) => PushInv(c, s, p);
    case PopStep => PopInv(c, s);
    case _ =>
      CallAccounting(c, s, e);
      assert |s.slots| == c.cap by { SlotCount(c, s); }
      CallWindow(c, s, e);
      CallIdentities(c, s, e);
  }

  /** Every state of every run satisfies the invariant. */
  lemma {:induction false} RunInv(c: Config, states: seq<Ring>, events: seq<Event>, i: nat)
    requires ValidConfig(c) && IsRun(c, states, events) && i < |states|
    ensures Inv(c, states[i])
  {
    hide Inv;
    if i == 0 {
      InitialInv(c, states[0]);
    } else {
      RunInv(c, states, events, i - 1);
      StepInv(c, states[i - 1], events[i - 1]);
    }
  }
}
