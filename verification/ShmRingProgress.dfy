/** That calls of the ring do what they are for: every push comes back decided, and one that finds room and
    runs undisturbed delivers its message into the queue. */
module RingProgress {
  import opened ShmRing
  import opened RingProof
  import opened RingTheorems

  // ---- Every call is decided ----

  /** A call that has been made is refused, has succeeded, or is still under way at a producer. */
  ghost predicate Decided(s: Ring, id: nat) { id in s.accepted || id in s.refused }

  ghost predicate UnderWay(s: Ring, id: nat) {
    exists p :: p in s.producers && !s.producers[p].Idle? && s.producers[p].call.id == id
  }

  /** Only its own step takes a producer's call away, and it then returns decided. */
  lemma CallKept(c: Config, s: Ring, e: Event, p: nat)
    requires ValidConfig(c) && Enabled(s, e) && p in s.producers && !s.producers[p].Idle?
    ensures var t := Next(c, s, e);
      && p in t.producers
      && (if t.producers[p].Idle? then e == PushStep(p) && Decided(t, s.producers[p].call.id)
          else t.producers[p].call == s.producers[p].call)
  {
    match e
    case PushStep(q) => if q == p { OwnCall(c, s, p); } else { OtherCall(c, s, q, p); }
    case PopStep => PopEffect(c, s);
    case _ =>
    hide Push, Pop;
  }

  lemma OwnCall(c: Config, s: Ring, p: nat)
    requires ValidConfig(c) && p in s.producers && !s.producers[p].Idle?
    ensures var t := Push(c, s, p);
      && p in t.producers
      && (if t.producers[p].Idle? then Decided(t, s.producers[p].call.id) else t.producers[p].call == s.producers[p].call)
  {
    hide Write;
  }

  lemma OtherCall(c: Config, s: Ring, q: nat, p: nat)
    requires ValidConfig(c) && q in s.producers && !s.producers[q].Idle? && p in s.producers && q != p
    ensures p in Push(c, s, q).producers && Push(c, s, q).producers[p] == s.producers[p]
  {
    hide Write;
  }

  /** In every run, a producer that comes back has had its call accepted or refused. */
  lemma PushReturnsDecided(c: Config, states: seq<Ring>, events: seq<Event>, i: nat, p: nat)
    requires ValidConfig(c) && IsRun(c, states, events) && i < |events|
    requires p in states[i].producers && !states[i].producers[p].Idle?
    requires p in states[i + 1].producers && states[i + 1].producers[p].Idle?
    ensures Decided(states[i + 1], states[i].producers[p].call.id)
  {
    hide Next, Decided;
    CallKept(c, states[i], events[i], p);
  }

  lemma NewCall(c: Config, s: Ring, e: Event)
    requires ValidConfig(c) && Enabled(s, e)
    ensures var t := Next(c, s, e);
      t.nextId == s.nextId || (t.nextId == s.nextId + 1 && (Decided(t, s.nextId) || UnderWay(t, s.nextId)))
  {
    match e
    case PushCall(p, msg) =>
      var t := Next(c, s, e);
      if |msg.payload| <= c.maxPayload { assert p in t.producers && t.producers[p].call.id == s.nextId; }
    case PushStep(p) => SameIds(c, s, p);
    case PopStep => PopEffect(c, s);
    case _ =>
    hide Push, Pop;
  }

  lemma SameIds(c: Config, s: Ring, p: nat)
    requires ValidConfig(c) && p in s.producers && !s.producers[p].Idle?
    ensures Push(c, s, p).nextId == s.nextId
  {
  }

  /** No call is ever lost: at every moment of every run each call made so far is under way or decided. */
  lemma {:induction false} NoCallIsLost(c: Config, states: seq<Ring>, events: seq<Event>, i: nat, id: nat)
    requires ValidConfig(c) && IsRun(c, states, events) && i < |states| && id < states[i].nextId
    ensures Decided(states[i], id) || UnderWay(states[i], id)
  {
    hide Next, Enabled;
    if i == 0 { StartsEmpty(c, states[0]); }
    var s, t, e := states[i - 1], states[i], events[i - 1];
    NewCall(c, s, e);
    if id < s.nextId {
      NoCallIsLost(c, states, events, i - 1, id);
      HistoryGrows(c, states, events, i - 1, i);
      if !Decided(s, id) {
        var p :| p in s.producers && !s.producers[p].Idle? && s.producers[p].call.id == id;
        CallKept(c, s, e, p);
      }
    }
  }

  lemma StartsEmpty(c: Config, s: Ring)
    requires ValidConfig(c) && Initial(c, s)
    ensures s.nextId == 0
  {
  }

  // ---- An undisturbed push ----

  /** Producer p takes its next n steps, and nobody else moves. */
  function Alone(c: Config, s: Ring, p: nat, n: nat): Ring
    requires ValidConfig(c)
    decreases n
  {
    if n == 0 || p !in s.producers || s.producers[p].Idle? then s else Alone(c, Next(c, s, PushStep(p)), p, n - 1)
  }

  lemma OneMore(c: Config, s: Ring, p: nat, n: nat)
    requires ValidConfig(c) && p in s.producers && !s.producers[p].Idle?
    ensures Alone(c, s, p, n + 1) == Alone(c, Push(c, s, p), p, n)
  {
    assert Next(c, s, PushStep(p)) == Push(c, s, p);
    hide Push;
  }

  /** t is s with p's call delivered: claimed last, accepted, counted, and whole in its slot. */
  ghost predicate Delivered(c: Config, s: Ring, p: nat, call: Call, t: Ring)
    requires ValidConfig(c)
  {
    var pos := Pos(c, |s.claims|);
    && t.producers == s.producers[p := Idle] && t.claims == s.claims + [call] && t.count == s.count + 1
    && t.accepted == s.accepted + {call.id} && t.refused == s.refused
    && t.consumer == s.consumer && t.taken == s.taken && t.delivered == s.delivered && t.head == s.head
    && pos < |s.slots| == |t.slots| && t.slots[pos].full && Holds(t.slots[pos], call.msg)
    && forall j :: 0 <= j < |s.slots| && j != pos ==> t.slots[j] == s.slots[j]
  }

  /** The stores of a claimed push. */
  lemma {:induction false} FillAlone(c: Config, s: Ring, p: nat) returns (n: nat)
    requires ValidConfig(c) && Inv(c, s) && p in s.producers && s.producers[p].Fill?
    ensures var f, t := s.producers[p], Alone(c, s, p, n);
      && f.slot < |s.slots| == |t.slots|
      && t.producers == s.producers[p := Idle] && t.accepted == s.accepted + {f.call.id} && t.refused == s.refused
      && t.claims == s.claims && t.count == s.count && t.consumer == s.consumer && t.taken == s.taken
      && t.delivered == s.delivered && t.head == s.head
      && t.slots[f.slot].full && Holds(t.slots[f.slot], f.call.msg)
      && forall j :: 0 <= j < |s.slots| && j != f.slot ==> t.slots[j] == s.slots[j]
    decreases 4 + |s.producers[p].call.msg.payload| - s.producers[p].at
  {
    hide Push, Inv, Write, Holds;
    var f, t := s.producers[p], Push(c, s, p);
    SlotOwned(c, s, p);
    FillFacts(c, s, p);
    FillEffect(c, s, p);
    if f.at < 3 + |f.call.msg.payload| {
      PushInv(c, s, p);
      n := FillAlone(c, t, p);
      OneMore(c, s, p, n);
      n := n + 1;
      assert t.producers[p := Idle] == s.producers[p := Idle];
    } else {
      OneMore(c, s, p, 0);
      n := 1;
    }
  }

  lemma FillFacts(c: Config, s: Ring, p: nat)
    requires ValidConfig(c) && Inv(c, s) && p in s.producers && s.producers[p].Fill?
    ensures var f := s.producers[p];
      && f.at <= 3 + |f.call.msg.payload| && f.slot < |s.slots|
      && (f.at == 3 + |f.call.msg.payload| ==>
            Write(s.slots[f.slot], f.call.msg, f.at).full && Holds(Write(s.slots[f.slot], f.call.msg, f.at), f.call.msg))
  {
    hide Identities, History, Window, Reader, Reserved;
    WriteEnds(c, s, p);
    assert s.producers[p].index in s.writers;
  }

  /** From the reservation of the count to the claim of a slot, when nobody interferes. */
  lemma ClaimsAlone(c: Config, s: Ring, p: nat)
    requires ValidConfig(c) && Inv(c, s) && p in s.producers && s.producers[p].LoadCount? && s.count < c.cap
    ensures var call, t := s.producers[p].call, Push(c, Push(c, Push(c, Push(c, s, p), p), p), p);
      && Alone(c, s, p, 4) == t && Inv(c, t)
      && t.producers == s.producers[p := Fill(call, Pos(c, |s.claims|), |s.claims|, 0)]
      && t.claims == s.claims + [call] && t.count == s.count + 1
      && t.accepted == s.accepted && t.refused == s.refused && t.consumer == s.consumer && t.taken == s.taken
      && t.delivered == s.delivered && t.head == s.head
      && Pos(c, |s.claims|) < |s.slots| == |t.slots|
      && forall j :: 0 <= j < |s.slots| && j != Pos(c, |s.claims|) ==> t.slots[j] == s.slots[j]
  {
    hide Push, Inv, Accounting;
    var call := s.producers[p].call;
    var s1 := Push(c, s, p);
    StepsToClaim(c, s, p);
    PushInv(c, s, p);
    var s2 := Push(c, s1, p);
    StepsToClaim(c, s1, p);
    PushInv(c, s1, p);
    var s3 := Push(c, s2, p);
    StepsToClaim(c, s2, p);
    PushInv(c, s2, p);
    TailIs(c, s3);
    PushInv(c, s3, p);
    ClaimEffect(c, s3, p);
    var t := Push(c, s3, p);
    OneMore(c, s, p, 3);
    OneMore(c, s1, p, 2);
    OneMore(c, s2, p, 1);
    OneMore(c, s3, p, 0);
    assert t.producers == s.producers[p := Fill(call, Pos(c, |s.claims|), |s.claims|, 0)];
  }

  lemma TailIs(c: Config, s: Ring)
    requires ValidConfig(c) && Inv(c, s)
    ensures s.tail == Pos(c, |s.claims|) < |s.slots|
  {
  }

  /** The steps before the claim: load the count, swap it, load the tail. */
  lemma StepsToClaim(c: Config, s: Ring, p: nat)
    requires ValidConfig(c) && p in s.producers
    ensures s.producers[p].LoadCount? && s.count < c.cap ==>
      Push(c, s, p) == s.(producers := s.producers[p := CasCount(s.producers[p].call, s.count)])
    ensures s.producers[p].CasCount? && s.count == s.producers[p].seen ==>
      Push(c, s, p) == s.(count := s.count + 1, producers := s.producers[p := LoadTail(s.producers[p].call)])
    ensures s.producers[p].LoadTail? ==> Push(c, s, p) == s.(producers := s.producers[p := CasTail(s.producers[p].call, s.tail)])
  {
  }

  /** A push that finds room and runs alone succeeds: its call is claimed last, its message lies whole in
      the ring, and nothing else has changed. */
  lemma RoomIsUsed(c: Config, s: Ring, p: nat) returns (n: nat)
    requires ValidConfig(c) && Inv(c, s) && p in s.producers && s.producers[p].LoadCount? && s.count < c.cap
    ensures Delivered(c, s, p, s.producers[p].call, Alone(c, s, p, n))
  {
    hide Push, Inv, Holds;
    ClaimsAlone(c, s, p);
    var t := Alone(c, s, p, 4);
    var m := FillAlone(c, t, p);
    n := m + 4;
    Compose(c, s, p, 4, m);
    assert t.producers[p := Idle] == s.producers[p := Idle];
  }

  lemma {:induction false} Compose(c: Config, s: Ring, p: nat, m: nat, n: nat)
    requires ValidConfig(c)
    ensures Alone(c, s, p, m + n) == Alone(c, Alone(c, s, p, m), p, n)
    decreases m
  {
    hide Next;
    if m > 0 && p in s.producers && !s.producers[p].Idle? { Compose(c, Next(c, s, PushStep(p)), p, m - 1, n); }
  }

  /** In every run: a call made while there is room, left to run alone, succeeds.  Made while the ring is
      full, it is refused at its first step. */
  lemma PushCompletes(c: Config, states: seq<Ring>, events: seq<Event>, i: nat) returns (n: nat)
    requires ValidConfig(c) && IsRun(c, states, events) && i < |events| && events[i].PushCall?
    requires |events[i].msg.payload| <= c.maxPayload
    ensures var s, p, call := states[i + 1], events[i].p, Call(states[i].nextId, events[i].msg);
      if states[i].count < c.cap then Delivered(c, s, p, call, Alone(c, s, p, n))
      else Alone(c, s, p, 1) == s.(producers := s.producers[p := Idle], refused := s.refused + {call.id})
  {
    hide Inv, Delivered, Initial;
    n := 0;
    var s, p := states[i + 1], events[i].p;
    RunInv(c, states, events, i + 1);
    assert s == Next(c, states[i], events[i]) && Enabled(states[i], events[i]) by { RunStep(c, states, events, i); }
    assert p in s.producers && s.producers[p] == LoadCount(Call(states[i].nextId, events[i].msg)) && s.count == states[i].count;
    if s.count < c.cap {
      n := RoomIsUsed(c, s, p);
    } else {
      OneMore(c, s, p, 0);
    }
  }

  lemma RunStep(c: Config, states: seq<Ring>, events: seq<Event>, i: nat)
    requires ValidConfig(c) && IsRun(c, states, events) && i < |events|
    ensures Enabled(states[i], events[i]) && states[i + 1] == Next(c, states[i], events[i])
  {
  }

  lemma {:induction false} AloneInv(c: Config, s: Ring, p: nat, n: nat)
    requires ValidConfig(c) && Inv(c, s)
    ensures Inv(c, Alone(c, s, p, n))
    decreases n
  {
    hide Inv, Next;
    if n > 0 && p in s.producers && !s.producers[p].Idle? {
      StepInv(c, s, PushStep(p));
      AloneInv(c, Next(c, s, PushStep(p)), p, n - 1);
    }
  }

  /** Round trip: pushed into a ring whose messages have all been taken, a message comes out of the next pop. */
  lemma RoundTrip(c: Config, s: Ring, p: nat, max: nat) returns (m: nat, n: nat)
    requires ValidConfig(c) && Inv(c, s) && p in s.producers && s.producers[p].LoadCount? && s.count < c.cap
    requires s.taken == |s.claims| && s.consumer.Rest?
    ensures Alone(c, s, p, m).consumer.Rest?
    ensures var t := PopSteps(c, Next(c, Alone(c, s, p, m), PopCall(max)), n);
      && t.consumer.Rest? && |t.delivered| == |s.delivered| + 1
      && Delivers(t.delivered[|s.delivered|], s.producers[p].call.msg)
  {
    hide Inv, Next, Alone, PopSteps, Delivers, Holds;
    m := RoomIsUsed(c, s, p);
    var t := Alone(c, s, p, m);
    AloneInv(c, s, p, m);
    assert t.head < |t.slots| && t.slots[t.head].full by { HeadIs(c, s); }
    n := PopCompletes(c, t, max);
  }

  lemma HeadIs(c: Config, s: Ring)
    requires ValidConfig(c) && Inv(c, s)
    ensures s.head == Pos(c, s.taken)
  {
  }
}
