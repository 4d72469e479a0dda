/** The request ring of gicg_actor/shm/shm_unix.c (and shm_win.c): any number of producers push,
    one consumer pops.  One event is one atomic load, compare-and-swap or store, and every store of
    a slot header field or of a payload byte is an event of its own, so events of different callers
    interleave freely.  The fields of `Ring` after `consumer`, the `turn` of a slot and the `index` of a
    Fill are history: they record what happened and never decide what a step does. */
module ShmRing {

  type Byte(==, !new)

  datatype Config = Config(cap: nat, maxPayload: nat)

  ghost predicate ValidConfig(c: Config) { c.cap > 0 }

  datatype Msg = Msg(client: nat, req: nat, payload: seq<Byte>)

  /** One invocation of shm_ring_push; `id` tells invocations with equal messages apart. */
  datatype Call = Call(id: nat, msg: Msg)

  /** `turn` is the position in the claim order that last claimed the slot. */
  datatype Slot = Slot(full: bool, client: nat, req: nat, len: nat, bytes: seq<Byte>, turn: nat)

  /** What one successful shm_ring_pop hands to its caller; `max` is the caller's buffer size. */
  datatype Delivery = Delivery(client: nat, req: nat, len: nat, bytes: seq<Byte>, max: nat)

  datatype Producer =
    | Idle
    | LoadCount(call: Call)
    | CasCount(call: Call, seen: int)
    | LoadTail(call: Call)
    | CasTail(call: Call, seen: int)
    | Fill(call: Call, slot: nat, index: nat, at: nat)

  datatype Consumer =
    | Rest
    | LoadHead(max: nat)
    | LoadStatus(max: nat, head: nat)
    | Copy(head: nat, at: nat, got: Delivery)
    | StoreHead(head: nat, got: Delivery)
    | DecCount(got: Delivery)

  datatype Ring = Ring(
    head: nat, tail: nat, count: int, slots: seq<Slot>,
    producers: map<nat, Producer>, consumer: Consumer,
    claims: seq<Call>, writers: map<nat, nat>, taken: nat, delivered: seq<Delivery>,
    accepted: set<nat>, refused: set<nat>, nextId: nat)

  datatype Event =
    | PushCall(p: nat, msg: Msg)
    | PushStep(p: nat)
    | PopCall(max: nat)
    | PopStep

  function Pos(c: Config, i: nat): (k: nat)
    requires ValidConfig(c)
    ensures k < c.cap
  {
    i % c.cap
  }

  ghost predicate Enabled(s: Ring, e: Event) {
    match e
    case PushCall(p, _) => p in s.producers ==> s.producers[p].Idle?
    case PushStep(p) => p in s.producers && !s.producers[p].Idle?
    case PopCall(_) => s.consumer.Rest?
    case PopStep => !s.consumer.Rest?
  }

  /** The slot after the at-th store of a push: client, request, length, then the bytes in order. */
  function Write(slot: Slot, msg: Msg, at: nat): Slot {
    if at == 0 then slot.(client := msg.client)
    else if at == 1 then slot.(req := msg.req)
    else if at == 2 then slot.(len := |msg.payload|)
    else if at - 3 < |msg.payload| && at - 3 < |slot.bytes| then slot.(bytes := slot.bytes[at - 3 := msg.payload[at - 3]])
    else slot.(full := true)
  }

  /** One step of shm_ring_push by producer p. */
  function Push(c: Config, s: Ring, p: nat): Ring
    requires ValidConfig(c) && p in s.producers && !s.producers[p].Idle?
  {
    match s.producers[p]
    case LoadCount(call) =>
      if s.count >= c.cap
      then s.(producers := s.producers[p := Idle], refused := s.refused + {call.id})
      else s.(producers := s.producers[p := CasCount(call, s.count)])
    case CasCount(call, seen) =>
      if s.count == seen
      then s.(count := s.count + 1, producers := s.producers[p := LoadTail(call)])
      else s.(producers := s.producers[p := LoadCount(call)])
    case LoadTail(call) =>
      s.(producers := s.producers[p := CasTail(call, s.tail)])
    case CasTail(call, seen) =>
      if s.tail == seen && s.tail < |s.slots|
      then s.(tail := (s.tail + 1) % c.cap,
              producers := s.producers[p := Fill(call, s.tail, |s.claims|, 0)],
              claims := s.claims + [call], writers := s.writers[|s.claims| := p],
              slots := s.slots[s.tail := s.slots[s.tail].(turn := |s.claims|)])
      else s.(producers := s.producers[p := LoadTail(call)])
    case Fill(call, slot, index, at) =>
      if slot >= |s.slots| then s
      else
        var s' := s.(slots := s.slots[slot := Write(s.slots[slot], call.msg, at)]);
        if at < 3 + |call.msg.payload|
        then s'.(producers := s.producers[p := Fill(call, slot, index, at + 1)])
        else s'.(producers := s.producers[p := Idle], writers := s.writers - {index}, accepted := s.accepted + {call.id})
    case Idle => s
  }

  function CopyLen(d: Delivery): nat { if d.len < d.max then d.len else d.max }

  /** One step of shm_ring_pop. */
  function Pop(c: Config, s: Ring): Ring
    requires ValidConfig(c)
  {
    match s.consumer
    case LoadHead(max) => s.(consumer := LoadStatus(max, s.head))
    case LoadStatus(max, head) =>
      if head < |s.slots| && s.slots[head].full
      then s.(consumer := Copy(head, 0, Delivery(0, 0, 0, [], max)))
      else s.(consumer := Rest)
    case Copy(head, at, got) =>
      if head >= |s.slots| then s
      else
        var slot := s.slots[head];
        if at == 0 then s.(consumer := Copy(head, 1, got.(len := slot.len)))
        else if at == 1 then s.(consumer := Copy(head, 2, got.(client := slot.client)))
        else if at == 2 then s.(consumer := Copy(head, 3, got.(req := slot.req)))
        else if at - 3 < CopyLen(got) && at - 3 < |slot.bytes|
        then s.(consumer := Copy(head, at + 1, got.(bytes := got.bytes + [slot.bytes[at - 3]])))
        else s.(slots := s.slots[head := slot.(full := false)], consumer := StoreHead(head, got))
    case StoreHead(head, got) =>
      s.(head := (head + 1) % c.cap, taken := s.taken + 1, consumer := DecCount(got))
    case DecCount(got) =>
      s.(count := s.count - 1, delivered := s.delivered + [got], consumer := Rest)
    case Rest => s
  }

  function Next(c: Config, s: Ring, e: Event): Ring
    requires ValidConfig(c) && Enabled(s, e)
  {
    match e
    case PushCall(p, msg) =>
      var call := Call(s.nextId, msg);
      var s' := s.(nextId := s.nextId + 1);
      if |msg.payload| > c.maxPayload
      then s'.(refused := s.refused + {call.id})
      else s'.(producers := s.producers[p := LoadCount(call)])
    case PushStep(p) => Push(c, s, p)
    case PopCall(max) => if s.count <= 0 then s else s.(consumer := LoadHead(max))
    case PopStep => Pop(c, s)
  }

  ghost predicate Initial(c: Config, s: Ring) {
    && s.head == s.tail == s.count == 0
    && |s.slots| == c.cap
    && (forall i :: 0 <= i < c.cap ==> !s.slots[i].full && |s.slots[i].bytes| == c.maxPayload)
    && s.producers == map[] && s.consumer == Rest
    && s.claims == [] && s.writers == map[] && s.taken == 0 && s.delivered == []
    && s.accepted == {} && s.refused == {} && s.nextId == 0
  }

  /** A run: every interleaving of the callers is one sequence of events. */
  ghost predicate IsRun(c: Config, states: seq<Ring>, events: seq<Event>)
    requires ValidConfig(c)
  {
    && |states| == |events| + 1
    && Initial(c, states[0])
    && forall i :: 0 <= i < |events| ==> Enabled(states[i], events[i]) && states[i + 1] == Next(c, states[i], events[i])
  }

  // ---- The invariant ----

  /** Producers that hold a count reservation but no tail position yet. */
  function Reserved(producers: map<nat, Producer>): set<nat> {
    set p | p in producers && (producers[p].LoadTail? || producers[p].CasTail?)
  }

  ghost predicate InWindow(s: Ring, i: nat) { s.taken <= i < |s.claims| }

  /** The first `at` stores of a push of msg are in the slot. */
  ghost predicate Written(slot: Slot, msg: Msg, at: nat) {
    && (at > 0 ==> slot.client == msg.client)
    && (at > 1 ==> slot.req == msg.req)
    && (at > 2 ==> slot.len == |msg.payload|)
    && forall k :: 0 <= k < |msg.payload| && k < |slot.bytes| && k + 3 < at ==> slot.bytes[k] == msg.payload[k]
  }

  ghost predicate Holds(slot: Slot, msg: Msg) {
    Written(slot, msg, 3 + |msg.payload|)
  }

  /** The first `at` loads of a pop have read msg. */
  ghost predicate Read(got: Delivery, msg: Msg, at: nat) {
    && (at > 0 ==> got.len == |msg.payload|)
    && (at > 1 ==> got.client == msg.client)
    && (at > 2 ==> got.req == msg.req)
    && |got.bytes| == (if at < 3 then 0 else at - 3)
    && (at >= 3 ==> at - 3 <= CopyLen(got) && got.bytes == msg.payload[..at - 3])
  }

  /** got is msg, cut to the caller's buffer. */
  ghost predicate Delivers(got: Delivery, msg: Msg) {
    && got.client == msg.client && got.req == msg.req && got.len == |msg.payload|
    && got.bytes == msg.payload[..CopyLen(got)]
  }

  ghost predicate Accounting(c: Config, s: Ring)
    requires ValidConfig(c)
  {
    && |s.slots| == c.cap
    && s.taken <= |s.claims|
    && s.head == Pos(c, s.taken)
    && s.tail == Pos(c, |s.claims|)
    && s.count == |Reserved(s.producers)| + (|s.claims| - s.taken) + (if s.consumer.DecCount? then 1 else 0)
    && s.count <= c.cap
    && (forall p :: p in s.producers && s.producers[p].CasCount? ==> s.producers[p].seen < c.cap)
  }

  /** Sizes of slots and messages. */
  ghost predicate Sized(c: Config, s: Ring) {
    && (forall i :: 0 <= i < |s.slots| ==> |s.slots[i].bytes| == c.maxPayload)
    && (forall i :: 0 <= i < |s.claims| ==> |s.claims[i].msg.payload| <= c.maxPayload)
    && (forall p :: p in s.producers && !s.producers[p].Idle? ==> |s.producers[p].call.msg.payload| <= c.maxPayload)
  }

  ghost predicate Writers(c: Config, s: Ring)
    requires ValidConfig(c) && |s.slots| == c.cap
  {
    && (forall p :: p in s.producers && s.producers[p].Fill? ==>
          s.producers[p].index in s.writers && s.writers[s.producers[p].index] == p)
    && (forall i :: i in s.writers ==>
          var p := s.writers[i];
          && InWindow(s, i) && p in s.producers && s.producers[p].Fill? && s.producers[p].index == i
          && Writes(s.producers[p], s.claims[i], Pos(c, i), s.slots[Pos(c, i)]))
  }

  /** A producer between its tail claim and its FULL store. */
  ghost predicate Writes(f: Producer, call: Call, pos: nat, slot: Slot) {
    && f.Fill? && f.call == call && f.slot == pos && f.at <= 3 + |call.msg.payload|
    && !slot.full && Written(slot, call.msg, f.at)
  }

  /** Every claimed position is being written, is FULL with its message, or has just been read;
      and only claimed positions are FULL. */
  ghost predicate Window(c: Config, s: Ring)
    requires ValidConfig(c) && |s.slots| == c.cap
  {
    && (forall i: nat :: InWindow(s, i) ==>
          && s.slots[Pos(c, i)].turn == i
          && (|| i in s.writers
              || (s.slots[Pos(c, i)].full && Holds(s.slots[Pos(c, i)], s.claims[i].msg))
              || (s.consumer.StoreHead? && i == s.taken)))
    && (forall j :: 0 <= j < c.cap && s.slots[j].full ==>
          InWindow(s, s.slots[j].turn) && Pos(c, s.slots[j].turn) == j)
  }

  ghost predicate Reader(c: Config, s: Ring)
    requires ValidConfig(c) && |s.slots| == c.cap
  {
    && (s.consumer.LoadStatus? || s.consumer.Copy? || s.consumer.StoreHead? ==> s.consumer.head == s.head == Pos(c, s.taken))
    && (s.consumer.Copy? ==>
          && InWindow(s, s.taken) && s.slots[s.head].full
          && Holds(s.slots[s.head], s.claims[s.taken].msg)
          && Read(s.consumer.got, s.claims[s.taken].msg, s.consumer.at))
    && (s.consumer.StoreHead? ==>
          && InWindow(s, s.taken) && !s.slots[s.head].full && s.taken !in s.writers
          && Delivers(s.consumer.got, s.claims[s.taken].msg))
  }

  /** Completed pops returned the claimed messages in claim order. */
  ghost predicate History(s: Ring) {
    && |s.delivered| == s.taken - (if s.consumer.DecCount? then 1 else 0)
    && s.taken <= |s.claims|
    && (s.consumer.DecCount? ==> Delivers(s.consumer.got, s.claims[s.taken - 1].msg))
    && forall i :: 0 <= i < |s.delivered| ==> Delivers(s.delivered[i], s.claims[i].msg)
  }

  function Ids(claims: seq<Call>): set<nat> { set i | 0 <= i < |claims| :: claims[i].id }

  ghost predicate Undecided(s: Ring, p: nat) {
    p in s.producers && !s.producers[p].Idle? && !s.producers[p].Fill?
  }

  /** Each invocation is undecided, claimed once, or refused, and never two of these; a claimed one
      is being written or has returned success. */
  ghost predicate Identities(s: Ring) {
    && (forall i, j :: 0 <= i < j < |s.claims| ==> s.claims[i].id != s.claims[j].id)
    && (forall id :: id in Ids(s.claims) ==> id < s.nextId && id !in s.refused)
    && (forall id :: id in s.refused ==> id < s.nextId)
    && (forall p :: Undecided(s, p) ==>
          var id := s.producers[p].call.id; id < s.nextId && id !in Ids(s.claims) && id !in s.refused)
    && (forall p, q :: Undecided(s, p) && Undecided(s, q) && p != q ==> s.producers[p].call.id != s.producers[q].call.id)
    && s.accepted <= Ids(s.claims)
    && (forall i :: 0 <= i < |s.claims| ==> (s.claims[i].id in s.accepted <==> i !in s.writers))
  }

  ghost predicate Inv(c: Config, s: Ring)
    requires ValidConfig(c)
  {
    Accounting(c, s) && Sized(c, s) && Writers(c, s) && Window(c, s) && Reader(c, s) && History(s) && Identities(s)
  }
}
