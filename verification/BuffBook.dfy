/** Buff instances and the counters they index: what each operation of buffs.go, buff_state.go and
    game_counter.go ApplyWrite makes of the book, and the invariant they all keep. */
module BuffBook {

  datatype Counter = Counter(value: int, init: int, min: int, max: int, buffIndex: int)

  datatype Definition = Definition(counter: nat, replace: bool, independent: bool)

  datatype Instance = Instance(id: nat, definition: nat, independent: bool, value: int, duration: int, progress: int)

  /** `open` is history: the instances whose spawn has begun and not ended, innermost last. */
  datatype Book = Book(counters: seq<Counter>, defs: seq<Definition>, buffs: seq<Instance>, serial: nat, open: seq<nat>)

  datatype Op = Set | Add | Sub

  /** The event frame an operation runs under: the bound instance (0 for none) and its counter. */
  datatype Frame = Frame(instance: nat, counter: int)

  const MAXPROGRESS := 2147483647

  function Apply(op: Op, before: int, v: int): int { match op case Set => v case Add => before + v case Sub => before - v }

  function Clamp(c: Counter, v: int): int {
    var low := if v < c.min then c.min else v;
    if low > c.max then c.max else low
  }

  function Keep(buffs: seq<Instance>, keep: Instance -> bool): seq<Instance> {
    if buffs == [] then []
    else Keep(buffs[..|buffs| - 1], keep) + if keep(buffs[|buffs| - 1]) then [buffs[|buffs| - 1]] else []
  }

  function NotId(id: nat): Instance -> bool { (b: Instance) => b.id != id }

  function NotOf(d: int): Instance -> bool { (b: Instance) => b.definition != d }

  function Renewed(buffs: seq<Instance>, id: nat, b: Instance): seq<Instance> {
    seq(|buffs|, i requires 0 <= i < |buffs| => if buffs[i].id == id then b else buffs[i])
  }

  predicate Live(buffs: seq<Instance>, id: nat) { exists x :: x in buffs && x.id == id }

  predicate HasDefinition(buffs: seq<Instance>, d: int) { exists x :: x in buffs && x.definition == d }

  /** buffByID. */
  function Find(buffs: seq<Instance>, id: nat): (b: Instance)
    requires Live(buffs, id)
    ensures b in buffs && b.id == id
  {
    if buffs[0].id == id then buffs[0] else Find(buffs[1..], id)
  }

  // ---- The invariant ----

  /** Lifecycle identities grow along the list and never exceed the serial. */
  predicate Ordered(buffs: seq<Instance>, serial: nat) {
    && (forall i, j :: 0 <= i < j < |buffs| ==> buffs[i].id < buffs[j].id)
    && forall i :: 0 <= i < |buffs| ==> 0 < buffs[i].id <= serial
  }

  predicate Typed(defs: seq<Definition>, buffs: seq<Instance>) {
    forall x :: x in buffs ==> x.definition < |defs| && x.independent == defs[x.definition].independent
  }

  /** Counters and definitions name each other. */
  predicate Linked(counters: seq<Counter>, defs: seq<Definition>) {
    && (forall d :: 0 <= d < |defs| ==> defs[d].counter < |counters| && counters[defs[d].counter].buffIndex == d)
    && forall c :: 0 <= c < |counters| && counters[c].buffIndex >= 0 ==>
         counters[c].buffIndex < |defs| && defs[counters[c].buffIndex].counter == c
  }

  predicate Active(counters: seq<Counter>, d: Definition) {
    d.counter < |counters| && counters[d.counter].value != counters[d.counter].init
  }

  /** An aggregate definition has an instance iff its counter is away from its initial value, and
      never two; an independent definition's counter stays at its initial value. */
  predicate Counted(counters: seq<Counter>, defs: seq<Definition>, buffs: seq<Instance>) {
    && (forall d :: 0 <= d < |defs| ==>
          if defs[d].independent then !Active(counters, defs[d]) else HasDefinition(buffs, d) <==> Active(counters, defs[d]))
    && forall x, y :: x in buffs && y in buffs && x.definition == y.definition ==> x == y || x.independent
  }

  /** Charges, duration and progress of an independent instance; charges are 0 only while it is spawned. */
  predicate Charged(counters: seq<Counter>, defs: seq<Definition>, open: seq<nat>, b: Instance) {
    && b.definition < |defs| && defs[b.definition].counter < |counters|
    && (1 <= b.value <= counters[defs[b.definition].counter].max || (b.value == 0 && b.id in open))
    && -1 <= b.duration && b.duration != 0 && 0 <= b.progress <= MAXPROGRESS
  }

  predicate AllCharged(counters: seq<Counter>, defs: seq<Definition>, buffs: seq<Instance>, open: seq<nat>) {
    forall x :: x in buffs && x.independent ==> Charged(counters, defs, open, x)
  }

  /** Spawns nest: the open ones have growing identities, and belong to independent instances. */
  predicate Opened(buffs: seq<Instance>, serial: nat, open: seq<nat>) {
    && (forall i, j :: 0 <= i < j < |open| ==> open[i] < open[j])
    && (forall id :: id in open ==> id <= serial)
    && forall x :: x in buffs && x.id in open ==> x.independent
  }

  predicate Good(b: Book) {
    && Ordered(b.buffs, b.serial) && Typed(b.defs, b.buffs) && Linked(b.counters, b.defs)
    && Counted(b.counters, b.defs, b.buffs) && AllCharged(b.counters, b.defs, b.buffs, b.open)
    && Opened(b.buffs, b.serial, b.open)
  }

  // ---- The operations ----

  function CreateCounter(b: Book, value: int, min: int, max: int): Book {
    var c := Counter(value, value, min, max, -1);
    b.(counters := b.counters + [c.(value := Clamp(c, value), init := Clamp(c, value))])
  }

  function NewAggregate(serial: nat, d: nat): Instance { Instance(serial + 1, d, false, 0, 0, 0) }

  function EnableCounterOrder(b: Book, c: nat, replace: bool): Book {
    if c >= |b.counters| || b.counters[c].buffIndex >= 0 then b else
      var d := |b.defs|;
      var b' := b.(counters := b.counters[c := b.counters[c].(buffIndex := d)], defs := b.defs + [Definition(c, replace, false)]);
      if b.counters[c].value == b.counters[c].init then b'
      else b'.(buffs := b.buffs + [NewAggregate(b.serial, d)], serial := b.serial + 1)
  }

  /** register_buff with `independent`, where it succeeds. */
  function MakeIndependent(b: Book, d: nat): Book {
    if d < |b.defs| && b.defs[d].counter < |b.counters|
       && b.counters[b.defs[d].counter].init == 0 && b.counters[b.defs[d].counter].value == 0
    then b.(defs := b.defs[d := b.defs[d].(independent := true)])
    else b
  }

  /** Counter c gets a new value: the aggregate instance goes when that is the initial value, or is
      replaced by a new one at the end of the list when the definition asks for that, or stays. */
  function Recount(b: Book, c: nat, after: int): Book
    requires c < |b.counters|
  {
    var b' := b.(counters := b.counters[c := b.counters[c].(value := after)]);
    var d := b.counters[c].buffIndex;
    if d < 0 || d >= |b.defs| then b' else
      var active := after != b.counters[c].init;
      if active && HasDefinition(b.buffs, d) && !(b.defs[d].replace && b.counters[c].value != after) then b'
      else if active then b'.(buffs := Keep(b.buffs, NotOf(d)) + [NewAggregate(b.serial, d)], serial := b.serial + 1)
      else b'.(buffs := Keep(b.buffs, NotOf(d)))
  }

  function WriteAggregate(b: Book, c: nat, op: Op, v: int): Book
    requires c < |b.counters|
  {
    Recount(b, c, Clamp(b.counters[c], Apply(op, b.counters[c].value, v)))
  }

  /** A write bound to one independent instance. */
  function WriteInstance(b: Book, c: nat, id: nat, op: Op, v: int): Book
    requires c < |b.counters|
  {
    if !Live(b.buffs, id) then b else
      var x := Find(b.buffs, id);
      var sum := Apply(op, x.value, v);
      var value := if sum > b.counters[c].max then b.counters[c].max else sum;
      b.(buffs := if value <= 0 then Keep(b.buffs, NotId(id)) else Renewed(b.buffs, id, x.(value := value)))
  }

  predicate IsIndependent(b: Book, c: nat) {
    c < |b.counters| && 0 <= b.counters[c].buffIndex < |b.defs| && b.defs[b.counters[c].buffIndex].independent
  }

  /** The write the code panics on: an independent buff written without an instance, not to 0. */
  predicate Refused(b: Book, frame: Frame, c: nat, op: Op, v: int) {
    IsIndependent(b, c) && !(frame.instance != 0 && frame.counter == c) && !(op == Set && v == 0)
  }

  function Write(b: Book, frame: Frame, c: nat, op: Op, v: int): Book {
    if c >= |b.counters| || Refused(b, frame, c, op, v) then b
    else if !IsIndependent(b, c) then WriteAggregate(b, c, op, v)
    else if frame.instance != 0 && frame.counter == c then WriteInstance(b, c, frame.instance, op, v)
    else b.(buffs := Keep(b.buffs, NotOf(b.counters[c].buffIndex)))
  }

  predicate MaySpawn(b: Book, d: nat, value: int, duration: int) {
    && d < |b.defs| && b.defs[d].independent && b.defs[d].counter < |b.counters|
    && 0 < value <= b.counters[b.defs[d].counter].max && duration != 0 && duration >= -1
  }

  /** SpawnBuff up to the write of the charges: the instance is in the list with value 0. */
  function BeginSpawn(b: Book, d: nat, value: int, duration: int): Book {
    if !MaySpawn(b, d, value, duration) then b
    else b.(buffs := b.buffs + [Instance(b.serial + 1, d, true, 0, duration, 0)], serial := b.serial + 1, open := b.open + [b.serial + 1])
  }

  /** SpawnBuff's last step: an instance that got no charges goes. */
  function EndSpawn(b: Book): Book {
    if b.open == [] then b else
      var id := b.open[|b.open| - 1];
      var b' := b.(open := b.open[..|b.open| - 1]);
      if Live(b.buffs, id) && Find(b.buffs, id).value == 0 then b'.(buffs := Keep(b.buffs, NotId(id))) else b'
  }

  /** RemoveBuff: the instance goes, of whatever kind. */
  function RemoveBuff(b: Book, id: nat): Book { b.(buffs := Keep(b.buffs, NotId(id))) }

  /** Where RemoveBuff is called: the identity is that of an independent instance, or of none any more. */
  predicate Removable(b: Book, id: nat) { forall x :: x in b.buffs && x.id == id ==> x.independent }

  function SetRemaining(b: Book, id: nat, duration: int): Book {
    if !Live(b.buffs, id) || !Find(b.buffs, id).independent || duration < -1 then b
    else if duration == 0 then b.(buffs := Keep(b.buffs, NotId(id)))
    else b.(buffs := Renewed(b.buffs, id, Find(b.buffs, id).(duration := duration)))
  }

  function SetProgress(b: Book, id: nat, value: int): Book {
    if !Live(b.buffs, id) || !Find(b.buffs, id).independent || value < 0 || value > MAXPROGRESS then b
    else b.(buffs := Renewed(b.buffs, id, Find(b.buffs, id).(progress := value)))
  }

  datatype Step =
    | Create(value: int, min: int, max: int)
    | Enable(counter: nat, replace: bool)
    | Independent(definition: nat)
    | Writing(frame: Frame, counter: nat, op: Op, v: int)
    | Begin(definition: nat, charges: int, duration: int)
    | End
    | Remove(id: nat)
    | Remaining(id: nat, duration: int)
    | Progress(id: nat, v: int)
    | Identity

  function Next(b: Book, e: Step): Book {
    match e
    case Create(value, min, max) => CreateCounter(b, value, min, max)
    case Enable(counter, replace) => EnableCounterOrder(b, counter, replace)
    case Independent(d) => MakeIndependent(b, d)
    case Writing(frame, counter, op, v) => Write(b, frame, counter, op, v)
    case Begin(d, charges, duration) => BeginSpawn(b, d, charges, duration)
    case End => EndSpawn(b)
    case Remove(id) => RemoveBuff(b, id)
    case Remaining(id, duration) => SetRemaining(b, id, duration)
    case Progress(id, v) => SetProgress(b, id, v)
    case Identity => b.(serial := b.serial + 1)
  }

  // ---- Each operation keeps the invariant ----

  lemma {:induction false} KeepMember(buffs: seq<Instance>, keep: Instance -> bool)
    ensures forall x :: x in Keep(buffs, keep) <==> x in buffs && keep(x)
  {
    if buffs != [] {
      KeepMember(buffs[..|buffs| - 1], keep);
      assert buffs == buffs[..|buffs| - 1] + [buffs[|buffs| - 1]];
    }
  }

  lemma {:induction false} KeepBelow(buffs: seq<Instance>, keep: Instance -> bool, low: nat, high: nat)
    requires forall i :: 0 <= i < |buffs| ==> low < buffs[i].id < high
    ensures forall i :: 0 <= i < |Keep(buffs, keep)| ==> low < Keep(buffs, keep)[i].id < high
  {
    if buffs != [] { KeepBelow(buffs[..|buffs| - 1], keep, low, high); }
  }

  lemma {:induction false} KeepOrdered(buffs: seq<Instance>, keep: Instance -> bool, serial: nat)
    requires Ordered(buffs, serial)
    ensures Ordered(Keep(buffs, keep), serial)
  {
    if buffs != [] {
      var front, last := buffs[..|buffs| - 1], buffs[|buffs| - 1];
      KeepOrdered(front, keep, serial);
      KeepBelow(front, keep, 0, last.id);
    }
  }

  lemma FindOnly(buffs: seq<Instance>, serial: nat, x: Instance)
    requires Ordered(buffs, serial) && x in buffs
    ensures Live(buffs, x.id) && Find(buffs, x.id) == x
  {
  }

  /** Dropping instances, when the dropped aggregate ones are those of definition d. */
  lemma KeepGood(b: Book, keep: Instance -> bool, counters: seq<Counter>, open: seq<nat>)
    requires Good(b) && Linked(counters, b.defs) && open <= b.open
    requires forall d :: 0 <= d < |b.defs| && b.defs[d].independent ==> !Active(counters, b.defs[d])
    requires forall d :: 0 <= d < |b.defs| && !b.defs[d].independent ==>
      (Active(counters, b.defs[d]) <==> exists x :: x in b.buffs && x.definition == d && keep(x))
    requires forall x :: x in b.buffs && x.independent && keep(x) ==> Charged(counters, b.defs, open, x)
    ensures Good(b.(counters := counters, open := open, buffs := Keep(b.buffs, keep)))
  {
    KeepMember(b.buffs, keep);
    KeepOrdered(b.buffs, keep, b.serial);
    hide Ordered, Keep, Charged;
    PrefixOpen(b, open);
    assert Opened(Keep(b.buffs, keep), b.serial, open);
  }

  lemma PrefixOpen(b: Book, open: seq<nat>)
    requires Opened(b.buffs, b.serial, b.open) && open <= b.open
    ensures Opened(b.buffs, b.serial, open) && forall id :: id in open ==> id in b.open
  {
    assert forall i :: 0 <= i < |open| ==> open[i] in b.open;
  }

  /** A new instance at the end of the list. */
  lemma AppendGood(b: Book, x: Instance, open: seq<nat>)
    requires Ordered(b.buffs, b.serial) && Typed(b.defs, b.buffs) && Linked(b.counters, b.defs) && AllCharged(b.counters, b.defs, b.buffs, b.open)
    requires x.id == b.serial + 1 && x.definition < |b.defs| && x.independent == b.defs[x.definition].independent
    requires Opened(b.buffs, b.serial, b.open) && (open == b.open || (x.independent && open == b.open + [x.id]))
    requires x.independent ==> Charged(b.counters, b.defs, open, x)
    requires forall d :: 0 <= d < |b.defs| && b.defs[d].independent ==> !Active(b.counters, b.defs[d])
    requires forall d :: 0 <= d < |b.defs| && !b.defs[d].independent ==>
      (Active(b.counters, b.defs[d]) <==> HasDefinition(b.buffs, d) || x.definition == d)
    requires forall y, z :: y in b.buffs && z in b.buffs && y.definition == z.definition ==> y == z || y.independent
    requires !x.independent ==> !HasDefinition(b.buffs, x.definition)
    ensures Good(b.(buffs := b.buffs + [x], serial := b.serial + 1, open := open))
  {
    var more := b.buffs + [x];
    assert forall y :: y in more <==> y in b.buffs || y == x;
    assert Ordered(more, b.serial + 1);
    OpenMore(b, x, open);
    hide Ordered, Opened;
    assert AllCharged(b.counters, b.defs, more, open);
  }

  lemma OpenMore(b: Book, x: Instance, open: seq<nat>)
    requires Ordered(b.buffs, b.serial) && Opened(b.buffs, b.serial, b.open) && x.id == b.serial + 1
    requires open == b.open || (x.independent && open == b.open + [x.id])
    ensures Opened(b.buffs + [x], b.serial + 1, open)
  {
    assert forall i :: 0 <= i < |b.open| ==> b.open[i] in b.open;
    assert forall y :: y in b.buffs ==> y.id <= b.serial;
    assert forall id :: id in open ==> id in b.open || (id == x.id && x.independent);
    forall y | y in b.buffs + [x] && y.id in open ensures y.independent {
      assert y in b.buffs ==> y.id in b.open;
    }
  }

  lemma {:induction false} RenewedMember(buffs: seq<Instance>, serial: nat, x: Instance, y: Instance)
    requires Ordered(buffs, serial) && x in buffs && y.id == x.id
    ensures forall z :: z in Renewed(buffs, x.id, y) <==> z == y || (z in buffs && z != x)
    ensures Ordered(Renewed(buffs, x.id, y), serial)
  {
    var after := Renewed(buffs, x.id, y);
    var i :| 0 <= i < |buffs| && buffs[i] == x;
    assert after[i] == y;
    forall z | z in buffs && z != x ensures z in after {
      var j :| 0 <= j < |buffs| && buffs[j] == z;
      assert after[j] == z;
    }
  }

  /** Changing the charges, duration or progress of one independent instance. */
  lemma RenewGood(b: Book, x: Instance, y: Instance)
    requires Good(b) && x in b.buffs && x.independent && y.id == x.id && y.definition == x.definition && y.independent
    requires Charged(b.counters, b.defs, b.open, y)
    ensures Good(b.(buffs := Renewed(b.buffs, x.id, y)))
  {
    RenewedMember(b.buffs, b.serial, x, y);
    hide Ordered, Renewed, Charged;
  }

  lemma CreateGood(b: Book, value: int, min: int, max: int)
    requires Good(b)
    ensures Good(CreateCounter(b, value, min, max))
  {
  }

  lemma EnableGood(b: Book, c: nat, replace: bool)
    requires Good(b)
    ensures Good(EnableCounterOrder(b, c, replace))
  {
    if c < |b.counters| && b.counters[c].buffIndex < 0 {
      var d := |b.defs|;
      var b' := b.(counters := b.counters[c := b.counters[c].(buffIndex := d)], defs := b.defs + [Definition(c, replace, false)]);
      assert forall x :: x in b.buffs ==> x.definition < d;
      assert Linked(b'.counters, b'.defs);
      assert Typed(b'.defs, b'.buffs) && AllCharged(b'.counters, b'.defs, b'.buffs, b'.open);
      assert forall e :: 0 <= e < d ==> b.defs[e].counter != c;
      assert !HasDefinition(b.buffs, d);
      hide Ordered, Charged;
      if b.counters[c].value != b.counters[c].init { AppendGood(b', NewAggregate(b.serial, d), b.open); }
    }
  }

  lemma IndependentGood(b: Book, d: nat)
    requires Good(b)
    ensures Good(MakeIndependent(b, d))
  {
    hide Ordered;
  }

  /** Other definitions do not notice a write to c. */
  lemma WriteElsewhere(b: Book, c: nat, value: int)
    requires Good(b) && c < |b.counters| && !IsIndependent(b, c)
    ensures var counters := b.counters[c := b.counters[c].(value := value)];
      && Linked(counters, b.defs) && AllCharged(counters, b.defs, b.buffs, b.open)
      && forall e :: 0 <= e < |b.defs| ==>
           if e == b.counters[c].buffIndex then !b.defs[e].independent && (Active(counters, b.defs[e]) <==> value != b.counters[c].init)
           else Active(counters, b.defs[e]) <==> Active(b.counters, b.defs[e])
  {
    hide Ordered, Counted;
  }

  /** The aggregate instance of definition d goes, and a new one comes if the definition is active. */
  lemma ReplaceGood(b: Book, counters: seq<Counter>, d: nat)
    requires Good(b) && d < |b.defs| && Linked(counters, b.defs) && AllCharged(counters, b.defs, b.buffs, b.open)
    requires !b.defs[d].independent
    requires forall e :: 0 <= e < |b.defs| && e != d ==> (Active(counters, b.defs[e]) <==> Active(b.counters, b.defs[e]))
    ensures var b' := b.(counters := counters, buffs := Keep(b.buffs, NotOf(d)));
      if Active(counters, b.defs[d]) then Good(b'.(buffs := b'.buffs + [NewAggregate(b.serial, d)], serial := b.serial + 1)) else Good(b')
  {
    hide Keep, Ordered, Charged, Active, Linked, AllCharged, Opened;
    WithoutGood(b, counters, d);
    var b' := b.(counters := counters, buffs := Keep(b.buffs, NotOf(d)));
    if Active(counters, b.defs[d]) { AppendGood(b', NewAggregate(b.serial, d), b.open); }
  }

  /** Without the instances of an aggregate definition everything but that definition's count is as it
      should be. */
  lemma WithoutGood(b: Book, counters: seq<Counter>, d: nat)
    requires Good(b) && d < |b.defs| && Linked(counters, b.defs) && AllCharged(counters, b.defs, b.buffs, b.open)
    requires !b.defs[d].independent
    requires forall e :: 0 <= e < |b.defs| && e != d ==> (Active(counters, b.defs[e]) <==> Active(b.counters, b.defs[e]))
    ensures var b' := b.(counters := counters, buffs := Keep(b.buffs, NotOf(d)));
      && Ordered(b'.buffs, b'.serial) && Typed(b'.defs, b'.buffs) && AllCharged(counters, b'.defs, b'.buffs, b'.open)
      && Opened(b'.buffs, b'.serial, b'.open) && !HasDefinition(b'.buffs, d)
      && (forall e :: 0 <= e < |b.defs| && b.defs[e].independent ==> !Active(counters, b.defs[e]))
      && (forall e :: 0 <= e < |b.defs| && !b.defs[e].independent && e != d ==> (Active(counters, b.defs[e]) <==> HasDefinition(b'.buffs, e)))
      && forall y, z :: y in b'.buffs && z in b'.buffs && y.definition == z.definition ==> y == z || y.independent
  {
    KeepMember(b.buffs, NotOf(d));
    KeepOrdered(b.buffs, NotOf(d), b.serial);
    hide Keep, Ordered, Charged, Active;
    var b' := b.(counters := counters, buffs := Keep(b.buffs, NotOf(d)));
    assert forall e :: e != d ==> (HasDefinition(b'.buffs, e) <==> HasDefinition(b.buffs, e));
  }

  lemma RecountGood(b: Book, c: nat, after: int)
    requires Good(b) && c < |b.counters| && !IsIndependent(b, c)
    ensures Good(Recount(b, c, after))
  {
    hide Ordered, Charged, AllCharged, Active, Opened, Linked;
    WriteElsewhere(b, c, after);
    LinkBounds(b, c);
    var counters := b.counters[c := b.counters[c].(value := after)];
    var d := b.counters[c].buffIndex;
    if d >= 0 {
      ReplaceGood(b, counters, d);
      if after != b.counters[c].init && HasDefinition(b.buffs, d) { StayGood(b, counters, d); }
    }
  }

  lemma LinkBounds(b: Book, c: nat)
    requires Good(b) && c < |b.counters|
    ensures b.counters[c].buffIndex < |b.defs|
  {
  }

  /** The aggregate instance of definition d stays. */
  lemma StayGood(b: Book, counters: seq<Counter>, d: nat)
    requires Good(b) && d < |b.defs| && Linked(counters, b.defs) && AllCharged(counters, b.defs, b.buffs, b.open)
    requires !b.defs[d].independent && Active(counters, b.defs[d]) && HasDefinition(b.buffs, d)
    requires forall e :: 0 <= e < |b.defs| && e != d ==> (Active(counters, b.defs[e]) <==> Active(b.counters, b.defs[e]))
    ensures Good(b.(counters := counters))
  {
    hide Ordered, Charged, Active;
  }

  lemma WriteAggregateGood(b: Book, c: nat, op: Op, v: int)
    requires Good(b) && c < |b.counters| && !IsIndependent(b, c)
    ensures Good(WriteAggregate(b, c, op, v))
  {
    hide Good, Recount, Clamp, Apply;
    RecountGood(b, c, Clamp(b.counters[c], Apply(op, b.counters[c].value, v)));
  }

  /** Removing one independent instance. */
  lemma DropGood(b: Book, id: nat, open: seq<nat>)
    requires Good(b) && open <= b.open
    requires forall x :: x in b.buffs && x.id == id ==> x.independent
    requires forall x :: x in b.buffs && x.independent && x.id != id ==> Charged(b.counters, b.defs, open, x)
    ensures Good(b.(open := open, buffs := Keep(b.buffs, NotId(id))))
  {
    hide Ordered, Charged, Keep;
    KeepGood(b, NotId(id), b.counters, open);
  }

  lemma WriteInstanceGood(b: Book, c: nat, id: nat, op: Op, v: int)
    requires Good(b) && IsIndependent(b, c)
    requires forall x :: x in b.buffs && x.id == id ==> x.definition == b.counters[c].buffIndex
    ensures Good(WriteInstance(b, c, id, op, v))
  {
    if Live(b.buffs, id) {
      var x := Find(b.buffs, id);
      var sum := Apply(op, x.value, v);
      var value := if sum > b.counters[c].max then b.counters[c].max else sum;
      assert forall y :: y in b.buffs && y.id == id ==> y == x by { UniqueIds(b); }
      if value <= 0 { DropGood(b, id, b.open); }
      else {
        assert Charged(b.counters, b.defs, b.open, x);
        RenewGood(b, x, x.(value := value));
      }
    }
  }

  lemma UniqueIds(b: Book)
    requires Good(b)
    ensures forall x, y :: x in b.buffs && y in b.buffs && x.id == y.id ==> x == y
  {
  }

  lemma ClearGood(b: Book, c: nat)
    requires Good(b) && IsIndependent(b, c)
    ensures Good(b.(buffs := Keep(b.buffs, NotOf(b.counters[c].buffIndex))))
  {
    hide Ordered, Charged, Keep;
    KeepGood(b, NotOf(b.counters[c].buffIndex), b.counters, b.open);
  }

  /** The frame's instance, if it is in play, belongs to the frame's counter. */
  predicate Bound(b: Book, frame: Frame) {
    forall x :: x in b.buffs && x.id == frame.instance ==> b.defs != [] && x.definition < |b.defs| && b.defs[x.definition].counter == frame.counter
  }

  lemma WriteGood(b: Book, frame: Frame, c: nat, op: Op, v: int)
    requires Good(b) && Bound(b, frame)
    ensures Good(Write(b, frame, c, op, v))
  {
    hide Ordered, Charged, AllCharged, Counted;
    if c < |b.counters| && !Refused(b, frame, c, op, v) {
      if !IsIndependent(b, c) { WriteAggregateGood(b, c, op, v); }
      else if frame.instance != 0 && frame.counter == c { WriteInstanceGood(b, c, frame.instance, op, v); }
      else { ClearGood(b, c); }
    }
  }

  lemma BeginGood(b: Book, d: nat, value: int, duration: int)
    requires Good(b)
    ensures Good(BeginSpawn(b, d, value, duration))
  {
    if MaySpawn(b, d, value, duration) {
      var x, open := Instance(b.serial + 1, d, true, 0, duration, 0), b.open + [b.serial + 1];
      assert Charged(b.counters, b.defs, open, x);
      hide Ordered, Charged;
      AppendGood(b, x, open);
    }
  }

  lemma EndGood(b: Book)
    requires Good(b)
    ensures Good(EndSpawn(b))
  {
    if b.open != [] {
      var id, open := b.open[|b.open| - 1], b.open[..|b.open| - 1];
      assert forall o :: o in b.open ==> o == id || o in open;
      UniqueIds(b);
      PrefixOpen(b, open);
      if Live(b.buffs, id) && Find(b.buffs, id).value == 0 { DropGood(b, id, open); }
    }
  }

  /** Removing an instance keeps the ledger good iff it is not an aggregate one: the counter of an
      aggregate definition would stay active without its instance. */
  lemma RemoveGoodIff(b: Book, id: nat)
    requires Good(b)
    ensures Good(RemoveBuff(b, id)) <==> Removable(b, id)
  {
    if Removable(b, id) {
      DropGood(b, id, b.open);
    } else {
      var x :| x in b.buffs && x.id == id && !x.independent;
      KeepMember(b.buffs, NotId(id));
      OnlyAggregate(b, x);
      assert HasDefinition(b.buffs, x.definition);
      hide Keep, Ordered, Charged;
      assert !HasDefinition(RemoveBuff(b, id).buffs, x.definition);
    }
  }

  lemma OnlyAggregate(b: Book, x: Instance)
    requires Good(b) && x in b.buffs && !x.independent
    ensures x.definition < |b.defs| && !b.defs[x.definition].independent && Active(b.counters, b.defs[x.definition])
    ensures forall y :: y in b.buffs && y.definition == x.definition ==> y == x
  {
    hide Ordered, Charged;
    assert HasDefinition(b.buffs, x.definition);
  }

  lemma RemainingGood(b: Book, id: nat, duration: int)
    requires Good(b)
    ensures Good(SetRemaining(b, id, duration))
  {
    UniqueIds(b);
    if Live(b.buffs, id) && Find(b.buffs, id).independent && duration >= -1 {
      var x := Find(b.buffs, id);
      if duration == 0 { DropGood(b, id, b.open); } else { RenewGood(b, x, x.(duration := duration)); }
    }
  }

  lemma ProgressGood(b: Book, id: nat, value: int)
    requires Good(b)
    ensures Good(SetProgress(b, id, value))
  {
    if Live(b.buffs, id) && Find(b.buffs, id).independent && 0 <= value <= MAXPROGRESS {
      var x := Find(b.buffs, id);
      RenewGood(b, x, x.(progress := value));
    }
  }

  lemma IdentityGood(b: Book)
    requires Good(b)
    ensures Good(b.(serial := b.serial + 1))
  {
  }

  lemma StepGood(b: Book, e: Step)
    requires Good(b) && (e.Writing? ==> Bound(b, e.frame)) && (e.Remove? ==> Removable(b, e.id))
    ensures Good(Next(b, e))
  {
    hide Good;
    match e
    case Create(value, min, max) => CreateGood(b, value, min, max);
    case Enable(counter, replace) => EnableGood(b, counter, replace);
    case Independent(d) => IndependentGood(b, d);
    case Writing(frame, counter, op, v) => WriteGood(b, frame, counter, op, v);
    case Begin(d, charges, duration) => BeginGood(b, d, charges, duration);
    case End => EndGood(b);
    case Remove(id) => RemoveGoodIff(b, id);
    case Remaining(id, duration) => RemainingGood(b, id, duration);
    case Progress(id, v) => ProgressGood(b, id, v);
    case Identity => IdentityGood(b);
  }

  // ---- Identities ----

  /** Nothing is ever substituted: an instance with an old identity was there before, of the same
      definition; definitions keep their counters. */
  predicate Follows(b: Book, b': Book) {
    && b.serial <= b'.serial && |b.defs| <= |b'.defs|
    && (forall d :: 0 <= d < |b.defs| ==> b'.defs[d].counter == b.defs[d].counter)
    && forall x :: x in b'.buffs && x.id <= b.serial ==> exists y :: y in b.buffs && y.id == x.id && y.definition == x.definition
  }

  lemma RenewedFollows(b: Book, x: Instance, y: Instance)
    requires x in b.buffs && y.id == x.id && y.definition == x.definition
    ensures Follows(b, b.(buffs := Renewed(b.buffs, x.id, y)))
  {
    forall z | z in Renewed(b.buffs, x.id, y) ensures exists w :: w in b.buffs && w.id == z.id && w.definition == z.definition {
      var i :| 0 <= i < |b.buffs| && Renewed(b.buffs, x.id, y)[i] == z;
      if b.buffs[i].id == x.id { assert x in b.buffs; } else { assert z in b.buffs; }
    }
  }

  lemma KeepFollows(b: Book, keep: Instance -> bool)
    ensures Follows(b, b.(buffs := Keep(b.buffs, keep)))
  {
    KeepMember(b.buffs, keep);
  }

  lemma StepFollows(b: Book, e: Step)
    requires Good(b) && (e.Writing? ==> Bound(b, e.frame))
    ensures Follows(b, Next(b, e))
  {
    hide Good, Renewed;
    match e
    case Writing(frame, c, op, v) => WriteFollows(b, frame, c, op, v);
    case End => if b.open != [] { KeepFollows(b, NotId(b.open[|b.open| - 1])); }
    case Remove(id) => KeepFollows(b, NotId(id));
    case Remaining(id, duration) =>
      KeepFollows(b, NotId(id));
      if Live(b.buffs, id) { RenewedFollows(b, Find(b.buffs, id), Find(b.buffs, id).(duration := duration)); }
    case Progress(id, v) =>
      if Live(b.buffs, id) { RenewedFollows(b, Find(b.buffs, id), Find(b.buffs, id).(progress := v)); }
    case _ =>
  }

  lemma RecountFollows(b: Book, c: nat, after: int)
    requires c < |b.counters|
    ensures Follows(b, Recount(b, c, after))
  {
    KeepMember(b.buffs, NotOf(b.counters[c].buffIndex));
    hide Keep, HasDefinition;
  }

  lemma WriteInstanceFollows(b: Book, c: nat, id: nat, op: Op, v: int)
    requires c < |b.counters|
    ensures Follows(b, WriteInstance(b, c, id, op, v))
  {
    hide Renewed, Apply, Keep, Follows;
    KeepFollows(b, NotId(id));
    FollowsSelf(b);
    if Live(b.buffs, id) {
      var x := Find(b.buffs, id);
      var sum := Apply(op, x.value, v);
      RenewedFollows(b, x, x.(value := if sum > b.counters[c].max then b.counters[c].max else sum));
    }
  }

  lemma WriteFollows(b: Book, frame: Frame, c: nat, op: Op, v: int)
    ensures Follows(b, Write(b, frame, c, op, v))
  {
    hide Follows, Recount, WriteInstance, Keep;
    FollowsSelf(b);
    if c < |b.counters| {
      KeepFollows(b, NotOf(b.counters[c].buffIndex));
      RecountFollows(b, c, Clamp(b.counters[c], Apply(op, b.counters[c].value, v)));
      WriteInstanceFollows(b, c, frame.instance, op, v);
    }
  }

  lemma FollowsTransitive(a: Book, b: Book, c: Book)
    requires Follows(a, b) && Follows(b, c)
    ensures Follows(a, c)
  {
  }

  // ---- Runs ----

  /** A frame as SpawnBuff and invokeBuffHook set it up: the instance is in play, with its counter. */
  predicate Captured(b: Book, frame: Frame) {
    exists x :: x in b.buffs && x.id == frame.instance && x.definition < |b.defs| && b.defs[x.definition].counter == frame.counter
  }

  const EMPTY := Book([], [], [], 0, [])

  /** Any sequence of operations; a write may run under the frame of any instance met on the way, and a
      removal names an independent instance, as at every place where the code calls RemoveBuff. */
  ghost predicate IsRun(books: seq<Book>, steps: seq<Step>) {
    && |books| == |steps| + 1 && books[0] == EMPTY
    && (forall i :: 0 <= i < |steps| ==> books[i + 1] == Next(books[i], steps[i]))
    && (forall i :: 0 <= i < |steps| && steps[i].Remove? ==> Removable(books[i], steps[i].id))
    && forall i :: 0 <= i < |steps| && steps[i].Writing? && steps[i].frame.instance != 0 ==>
         exists k :: 0 <= k <= i && Captured(books[k], steps[i].frame)
  }

  lemma CapturedStays(b: Book, b': Book, frame: Frame)
    requires Good(b) && Captured(b, frame) && Follows(b, b')
    ensures Bound(b', frame)
  {
    UniqueIds(b);
  }

  lemma {:induction false} RunGood(books: seq<Book>, steps: seq<Step>, i: nat)
    requires IsRun(books, steps) && i < |books|
    ensures forall k :: 0 <= k <= i ==> Good(books[k]) && Follows(books[k], books[i])
  {
    hide Good, Follows, Bound, Captured, Next;
    if i == 0 {
      EmptyGood();
      FollowsSelf(books[0]);
    } else {
      RunGood(books, steps, i - 1);
      var e := steps[i - 1];
      if e.Writing? { FrameBound(books, steps, i - 1); }
      StepGood(books[i - 1], e);
      StepFollows(books[i - 1], e);
      FollowsSelf(books[i]);
      forall k | 0 <= k < i ensures Follows(books[k], books[i]) { FollowsTransitive(books[k], books[i - 1], books[i]); }
    }
  }

  lemma FrameBound(books: seq<Book>, steps: seq<Step>, i: nat)
    requires IsRun(books, steps) && i < |steps| && steps[i].Writing?
    requires forall k :: 0 <= k <= i ==> Good(books[k]) && Follows(books[k], books[i])
    ensures Bound(books[i], steps[i].frame)
  {
    if steps[i].frame.instance != 0 {
      var k :| 0 <= k <= i && Captured(books[k], steps[i].frame);
      CapturedStays(books[k], books[i], steps[i].frame);
    }
  }

  lemma EmptyGood()
    ensures Good(EMPTY)
  {
  }

  lemma FollowsSelf(b: Book)
    ensures Follows(b, b)
  {
  }
}
