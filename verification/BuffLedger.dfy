/** The game's buff list and its counters as the code changes them, and validateBuffState. */
module BuffLedger {
  import opened BuffBook

  // ---- validateBuffState ----

  predicate Fine(counters: seq<Counter>, defs: seq<Definition>, x: Instance, serial: nat) {
    && 0 < x.id <= serial && x.definition < |defs| && x.independent == defs[x.definition].independent
    && (x.independent ==>
          && 0 <= x.progress <= MAXPROGRESS && 0 < x.value && defs[x.definition].counter < |counters|
          && x.value <= counters[defs[x.definition].counter].max && x.duration >= -1 && x.duration != 0)
    && (!x.independent ==> Active(counters, defs[x.definition]))
  }

  /** What the first k instances of a stored state must satisfy. */
  ghost predicate FineUpTo(counters: seq<Counter>, defs: seq<Definition>, buffs: seq<Instance>, serial: nat, k: nat)
    requires k <= |buffs|
  {
    && (forall i :: 0 <= i < k ==> Fine(counters, defs, buffs[i], serial))
    && (forall i, j :: 0 <= i < j < k ==> buffs[i].id != buffs[j].id)
    && forall i, j :: 0 <= i < j < k && !buffs[i].independent && !buffs[j].independent ==> buffs[i].definition != buffs[j].definition
  }

  /** The aggregate definitions with an instance among the first k. */
  ghost function Aggregates(buffs: seq<Instance>, k: nat): set<nat>
    requires k <= |buffs|
  {
    set i | 0 <= i < k && !buffs[i].independent :: buffs[i].definition
  }

  ghost function Ids(buffs: seq<Instance>, k: nat): set<nat>
    requires k <= |buffs|
  {
    set i | 0 <= i < k :: buffs[i].id
  }

  /** What a stored state must satisfy. */
  ghost predicate Acceptable(counters: seq<Counter>, defs: seq<Definition>, buffs: seq<Instance>, serial: nat) {
    && FineUpTo(counters, defs, buffs, serial, |buffs|)
    && forall d: nat :: d < |defs| ==> (Active(counters, defs[d]) <==> d in Aggregates(buffs, |buffs|))
  }

  lemma FineMore(counters: seq<Counter>, defs: seq<Definition>, buffs: seq<Instance>, serial: nat, k: nat)
    requires k < |buffs|
    ensures FineUpTo(counters, defs, buffs, serial, k + 1) <==>
      && FineUpTo(counters, defs, buffs, serial, k) && Fine(counters, defs, buffs[k], serial)
      && buffs[k].id !in Ids(buffs, k) && (buffs[k].independent || buffs[k].definition !in Aggregates(buffs, k))
    ensures Ids(buffs, k + 1) == Ids(buffs, k) + {buffs[k].id}
    ensures Aggregates(buffs, k + 1) == Aggregates(buffs, k) + if buffs[k].independent then {} else {buffs[k].definition}
  {
    hide Fine;
  }

  lemma {:induction false} FineFewer(counters: seq<Counter>, defs: seq<Definition>, buffs: seq<Instance>, serial: nat, k: nat)
    requires k <= |buffs| && !FineUpTo(counters, defs, buffs, serial, k)
    ensures !FineUpTo(counters, defs, buffs, serial, |buffs|)
  {
    hide Fine;
  }

  /** The checks on one instance. */
  method CheckInstance(counters: seq<Counter>, defs: seq<Definition>, x: Instance, serial: nat) returns (ok: bool)
    requires forall d :: 0 <= d < |defs| ==> defs[d].counter < |counters|
    ensures ok <==> Fine(counters, defs, x, serial)
  {
    if x.id == 0 || x.id > serial || x.definition >= |defs| { return false; }
    var d := defs[x.definition];
    if x.independent != d.independent { return false; }
    if x.independent {
      if x.progress < 0 || x.progress > MAXPROGRESS { return false; }
      return !(x.value <= 0 || x.value > counters[d.counter].max || x.duration < -1 || x.duration == 0);
    }
    return counters[d.counter].value != counters[d.counter].init;
  }

  method ValidateBuffState(counters: seq<Counter>, defs: seq<Definition>, buffs: seq<Instance>, serial: nat) returns (ok: bool)
    requires forall d :: 0 <= d < |defs| ==> defs[d].counter < |counters|
    ensures ok <==> Acceptable(counters, defs, buffs, serial)
  {
    hide Fine, FineUpTo, Ids, Aggregates;
    var seen: set<nat>, identities: set<nat> := {}, {};
    NothingFine(counters, defs, buffs, serial);
    for k := 0 to |buffs|
      invariant FineUpTo(counters, defs, buffs, serial, k) && identities == Ids(buffs, k) && seen == Aggregates(buffs, k)
    {
      var x := buffs[k];
      FineMore(counters, defs, buffs, serial, k);
      var fine := CheckInstance(counters, defs, x, serial);
      if !fine || x.id in identities || (!x.independent && x.definition in seen) {
        FineFewer(counters, defs, buffs, serial, k + 1);
        return false;
      }
      identities := identities + {x.id};
      if !x.independent { seen := seen + {x.definition}; }
    }
    for d := 0 to |defs|
      invariant forall e: nat :: e < d ==> (Active(counters, defs[e]) <==> e in seen)
    {
      if (counters[defs[d].counter].value != counters[defs[d].counter].init) != (d in seen) { return false; }
    }
    return true;
  }

  lemma NothingFine(counters: seq<Counter>, defs: seq<Definition>, buffs: seq<Instance>, serial: nat)
    ensures FineUpTo(counters, defs, buffs, serial, 0) && Ids(buffs, 0) == {} && Aggregates(buffs, 0) == {}
  {
  }

  lemma GoodFine(b: Book, x: Instance)
    requires Good(b) && b.open == [] && x in b.buffs
    ensures Fine(b.counters, b.defs, x, b.serial)
  {
    assert HasDefinition(b.buffs, x.definition);
    assert x.id <= b.serial;
  }

  lemma GoodAccepted(b: Book)
    requires Good(b) && b.open == []
    ensures Acceptable(b.counters, b.defs, b.buffs, b.serial)
  {
    forall i | 0 <= i < |b.buffs| ensures Fine(b.counters, b.defs, b.buffs[i], b.serial) { GoodFine(b, b.buffs[i]); }
    hide Fine, Charged;
    forall i, j | 0 <= i < j < |b.buffs| && !b.buffs[i].independent && !b.buffs[j].independent
      ensures b.buffs[i].definition != b.buffs[j].definition
    {
      assert b.buffs[i] in b.buffs && b.buffs[j] in b.buffs;
    }
    forall d: nat | d < |b.defs| ensures Active(b.counters, b.defs[d]) <==> d in Aggregates(b.buffs, |b.buffs|) {
      AggregatesAre(b, d);
    }
  }

  lemma AggregatesAre(b: Book, d: nat)
    requires Good(b) && d < |b.defs|
    ensures d in Aggregates(b.buffs, |b.buffs|) <==> !b.defs[d].independent && HasDefinition(b.buffs, d)
  {
    hide Charged, Ordered, Counted;
    if !b.defs[d].independent && HasDefinition(b.buffs, d) {
      var x :| x in b.buffs && x.definition == d;
      var i :| 0 <= i < |b.buffs| && b.buffs[i] == x;
    }
  }

  /** After any sequence of operations, whenever no spawn is under way the state is acceptable; and
      identities always grow along the list and never exceed the serial. */
  lemma RunAccepted(books: seq<Book>, steps: seq<Step>, i: nat)
    requires IsRun(books, steps) && i < |books|
    ensures Ordered(books[i].buffs, books[i].serial)
    ensures books[i].open == [] ==> Acceptable(books[i].counters, books[i].defs, books[i].buffs, books[i].serial)
  {
    RunGood(books, steps, i);
    if books[i].open == [] { GoodAccepted(books[i]); }
  }

  /** An instance that has gone never comes back, and one that stays keeps its definition. */
  lemma NeverSubstituted(books: seq<Book>, steps: seq<Step>, k: nat, i: nat, x: Instance)
    requires IsRun(books, steps) && k <= i < |books| && x in books[i].buffs && x.id <= books[k].serial
    ensures exists y :: y in books[k].buffs && y.id == x.id && y.definition == x.definition
  {
    RunGood(books, steps, i);
  }

  lemma FreshWrite(b: Book, c: nat, value: int)
    requires Good(b) && b.buffs != [] && c < |b.counters| && 0 < value <= b.counters[c].max
    requires var x := b.buffs[|b.buffs| - 1]; IsIndependent(b, c) && x.id != 0 && x.value == 0
    ensures var k := |b.buffs| - 1;
      Write(b, Frame(b.buffs[k].id, c), c, Add, value) == b.(buffs := b.buffs[k := b.buffs[k].(value := value)])
  {
    var k := |b.buffs| - 1;
    var x := b.buffs[k];
    assert x in b.buffs;
    FindOnly(b.buffs, b.serial, x);
    RenewAt(b.buffs, b.serial, k, x.(value := value));
    hide Good, Keep, Find, Live, Renewed;
  }

  lemma FreshEnd(b: Book)
    requires Good(b) && b.buffs != [] && b.buffs[|b.buffs| - 1].value != 0
    requires b.open != [] && b.open[|b.open| - 1] == b.buffs[|b.buffs| - 1].id
    ensures EndSpawn(b) == b.(open := b.open[..|b.open| - 1])
  {
    var x := b.buffs[|b.buffs| - 1];
    assert x in b.buffs;
    FindOnly(b.buffs, b.serial, x);
    hide Good, Keep, Find, Live;
  }

  /** A spawn that no hook interferes with ends with exactly one more instance, fully charged. */
  lemma SpawnCharges(b: Book, d: nat, value: int, duration: int)
    requires Good(b) && MaySpawn(b, d, value, duration)
    ensures var c := b.defs[d].counter;
      var b' := EndSpawn(Write(BeginSpawn(b, d, value, duration), Frame(b.serial + 1, c), c, Add, value));
      b' == b.(buffs := b.buffs + [Instance(b.serial + 1, d, true, value, duration, 0)], serial := b.serial + 1)
  {
    hide Good, Write, EndSpawn;
    var c, k := b.defs[d].counter, |b.buffs|;
    var begun := BeginSpawn(b, d, value, duration);
    BeginGood(b, d, value, duration);
    DefinitionOf(b, d);
    FreshWrite(begun, c, value);
    var written := begun.(buffs := begun.buffs[k := begun.buffs[k].(value := value)]);
    assert Bound(begun, Frame(b.serial + 1, c)) by { OnlyLast(begun); }
    WriteGood(begun, Frame(b.serial + 1, c), c, Add, value);
    FreshEnd(written);
    assert written.open[..|b.open|] == b.open;
  }

  lemma DefinitionOf(b: Book, d: nat)
    requires Good(b) && d < |b.defs|
    ensures b.defs[d].counter < |b.counters| && b.counters[b.defs[d].counter].buffIndex == d
  {
  }

  lemma OnlyLast(b: Book)
    requires Good(b) && b.buffs != []
    ensures forall x :: x in b.buffs && x.id == b.buffs[|b.buffs| - 1].id ==> x == b.buffs[|b.buffs| - 1]
  {
  }

  // ---- What a write does to a number ----

  /** A wanted value is taken within the bounds, otherwise the bound it crosses. */
  ghost predicate Lands(want: int, min: int, max: int, got: int) {
    && (min <= want <= max ==> got == want)
    && (want > max ==> got == max)
    && (want < min <= max ==> got == min)
  }

  /** Set leaves the value, Add raises and Sub lowers by it, all within the counter's bounds; nothing else of
      any counter changes. */
  ghost predicate CounterLaw(before: seq<Counter>, c: nat, op: Op, v: int, after: seq<Counter>)
    requires c < |before|
  {
    && |after| == |before| && (forall k :: 0 <= k < |before| && k != c ==> after[k] == before[k])
    && after[c] == before[c].(value := after[c].value)
    && var x := before[c];
       && (op == Set ==> Lands(v, x.min, x.max, after[c].value))
       && (op == Add ==> Lands(x.value + v, x.min, x.max, after[c].value))
       && (op == Sub ==> Lands(x.value - v, x.min, x.max, after[c].value))
  }

  /** The i-th instance is to have `want` charges: it gets them up to the maximum, or goes at 0. */
  ghost predicate Charges(before: seq<Instance>, i: nat, want: int, max: int, after: seq<Instance>)
    requires i < |before|
  {
    if want <= 0 || max <= 0 then after == before[..i] + before[i + 1..]
    else after == before[i := before[i].(value := if want <= max then want else max)]
  }

  /** The same for the charges of the instance with the identity, if it lives. */
  ghost predicate ChargesLaw(before: seq<Instance>, id: nat, op: Op, v: int, max: int, after: seq<Instance>) {
    && (forall i :: 0 <= i < |before| && before[i].id == id ==>
          && (op == Set ==> Charges(before, i, v, max, after))
          && (op == Add ==> Charges(before, i, before[i].value + v, max, after))
          && (op == Sub ==> Charges(before, i, before[i].value - v, max, after)))
    && ((forall i :: 0 <= i < |before| ==> before[i].id != id) ==> after == before)
  }

  /** What becomes of the instance of aggregate definition d when its counter changes from x to y: none at the
      initial value; otherwise the old one stays, or a new one at the end takes its place when there was none or
      the definition replaces instances and the value changed. */
  ghost predicate AggregateLaw(was: Book, d: nat, x: Counter, y: Counter, now: Book)
    requires d < |was.defs|
  {
    var had := exists b :: b in was.buffs && b.definition == d;
    if y.value == x.init then (forall b :: b in now.buffs <==> b in was.buffs && b.definition != d) && now.serial == was.serial
    else if had && (!was.defs[d].replace || x.value == y.value) then now.buffs == was.buffs && now.serial == was.serial
    else
      && now.serial == was.serial + 1 && now.buffs != []
      && now.buffs[|now.buffs| - 1] == Instance(was.serial + 1, d, false, 0, 0, 0)
      && forall b :: b in now.buffs[..|now.buffs| - 1] <==> b in was.buffs && b.definition != d
  }

  /** A write to counter c under the event frame: of an aggregate buff's counter or a plain one, of the bound
      instance's charges, of all instances of an independent buff to 0, or refused. */
  ghost predicate WriteEffect(was: Book, frame: Frame, c: nat, op: Op, v: int, ok: bool, now: Book)
    requires c < |was.counters|
  {
    var d := was.counters[c].buffIndex;
    && now.defs == was.defs && now.open == was.open && (d >= 0 ==> d < |was.defs|)
    && if d < 0 || !was.defs[d].independent then
         && ok && CounterLaw(was.counters, c, op, v, now.counters)
         && (if d >= 0 then AggregateLaw(was, d, was.counters[c], now.counters[c], now)
             else now.buffs == was.buffs && now.serial == was.serial)
       else
         && now.counters == was.counters && now.serial == was.serial
         && if frame.instance != 0 && frame.counter == c
            then ok && ChargesLaw(was.buffs, frame.instance, op, v, was.counters[c].max, now.buffs)
            else if op == Set && v == 0 then ok && forall x :: x in now.buffs <==> x in was.buffs && x.definition != d
            else !ok && now.buffs == was.buffs
  }

  lemma WriteAggregateLaw(b: Book, c: nat, op: Op, v: int)
    requires Good(b) && c < |b.counters| && !IsIndependent(b, c)
    ensures var b' := WriteAggregate(b, c, op, v);
      && CounterLaw(b.counters, c, op, v, b'.counters)
      && (b.counters[c].buffIndex >= 0 ==>
            b.counters[c].buffIndex < |b.defs| && AggregateLaw(b, b.counters[c].buffIndex, b.counters[c], b'.counters[c], b'))
  {
    hide Good, Keep, Recount;
    Links(b, c);
    var after := Clamp(b.counters[c], Apply(op, b.counters[c].value, v));
    RecountIs(b, c, after);
    var d := b.counters[c].buffIndex;
    if d >= 0 {
      KeepMember(b.buffs, NotOf(d));
      var kept := Keep(b.buffs, NotOf(d));
      assert (kept + [Instance(b.serial + 1, d, false, 0, 0, 0)])[..|kept|] == kept;
    }
  }

  lemma WriteInstanceLaw(b: Book, c: nat, id: nat, op: Op, v: int)
    requires Ordered(b.buffs, b.serial) && c < |b.counters|
    ensures WriteInstance(b, c, id, op, v) == b.(buffs := WriteInstance(b, c, id, op, v).buffs)
    ensures ChargesLaw(b.buffs, id, op, v, b.counters[c].max, WriteInstance(b, c, id, op, v).buffs)
  {
    hide Keep, Renewed, Find;
    forall i | 0 <= i < |b.buffs| && b.buffs[i].id == id
      ensures Live(b.buffs, id) && Find(b.buffs, id) == b.buffs[i] && Keep(b.buffs, NotId(id)) == b.buffs[..i] + b.buffs[i + 1..]
      ensures forall y: Instance :: y.id == id ==> Renewed(b.buffs, id, y) == b.buffs[i := y]
    {
      FindOnly(b.buffs, b.serial, b.buffs[i]);
      DropAt(b.buffs, i, NotId(id));
      forall y: Instance | y.id == id ensures Renewed(b.buffs, id, y) == b.buffs[i := y] { RenewAt(b.buffs, b.serial, i, y); }
    }
  }

  /** Adding and then subtracting what fits between the bounds leaves every counter as it was. */
  lemma AddThenSub(b: Book, frame: Frame, c: nat, v: int)
    requires Good(b) && c < |b.counters| && !IsIndependent(b, c)
    requires var x := b.counters[c]; x.min <= x.value <= x.max && x.min <= x.value + v <= x.max
    ensures Write(Write(b, frame, c, Add, v), frame, c, Sub, v).counters == b.counters
  {
    hide Good, Recount, Keep;
    WriteAggregateLaw(b, c, Add, v);
    Links(b, c);
    RecountIs(b, c, Clamp(b.counters[c], b.counters[c].value + v));
    var b' := Write(b, frame, c, Add, v);
    assert b'.counters[c].value == b.counters[c].value + v && !IsIndependent(b', c);
    RecountIs(b', c, Clamp(b'.counters[c], b'.counters[c].value - v));
  }

  // ---- The code ----

  lemma {:induction false} KeepAll(buffs: seq<Instance>, keep: Instance -> bool)
    requires forall i :: 0 <= i < |buffs| ==> keep(buffs[i])
    ensures Keep(buffs, keep) == buffs
  {
    if buffs != [] { KeepAll(buffs[..|buffs| - 1], keep); }
  }

  /** Dropping one place is dropping by a condition that only fails there. */
  lemma {:induction false} DropAt(buffs: seq<Instance>, i: nat, keep: Instance -> bool)
    requires i < |buffs| && forall j :: 0 <= j < |buffs| ==> (keep(buffs[j]) <==> j != i)
    ensures Keep(buffs, keep) == buffs[..i] + buffs[i + 1..]
  {
    var front := buffs[..|buffs| - 1];
    if i == |buffs| - 1 {
      KeepAll(front, keep);
    } else {
      DropAt(front, i, keep);
      assert buffs[i + 1..] == front[i + 1..] + [buffs[|buffs| - 1]];
    }
  }

  /** A definition with an aggregate instance has just that one. */
  lemma OnlyOne(b: Book, i: nat)
    requires Good(b) && i < |b.buffs| && b.buffs[i].definition < |b.defs| && !b.defs[b.buffs[i].definition].independent
    ensures forall j :: 0 <= j < |b.buffs| ==> (b.buffs[j].definition != b.buffs[i].definition <==> j != i)
  {
    hide Charged;
    assert b.buffs[i] in b.buffs;
    assert forall j :: 0 <= j < |b.buffs| ==> b.buffs[j] in b.buffs;
  }

  class Ledger {
    var counters: seq<Counter>
    var defs: seq<Definition>
    var buffs: seq<Instance>
    var serial: nat
    ghost var open: seq<nat>

    ghost function Now(): Book
      reads this
    {
      Book(counters, defs, buffs, serial, open)
    }

    constructor ()
      ensures Now() == EMPTY && Good(Now())
    {
      counters, defs, buffs, serial, open := [], [], [], 0, [];
      new;
      EmptyGood();
    }

    method NextEffectIdentity() returns (id: nat)
      modifies this`serial
      ensures id == serial == old(serial) + 1 && Now() == Next(old(Now()), Identity)
    {
      serial := serial + 1;
      return serial;
    }

    /** Drops the first instance with the identity. */
    method RemoveBuff(id: nat)
      requires Ordered(buffs, serial)
      modifies this`buffs
      ensures buffs == Keep(old(buffs), NotId(id)) && Now() == Next(old(Now()), Remove(id))
      ensures forall i :: 0 <= i < |old(buffs)| && old(buffs)[i].id == id ==> buffs == old(buffs)[..i] + old(buffs)[i + 1..]
      ensures (forall i :: 0 <= i < |old(buffs)| ==> old(buffs)[i].id != id) ==> buffs == old(buffs)
    {
      for i := 0 to |buffs|
        invariant buffs == old(buffs) && forall j :: 0 <= j < i ==> buffs[j].id != id
      {
        if buffs[i].id == id {
          DropAt(buffs, i, NotId(id));
          buffs := buffs[..i] + buffs[i + 1..];
          return;
        }
      }
      KeepAll(buffs, NotId(id));
    }

    method EnableCounterOrder(c: nat, replace: bool)
      requires Good(Now()) && c < |counters|
      modifies this`counters, this`defs, this`buffs, this`serial
      ensures Now() == Next(old(Now()), Enable(c, replace)) && Good(Now())
      ensures old(counters)[c].buffIndex >= 0 ==> Now() == old(Now())
      ensures old(counters)[c].buffIndex < 0 ==>
        && defs == old(defs) + [Definition(c, replace, false)] && counters == old(counters)[c := old(counters)[c].(buffIndex := |old(defs)|)]
        && (if counters[c].value == counters[c].init then buffs == old(buffs) && serial == old(serial)
            else buffs == old(buffs) + [Instance(old(serial) + 1, |old(defs)|, false, 0, 0, 0)] && serial == old(serial) + 1)
    {
      EnableGood(Now(), c, replace);
      if counters[c].buffIndex >= 0 { return; }
      var d := |defs|;
      counters := counters[c := counters[c].(buffIndex := d)];
      defs := defs + [Definition(c, replace, false)];
      if counters[c].value != counters[c].init {
        var id := NextEffectIdentity();
        buffs := buffs + [Instance(id, d, false, 0, 0, 0)];
      }
    }

    method FirstOf(d: int) returns (i: nat)
      ensures i <= |buffs| && (i < |buffs| <==> HasDefinition(buffs, d))
      ensures i < |buffs| ==> buffs[i].definition == d
      ensures forall j :: 0 <= j < i ==> buffs[j].definition != d
    {
      i := 0;
      while i < |buffs| && buffs[i].definition != d
        invariant i <= |buffs| && forall j :: 0 <= j < i ==> buffs[j].definition != d
      {
        i := i + 1;
      }
      if i < |buffs| { assert buffs[i] in buffs; }
    }

    /** updateBuffInstance, after counter c has changed from `before`. */
    method UpdateBuffInstance(c: nat, before: int, ghost was: Book)
      requires Good(was) && c < |counters| && Now().(counters := was.counters) == was
      requires c < |was.counters| && before == was.counters[c].value && !IsIndependent(was, c)
      requires counters == was.counters[c := was.counters[c].(value := counters[c].value)]
      modifies this`buffs, this`serial
      ensures Now() == Recount(was, c, counters[c].value)
    {
      hide Good, Keep, HasDefinition, Recount;
      Links(was, c);
      RecountIs(was, c, counters[c].value);
      var index := counters[c].buffIndex;
      if index < 0 { return; }
      var active := counters[c].value != counters[c].init;
      var replace := defs[index].replace && before != counters[c].value;
      var i := FirstOf(index);
      if i < |buffs| {
        if active && !replace { return; }
        OnlyOne(was, i);
        DropAt(buffs, i, NotOf(index));
        buffs := buffs[..i] + buffs[i + 1..];
      } else {
        KeepAll(buffs, NotOf(index));
      }
      if active {
        var id := NextEffectIdentity();
        buffs := buffs + [Instance(id, index, false, 0, 0, 0)];
      }
    }

    /** ApplyWrite under the event frame `frame`; false is the panic on a write without an instance. */
    method ApplyWrite(frame: Frame, c: nat, op: Op, v: int) returns (ok: bool)
      requires Good(Now()) && c < |counters| && Bound(Now(), frame)
      modifies this`counters, this`buffs, this`serial
      ensures ok <==> !Refused(old(Now()), frame, c, op, v)
      ensures Now() == Next(old(Now()), Writing(frame, c, op, v)) && Good(Now())
      ensures WriteEffect(old(Now()), frame, c, op, v, ok, Now())
    {
      ghost var was := Now();
      WriteLaw(was, frame, c, op, v);
      WriteGood(was, frame, c, op, v);
      Links(was, c);
      hide Good, Keep, HasDefinition, Find, Live, Renewed, Ordered, WriteEffect, ChargesLaw, Recount, WriteInstance, Bound;
      var index := counters[c].buffIndex;
      if index < 0 || !defs[index].independent {
        var before := counters[c].value;
        var value := Apply(op, before, v);
        if value < counters[c].min { value := counters[c].min; }
        if value > counters[c].max { value := counters[c].max; }
        counters := counters[c := counters[c].(value := value)];
        UpdateBuffInstance(c, before, was);
        return true;
      }
      if frame.instance != 0 && frame.counter == c {
        WriteBound(c, frame.instance, op, v);
        return true;
      }
      if op != Set || v != 0 { return false; }
      ClearInstances(index);
      return true;
    }

    /** buffByID: where the instance stands, or the length of the list. */
    method IndexOf(id: nat) returns (i: nat)
      requires Ordered(buffs, serial)
      ensures i <= |buffs| && (i < |buffs| <==> Live(buffs, id))
      ensures forall j :: 0 <= j < |buffs| && buffs[j].id == id ==> j == i
      ensures i < |buffs| ==> buffs[i] == Find(buffs, id) && forall y: Instance :: y.id == id ==> Renewed(buffs, id, y) == buffs[i := y]
    {
      i := 0;
      while i < |buffs| && buffs[i].id != id
        invariant i <= |buffs| && forall j :: 0 <= j < i ==> buffs[j].id != id
      {
        i := i + 1;
      }
      if i < |buffs| {
        FindOnly(buffs, serial, buffs[i]);
        forall y: Instance | y.id == id ensures Renewed(buffs, id, y) == buffs[i := y] { RenewAt(buffs, serial, i, y); }
      }
    }

    /** The write bound to one instance. */
    method WriteBound(c: nat, id: nat, op: Op, v: int)
      requires Ordered(buffs, serial) && c < |counters|
      modifies this`buffs
      ensures Now() == WriteInstance(old(Now()), c, id, op, v)
      ensures ChargesLaw(old(buffs), id, op, v, counters[c].max, buffs)
    {
      hide Ordered, Renewed, Keep, Find, Live, WriteInstance, Apply, ChargesLaw;
      WriteInstanceLaw(Now(), c, id, op, v);
      var i := IndexOf(id);
      BoundWrite(Now(), c, id, op, v);
      if i == |buffs| { return; }
      FindId(buffs, id);
      var x := buffs[i];
      var value := Apply(op, x.value, v);
      if value > counters[c].max { value := counters[c].max; }
      if value <= 0 {
        RemoveBuff(id);
      } else {
        buffs := buffs[i := x.(value := value)];
      }
    }

    /** Removes every instance of an independent definition, from a copy of the list. */
    method ClearInstances(d: nat)
      requires Good(Now())
      modifies this`buffs
      ensures buffs == Keep(old(buffs), NotOf(d)) && Ordered(buffs, serial) && forall x :: x in buffs <==> x in old(buffs) && x.definition != d
    {
      hide Good, Charged, Ordered, Keep;
      OrderedNow(Now());
      var copy := buffs;
      for k := 0 to |copy|
        invariant Ordered(buffs, serial)
        invariant forall x :: x in buffs <==> x in copy && !(x.definition == d && x in copy[..k])
      {
        CopyMore(copy, serial, k);
        if copy[k].definition == d {
          KeepOrdered(buffs, NotId(copy[k].id), serial);
          KeepMember(buffs, NotId(copy[k].id));
          RemoveBuff(copy[k].id);
        }
      }
      KeepOrdered(copy, NotOf(d), serial);
      KeepMember(copy, NotOf(d));
      SameMembers(buffs, Keep(copy, NotOf(d)), serial);
    }

    /** SpawnBuff before the write of the charges. */
    method BeginSpawn(d: int, value: int, duration: int) returns (id: nat, ok: bool)
      requires Good(Now())
      modifies this`buffs, this`serial, this`open
      ensures ok <==> d >= 0 && MaySpawn(old(Now()), d, value, duration)
      ensures ok <==> 0 <= d < |defs| && defs[d].independent && 1 <= value <= counters[defs[d].counter].max && (duration >= 1 || duration == -1)
      ensures Now() == (if ok then Next(old(Now()), Begin(d, value, duration)) else old(Now())) && Good(Now())
      ensures ok ==> buffs == old(buffs) + [Instance(id, d, true, 0, duration, 0)] && id == old(serial) + 1 && open == old(open) + [id]
      ensures ok ==> id == serial && Captured(Now(), Frame(id, defs[d].counter))
    {
      if d >= 0 { BeginGood(Now(), d, value, duration); }
      if d < 0 || d >= |defs| { return 0, false; }
      var def := defs[d];
      if !def.independent || value <= 0 || value > counters[def.counter].max || duration == 0 || duration < -1 { return 0, false; }
      id := NextEffectIdentity();
      ok := true;
      var x := Instance(id, d, true, 0, duration, 0);
      buffs := buffs + [x];
      open := open + [id];
      assert x in buffs && x.id == id;
    }

    /** SpawnBuff after the write of the charges and the deferred effects. */
    method EndSpawn(id: nat)
      requires Good(Now()) && open != [] && id == open[|open| - 1]
      modifies this`buffs, this`open
      ensures Now() == Next(old(Now()), End) && Good(Now())
      ensures forall i :: 0 <= i < |old(buffs)| && old(buffs)[i].id == id ==>
        buffs == if old(buffs)[i].value == 0 then old(buffs)[..i] + old(buffs)[i + 1..] else old(buffs)
      ensures (forall i :: 0 <= i < |old(buffs)| ==> old(buffs)[i].id != id) ==> buffs == old(buffs)
    {
      hide Good, Find, Live, Keep;
      EndGood(Now());
      OrderedNow(Now());
      var i := IndexOf(id);
      open := open[..|open| - 1];
      if i < |buffs| && buffs[i].value == 0 { RemoveBuff(id); }
    }

    /** false is the error. */
    method SetBuffRemaining(id: nat, duration: int) returns (ok: bool)
      requires Good(Now())
      modifies this`buffs
      ensures Now() == Next(old(Now()), Remaining(id, duration)) && Good(Now())
      ensures !ok ==> buffs == old(buffs)
      ensures ok ==> forall i :: 0 <= i < |old(buffs)| && old(buffs)[i].id == id ==>
        buffs == if duration == 0 then old(buffs)[..i] + old(buffs)[i + 1..] else old(buffs)[i := old(buffs)[i].(duration := duration)]
      ensures (forall i :: 0 <= i < |old(buffs)| ==> old(buffs)[i].id != id) ==> buffs == old(buffs)
      ensures ok <==> !Live(old(buffs), id) || (Find(old(buffs), id).independent && duration >= -1)
    {
      hide Good, Find, Live, Renewed, Keep;
      RemainingGood(Now(), id, duration);
      OrderedNow(Now());
      var i := IndexOf(id);
      if i == |buffs| { return true; }
      var x := buffs[i];
      if !x.independent || duration < -1 { return false; }
      if duration == 0 {
        RemoveBuff(id);
      } else {
        FindId(buffs, id);
        buffs := buffs[i := x.(duration := duration)];
      }
      return true;
    }

    method SetBuffProgress(id: nat, value: int) returns (ok: bool)
      requires Good(Now())
      modifies this`buffs
      ensures Now() == Next(old(Now()), Progress(id, value)) && Good(Now())
      ensures !ok ==> buffs == old(buffs)
      ensures ok ==> forall i :: 0 <= i < |old(buffs)| && old(buffs)[i].id == id ==> buffs == old(buffs)[i := old(buffs)[i].(progress := value)]
      ensures ok <==> Live(old(buffs), id) && Find(old(buffs), id).independent && 0 <= value <= MAXPROGRESS
    {
      hide Good, Find, Live, Renewed, Keep;
      ProgressGood(Now(), id, value);
      OrderedNow(Now());
      var i := IndexOf(id);
      if i == |buffs| || !buffs[i].independent || value < 0 || value > MAXPROGRESS { return false; }
      FindId(buffs, id);
      buffs := buffs[i := buffs[i].(progress := value)];
      return true;
    }
  }

  lemma WriteLaw(b: Book, frame: Frame, c: nat, op: Op, v: int)
    requires Good(b) && c < |b.counters|
    ensures WriteEffect(b, frame, c, op, v, !Refused(b, frame, c, op, v), Write(b, frame, c, op, v))
  {
    hide Good, Keep, CounterLaw, AggregateLaw, ChargesLaw, WriteInstance, Ordered;
    Links(b, c);
    var d := b.counters[c].buffIndex;
    if d < 0 || !b.defs[d].independent {
      WriteAggregateLaw(b, c, op, v);
    } else if frame.instance != 0 && frame.counter == c {
      WriteInstanceLaw(b, c, frame.instance, op, v);
    } else {
      KeepMember(b.buffs, NotOf(d));
    }
  }

  /** A new counter has its default value within its bounds, as value and as initial value, and no buff. */
  lemma CreateLaw(b: Book, value: int, min: int, max: int)
    ensures var b' := Next(b, Create(value, min, max));
      && b' == b.(counters := b'.counters) && |b'.counters| == |b.counters| + 1 && b.counters <= b'.counters
      && var x := b'.counters[|b.counters|];
         Lands(value, min, max, x.value) && x == Counter(x.value, x.value, min, max, -1)
  {
  }

  /** A definition becomes independent iff its counter starts at 0 and stands there. */
  lemma IndependentLaw(b: Book, d: nat)
    requires Good(b) && d < |b.defs|
    ensures var b', c := Next(b, Independent(d)), b.defs[d].counter;
      && b' == b.(defs := b'.defs) && |b'.defs| == |b.defs| && (forall e :: 0 <= e < |b.defs| && e != d ==> b'.defs[e] == b.defs[e])
      && b'.defs[d] == b.defs[d].(independent := b'.defs[d].independent)
      && (b'.defs[d].independent <==> b.defs[d].independent || (b.counters[c].init == 0 && b.counters[c].value == 0))
  {
    hide Ordered, Counted, AllCharged;
  }

  lemma Links(b: Book, c: nat)
    requires Good(b) && c < |b.counters|
    ensures Ordered(b.buffs, b.serial) && (b.counters[c].buffIndex >= 0 ==> b.counters[c].buffIndex < |b.defs|)
  {
  }

  lemma BoundWrite(b: Book, c: nat, id: nat, op: Op, v: int)
    requires c < |b.counters|
    ensures !Live(b.buffs, id) ==> WriteInstance(b, c, id, op, v) == b
    ensures Live(b.buffs, id) ==>
      var x := Find(b.buffs, id);
      var sum := Apply(op, x.value, v);
      var value := if sum > b.counters[c].max then b.counters[c].max else sum;
      WriteInstance(b, c, id, op, v) == b.(buffs := if value <= 0 then Keep(b.buffs, NotId(id)) else Renewed(b.buffs, id, x.(value := value)))
  {
  }

  lemma RecountIs(b: Book, c: nat, after: int)
    requires c < |b.counters| && (b.counters[c].buffIndex >= 0 ==> b.counters[c].buffIndex < |b.defs|)
    ensures var b', d := b.(counters := b.counters[c := b.counters[c].(value := after)]), b.counters[c].buffIndex;
      Recount(b, c, after) ==
        if d < 0 || (after != b.counters[c].init && HasDefinition(b.buffs, d) && !(b.defs[d].replace && b.counters[c].value != after)) then b'
        else if after != b.counters[c].init
        then b'.(buffs := Keep(b.buffs, NotOf(d)) + [Instance(b.serial + 1, d, false, 0, 0, 0)], serial := b.serial + 1)
        else b'.(buffs := Keep(b.buffs, NotOf(d)))
  {
  }

  lemma CopyMore(copy: seq<Instance>, serial: nat, k: nat)
    requires Ordered(copy, serial) && k < |copy|
    ensures copy[..k + 1] == copy[..k] + [copy[k]] && forall x :: x in copy && x.id == copy[k].id ==> x == copy[k]
  {
  }

  lemma OrderedNow(b: Book)
    requires Good(b)
    ensures Ordered(b.buffs, b.serial)
  {
  }

  lemma FindId(buffs: seq<Instance>, id: nat)
    requires Live(buffs, id)
    ensures Find(buffs, id).id == id
  {
  }

  lemma RenewAt(buffs: seq<Instance>, serial: nat, i: nat, y: Instance)
    requires Ordered(buffs, serial) && i < |buffs| && y.id == buffs[i].id
    ensures Renewed(buffs, y.id, y) == buffs[i := y]
  {
  }

  lemma LastIs(a: seq<Instance>, serial: nat)
    requires Ordered(a, serial) && a != []
    ensures forall x :: x in a ==> x.id <= a[|a| - 1].id
    ensures forall x :: x in a[..|a| - 1] <==> x in a && x != a[|a| - 1]
    ensures Ordered(a[..|a| - 1], serial)
  {
    assert a == a[..|a| - 1] + [a[|a| - 1]];
  }

  /** A list ordered by identity is determined by its members. */
  lemma {:induction false} SameMembers(a: seq<Instance>, b: seq<Instance>, serial: nat)
    requires Ordered(a, serial) && Ordered(b, serial) && forall x :: x in a <==> x in b
    ensures a == b
  {
    hide Ordered;
    assert b == [] || b[0] in b;
    if a != [] {
      assert a[|a| - 1] in b;
      assert b != [] && b[|b| - 1] in a;
      LastIs(a, serial);
      LastIs(b, serial);
      UniqueMember(b, serial, a[|a| - 1], b[|b| - 1]);
      var front, front' := a[..|a| - 1], b[..|b| - 1];
      forall x ensures x in front <==> x in front' { assert x in a <==> x in b; }
      SameMembers(front, front', serial);
      assert a == front + [a[|a| - 1]] && b == front' + [b[|b| - 1]];
    }
  }

  lemma UniqueMember(b: seq<Instance>, serial: nat, x: Instance, y: Instance)
    requires Ordered(b, serial) && x in b && y in b && x.id == y.id
    ensures x == y
  {
  }
}
