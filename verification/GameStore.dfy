/** The mutable gameplay state and its snapshots (gicg_engine/game_snap.go): objects whose lists live in
    buffers that are reused from one copy to the next. */
module GameStore {

  type Cell(==, !new)   // a counter, a buff, a card, ...

  type Rest(==, !new)   // the fields that are copied by value

  /** What a state is: the counters, whose number never changes, a list that grows and shrinks, and the
      value fields.  The other lists of the game are copied the same way as this one. */
  datatype State = State(counters: seq<Cell>, list: seq<Cell>, rest: Rest)

  /** append(dst[:0], src...): reuses the buffer while its capacity lasts. */
  method CopyInto(dst: array<Cell>, src: array<Cell>, n: nat) returns (out: array<Cell>)
    requires n <= src.Length && dst != src
    modifies dst
    ensures (out == dst || fresh(out)) && out.Length >= n && out[..n] == src[..n] && src[..] == old(src[..])
  {
    if dst.Length < n {
      out := new Cell[n](i requires 0 <= i < n && n <= src.Length reads src => src[i]);
      return;
    }
    out := dst;
    for i := 0 to n
      invariant forall j :: 0 <= j < i ==> out[j] == src[j]
      invariant src[..] == old(src[..])
    {
      out[i] := src[i];
    }
  }

  /** The game, or a snapshot of it. */
  class Store {
    var counters: array<Cell>
    var nCounters: nat
    var list: array<Cell>
    var nList: nat
    var rest: Rest

    ghost predicate Valid()
      reads this
    {
      nCounters <= counters.Length && nList <= list.Length && counters != list
    }

    /** The object and its buffers. */
    ghost function Repr(): set<object>
      reads this
    {
      {this, counters, list}
    }

    function Value(): State
      reads this, counters, list
      requires Valid()
    {
      State(counters[..nCounters], list[..nList], rest)
    }

    constructor (s: State)
      ensures Valid() && Value() == s && fresh(counters) && fresh(list)
    {
      counters := new Cell[|s.counters|](i requires 0 <= i < |s.counters| => s.counters[i]);
      list := new Cell[|s.list|](i requires 0 <= i < |s.list| => s.list[i]);
      nCounters, nList, rest := |s.counters|, |s.list|, s.rest;
      new;
      assert counters[..nCounters] == s.counters && list[..nList] == s.list;
    }

    /** Takes over the value of another store, into its own buffers. */
    method Assign(src: Store)
      requires Valid() && src.Valid() && Repr() !! src.Repr()
      modifies Repr()
      ensures Valid() && Value() == old(src.Value()) && src.Valid() && src.Value() == old(src.Value())
      ensures Repr() !! src.Repr() && forall o :: o in Repr() ==> o in old(Repr()) || fresh(o)
    {
      counters := CopyInto(counters, src.counters, src.nCounters);
      list := CopyInto(list, src.list, src.nList);
      nCounters, nList, rest := src.nCounters, src.nList, src.rest;
    }

    /** Any change of the value by the rules. */
    method Become(s: State)
      requires Valid()
      modifies Repr()
      ensures Valid() && Value() == s && forall o :: o in Repr() ==> o in old(Repr()) || fresh(o)
    {
      var c := new Cell[|s.counters|](i requires 0 <= i < |s.counters| => s.counters[i]);
      var l := new Cell[|s.list|](i requires 0 <= i < |s.list| => s.list[i]);
      assert c[..|s.counters|] == s.counters && l[..|s.list|] == s.list;
      counters := CopyInto(counters, c, |s.counters|);
      list := CopyInto(list, l, |s.list|);
      nCounters, nList, rest := |s.counters|, |s.list|, s.rest;
    }
  }
}
