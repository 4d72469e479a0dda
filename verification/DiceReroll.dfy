/** gicg_engine/dice_selection.go: ChooseReroll, run against the recorded choices of its operation. */
module DiceReroll {
  import opened DiceVectors

  type Rng(!new)

  /** A decision frame; color == COLORS asks for confirmation. */
  datatype Selection = Selection(player: nat, remaining: nat, color: nat, pool: Dice, selected: Dice)

  /** A recorded answer: the frame that was pending, the state the game was in by then, the count. */
  datatype Choice = Choice(frame: Selection, dice: Dice, rng: Rng, count: int)

  /** A request as it was made: its frame and the state at that moment. */
  datatype Asked = Asked(frame: Selection, dice: Dice, rng: Rng)

  datatype Outcome = Done | Suspended | Failed

  /** The number of colours below n that have dice. */
  function NonEmpty(pool: Dice, n: nat): nat
    requires n <= COLORS
  {
    if n == 0 then 0 else NonEmpty(pool, n - 1) + if pool[n - 1] != 0 then 1 else 0
  }

  function MaxCount(f: Selection): int { if f.color < COLORS then f.pool[f.color] else 0 }

  predicate Accepts(f: Selection, c: Choice) { c.frame == f && 0 <= c.count <= MaxCount(f) }

  ghost predicate NonNegative(d: Dice) { forall c :: 0 <= c < COLORS ==> d[c] >= 0 }

  /** The k-th request of a roll over the colours below n: that colour's frame. */
  ghost predicate AsksColors(asked: seq<Asked>, player: nat, remaining: nat, pool: Dice, n: nat)
    requires n <= COLORS
  {
    && |asked| == NonEmpty(pool, n)
    && forall c :: 0 <= c < n && pool[c] != 0 ==> NonEmpty(pool, c) < |asked| && Asks(asked[NonEmpty(pool, c)], player, remaining, pool, c)
  }

  ghost predicate Asks(a: Asked, player: nat, remaining: nat, pool: Dice, color: nat) {
    a.frame.player == player && a.frame.remaining == remaining && a.frame.color == color && a.frame.pool == pool
  }

  /** All requests of one roll: every non-empty colour once, in order, then one confirmation. */
  ghost predicate OneRoll(asked: seq<Asked>, player: nat, remaining: nat, pool: Dice) {
    && asked != []
    && var last := |asked| - 1;
       AsksColors(asked[..last], player, remaining, pool, COLORS) && Asks(asked[last], player, remaining, pool, COLORS)
  }

  /** The requests of a roll so far: every non-empty colour below n, then colour n or the confirmation. */
  ghost predicate PartOfRoll(asked: seq<Asked>, player: nat, remaining: nat, pool: Dice) {
    asked != [] && exists n: nat :: n <= COLORS && UpTo(asked, player, remaining, pool, n)
  }

  ghost predicate UpTo(asked: seq<Asked>, player: nat, remaining: nat, pool: Dice, n: nat)
    requires asked != [] && n <= COLORS
  {
    var last := |asked| - 1;
    AsksColors(asked[..last], player, remaining, pool, n) && Asks(asked[last], player, remaining, pool, n) && (n < COLORS ==> pool[n] != 0)
  }

  /** One roll: the cursor and the state it started with, and its requests. */
  datatype RollLog = RollLog(from: nat, dice: Dice, rng: Rng, asked: seq<Asked>)

  function Flat(logs: seq<RollLog>): seq<Asked> {
    if logs == [] then [] else Flat(logs[..|logs| - 1]) + logs[|logs| - 1].asked
  }

  lemma FlatMore(logs: seq<RollLog>, r: RollLog)
    ensures Flat(logs + [r]) == Flat(logs) + r.asked
  {
    assert (logs + [r])[..|logs|] == logs;
  }

  /** Putting n random dice into the pool. */
  function Toss(intn: Rng -> (Rng, nat), dice: Dice, rng: Rng, n: nat): (Dice, Rng)
    requires forall r :: intn(r).1 < COLORS
    decreases n
  {
    if n == 0 then (dice, rng) else
      var (rng', color) := intn(rng);
      Toss(intn, dice[color := dice[color] + 1], rng', n - 1)
  }

  /** How many of the first n draws from these generators give colour c. */
  ghost function Draws(intn: Rng -> (Rng, nat), gens: seq<Rng>, n: nat, c: nat): nat
    requires n <= |gens|
  {
    if n == 0 then 0 else Draws(intn, gens, n - 1, c) + if intn(gens[n - 1]).1 == c then 1 else 0
  }

  /** n dice drawn one after the other: each draw uses the generator the last one left, and each colour gains the
      dice that were drawn of it. */
  ghost predicate Drawn(intn: Rng -> (Rng, nat), dice: Dice, rng: Rng, n: nat, dice': Dice, rng': Rng, gens: seq<Rng>) {
    && |gens| == n + 1 && gens[0] == rng && gens[n] == rng'
    && (forall i :: 0 <= i < n ==> gens[i + 1] == intn(gens[i]).0)
    && forall c :: 0 <= c < COLORS ==> dice'[c] == dice[c] + Draws(intn, gens, n, c)
  }

  lemma {:induction false} DrawsShift(intn: Rng -> (Rng, nat), rng: Rng, gens: seq<Rng>, n: nat, c: nat)
    requires n <= |gens|
    ensures Draws(intn, [rng] + gens, n + 1, c) == Draws(intn, gens, n, c) + if intn(rng).1 == c then 1 else 0
  {
    if n == 0 { assert Draws(intn, [rng] + gens, 0, c) == 0; } else { DrawsShift(intn, rng, gens, n - 1, c); }
  }

  lemma {:induction false} TossDraws(intn: Rng -> (Rng, nat), dice: Dice, rng: Rng, n: nat) returns (gens: seq<Rng>)
    requires forall r :: intn(r).1 < COLORS
    ensures Drawn(intn, dice, rng, n, Toss(intn, dice, rng, n).0, Toss(intn, dice, rng, n).1, gens)
    decreases n
  {
    if n == 0 {
      gens := [rng];
    } else {
      var (rng', color) := intn(rng);
      var rest := TossDraws(intn, dice[color := dice[color] + 1], rng', n - 1);
      gens := [rng] + rest;
      forall c | 0 <= c < COLORS ensures Draws(intn, gens, n, c) == Draws(intn, rest, n - 1, c) + if color == c then 1 else 0 {
        DrawsShift(intn, rng, rest, n - 1, c);
      }
      hide Draws;
      assert forall i :: 1 <= i < |gens| ==> gens[i] == rest[i - 1];
    }
  }

  /** Dice and generator after a roll: those of its confirmation, the selected dice thrown again. */
  function AfterRoll(intn: Rng -> (Rng, nat), choices: seq<Choice>, r: RollLog): (Dice, Rng)
    requires (forall g :: intn(g).1 < COLORS) && r.asked != [] && 0 < r.from + |r.asked| <= |choices|
  {
    var c, selected := choices[r.from + |r.asked| - 1], r.asked[|r.asked| - 1].frame.selected;
    var total := Sum(selected, COLORS);
    Toss(intn, Minus(c.dice, selected), c.rng, if total < 0 then 0 else total)
  }

  /** The selection holds the answers given for the non-empty colours below n, and nothing else. */
  ghost predicate Selects(choices: seq<Choice>, from: nat, pool: Dice, selected: Dice, n: nat)
    requires n <= COLORS
  {
    && (forall c :: 0 <= c < n && pool[c] != 0 ==> from + NonEmpty(pool, c) < |choices| && selected[c] == choices[from + NonEmpty(pool, c)].count)
    && (forall c :: 0 <= c < n && pool[c] == 0 ==> selected[c] == 0)
    && forall c :: n <= c < COLORS ==> selected[c] == 0
  }

  lemma SelectsMore(choices: seq<Choice>, from: nat, pool: Dice, selected: Dice, n: nat, count: int)
    requires n < COLORS && Selects(choices, from, pool, selected, n)
    requires pool[n] != 0 ==> from + NonEmpty(pool, n) < |choices| && count == choices[from + NonEmpty(pool, n)].count
    ensures Selects(choices, from, pool, if pool[n] != 0 then selected[n := count] else selected, n + 1)
  {
    hide NonEmpty;
  }

  lemma SelectsNone(choices: seq<Choice>, from: nat, pool: Dice)
    ensures Selects(choices, from, pool, ZERO, 0)
  {
  }

  /** A complete roll: every non-empty colour of the dice it started with, then the confirmation of what
      was answered; each request is made in the state the choice before it installed. */
  ghost predicate WholeRoll(choices: seq<Choice>, r: RollLog, player: nat, remaining: nat) {
    && OneRoll(r.asked, player, remaining, r.dice) && Follows(choices, r.asked, r.from, r.dice, r.rng)
    && r.from + |r.asked| <= |choices|
    && var selected := r.asked[|r.asked| - 1].frame.selected;
       Within(selected, r.dice) && Selects(choices, r.from, r.dice, selected, COLORS)
  }

  /** A roll that is still being asked for. */
  ghost predicate BegunRoll(choices: seq<Choice>, r: RollLog, player: nat, remaining: nat) {
    PartOfRoll(r.asked, player, remaining, r.dice) && Follows(choices, r.asked, r.from, r.dice, r.rng)
  }

  /** The rolls numbered times, times - 1, ... one after the other, each from the state the last one left,
      the first from (dice0, rng0) at cursor `start`; the next one will start from (dice, rng) at `from`. */
  ghost predicate Chain(intn: Rng -> (Rng, nat), choices: seq<Choice>, logs: seq<RollLog>, player: nat, times: nat,
                        start: nat, dice0: Dice, rng0: Rng, from: nat, dice: Dice, rng: Rng)
    requires forall r :: intn(r).1 < COLORS
  {
    && |logs| <= times
    && (forall i :: 0 <= i < |logs| ==> WholeRoll(choices, logs[i], player, times - i))
    && (forall i :: 0 < i < |logs| ==> Continues(intn, choices, logs[i - 1], logs[i].from, logs[i].dice, logs[i].rng))
    && (if logs == [] then from == start && dice == dice0 && rng == rng0
        else logs[0].from == start && logs[0].dice == dice0 && logs[0].rng == rng0
             && Continues(intn, choices, logs[|logs| - 1], from, dice, rng))
  }

  /** What follows roll r starts where it ended. */
  ghost predicate Continues(intn: Rng -> (Rng, nat), choices: seq<Choice>, r: RollLog, from: nat, dice: Dice, rng: Rng)
    requires forall g :: intn(g).1 < COLORS
  {
    r.asked != [] && from == r.from + |r.asked| <= |choices| && (dice, rng) == AfterRoll(intn, choices, r)
  }

  lemma ChainMore(intn: Rng -> (Rng, nat), choices: seq<Choice>, logs: seq<RollLog>, player: nat, times: nat,
                  start: nat, dice0: Dice, rng0: Rng, r: RollLog, from: nat, dice: Dice, rng: Rng)
    requires forall g :: intn(g).1 < COLORS
    requires Chain(intn, choices, logs, player, times, start, dice0, rng0, r.from, r.dice, r.rng) && |logs| < times
    requires WholeRoll(choices, r, player, times - |logs|) && Continues(intn, choices, r, from, dice, rng)
    ensures Chain(intn, choices, logs + [r], player, times, start, dice0, rng0, from, dice, rng)
  {
    hide WholeRoll, Continues;
  }

  lemma {:induction false} TossSum(intn: Rng -> (Rng, nat), dice: Dice, rng: Rng, n: nat)
    requires forall r :: intn(r).1 < COLORS
    ensures Sum(Toss(intn, dice, rng, n).0, COLORS) == Sum(dice, COLORS) + n
    decreases n
  {
    if n > 0 {
      var (rng', color) := intn(rng);
      SumUpdate(dice, color, dice[color] + 1, COLORS);
      hide Sum;
      TossSum(intn, dice[color := dice[color] + 1], rng', n - 1);
    }
  }

  /** Unaltered answers are given in the state the roll started with. */
  lemma {:induction false} UnalteredStays(choices: seq<Choice>, r: RollLog, k: nat)
    requires Follows(choices, r.asked, r.from, r.dice, r.rng) && Unaltered(choices, r.from, r.asked)
    requires k < |r.asked| && r.from + k < |choices|
    ensures choices[r.from + k].dice == r.dice
  {
    assert choices[r.from + k].dice == r.asked[k].dice;
    if k > 0 {
      UnalteredStays(choices, r, k - 1);
      assert r.asked[k].dice == choices[r.from + k - 1].dice;
    }
  }

  /** A roll whose answers found the dice unaltered keeps their number. */
  lemma RollKeepsTotal(intn: Rng -> (Rng, nat), choices: seq<Choice>, r: RollLog, player: nat, remaining: nat)
    requires (forall g :: intn(g).1 < COLORS) && WholeRoll(choices, r, player, remaining) && Unaltered(choices, r.from, r.asked)
    requires r.asked != [] && NonNegative(r.dice)
    ensures Sum(AfterRoll(intn, choices, r).0, COLORS) == Sum(r.dice, COLORS)
  {
    hide OneRoll, Selects, Toss, Sum;
    UnalteredStays(choices, r, |r.asked| - 1);
    hide Follows, Unaltered;
    SelectedKeepsTotal(intn, r.dice, choices[r.from + |r.asked| - 1].rng, r.asked[|r.asked| - 1].frame.selected);
  }

  lemma SelectedKeepsTotal(intn: Rng -> (Rng, nat), dice: Dice, rng: Rng, selected: Dice)
    requires (forall g :: intn(g).1 < COLORS) && Within(selected, dice)
    ensures Sum(selected, COLORS) >= 0
    ensures Sum(Toss(intn, Minus(dice, selected), rng, Sum(selected, COLORS)).0, COLORS) == Sum(dice, COLORS)
  {
    SumMinus(dice, selected, COLORS);
    SumZero(ZERO, COLORS);
    SumMonotone(ZERO, selected, COLORS);
    TossSum(intn, Minus(dice, selected), rng, Sum(selected, COLORS));
    hide Sum, Toss;
  }

  /** Nothing changed the dice while the operation waited. */
  ghost predicate AllUnaltered(choices: seq<Choice>, logs: seq<RollLog>) {
    forall i :: 0 <= i < |logs| ==> Unaltered(choices, logs[i].from, logs[i].asked)
  }

  ghost predicate AllNonNegative(logs: seq<RollLog>) { forall i :: 0 <= i < |logs| ==> NonNegative(logs[i].dice) }

  /** Then any number of rolls keeps the number of dice. */
  lemma {:induction false} ChainKeepsTotal(intn: Rng -> (Rng, nat), choices: seq<Choice>, logs: seq<RollLog>, player: nat, times: nat,
                  start: nat, dice0: Dice, rng0: Rng, from: nat, dice: Dice, rng: Rng)
    requires forall g :: intn(g).1 < COLORS
    requires Chain(intn, choices, logs, player, times, start, dice0, rng0, from, dice, rng)
    requires AllUnaltered(choices, logs) && AllNonNegative(logs)
    ensures Sum(dice, COLORS) == Sum(dice0, COLORS)
  {
    hide WholeRoll, AfterRoll, Unaltered, Sum, NonNegative;
    if logs != [] {
      var n := |logs| - 1;
      var front, r := logs[..n], logs[n];
      ChainKeepsTotal(intn, choices, front, player, times, start, dice0, rng0, r.from, r.dice, r.rng);
      RollKeepsTotal(intn, choices, r, player, times - n);
    }
  }

  lemma {:induction false} NonEmptyMonotone(pool: Dice, m: nat, n: nat)
    requires m < n <= COLORS
    ensures NonEmpty(pool, m) + (if pool[m] != 0 then 1 else 0) <= NonEmpty(pool, n)
  {
    if m + 1 < n { NonEmptyMonotone(pool, m, n - 1); }
  }

  lemma AsksOneMore(asked: seq<Asked>, a: Asked, player: nat, remaining: nat, pool: Dice, n: nat)
    requires n < COLORS && pool[n] != 0
    requires AsksColors(asked, player, remaining, pool, n) && Asks(a, player, remaining, pool, n)
    ensures AsksColors(asked + [a], player, remaining, pool, n + 1)
  {
    forall c | 0 <= c < n && pool[c] != 0 ensures NonEmpty(pool, c) < |asked| { NonEmptyMonotone(pool, c, n); }
  }

  lemma Assoc<T>(a: seq<T>, b: seq<T>, c: seq<T>)
    ensures a + b + c == a + (b + c)
  {
  }

  lemma SelectMore(selected: Dice, pool: Dice, color: nat, count: int)
    requires Within(selected, pool) && color < COLORS && 0 <= count <= pool[color]
    ensures Within(selected[color := count], pool)
  {
  }

  lemma AskedSoFar(asked: seq<Asked>, player: nat, remaining: nat, pool: Dice, n: nat)
    requires n <= COLORS && AsksColors(asked, player, remaining, pool, n)
    ensures |asked| == NonEmpty(pool, n)
  {
  }

  /** A roll's requests for the colours below n, and the selection they have made. */
  ghost predicate SoFar(choices: seq<Choice>, from: nat, asked: seq<Asked>, player: nat, remaining: nat, pool: Dice, selected: Dice, n: nat)
    requires n <= COLORS
  {
    AsksColors(asked, player, remaining, pool, n) && Within(selected, pool) && Selects(choices, from, pool, selected, n)
  }

  lemma SoFarSkip(choices: seq<Choice>, from: nat, asked: seq<Asked>, player: nat, remaining: nat, pool: Dice, selected: Dice, n: nat)
    requires n < COLORS && pool[n] == 0 && SoFar(choices, from, asked, player, remaining, pool, selected, n)
    ensures SoFar(choices, from, asked, player, remaining, pool, selected, n + 1)
  {
    hide AsksColors, Selects, Within;
    AsksSkip(asked, player, remaining, pool, n);
    SelectsMore(choices, from, pool, selected, n, 0);
  }

  lemma SoFarMore(choices: seq<Choice>, from: nat, asked: seq<Asked>, player: nat, remaining: nat, pool: Dice, selected: Dice, n: nat,
                  a: Asked, count: int)
    requires n < COLORS && pool[n] != 0 && SoFar(choices, from, asked, player, remaining, pool, selected, n)
    requires Asks(a, player, remaining, pool, n) && 0 <= count <= pool[n]
    requires from + |asked| < |choices| && count == choices[from + |asked|].count
    ensures SoFar(choices, from, asked + [a], player, remaining, pool, selected[n := count], n + 1)
  {
    hide AsksColors, Selects, Within;
    AskedSoFar(asked, player, remaining, pool, n);
    AsksOneMore(asked, a, player, remaining, pool, n);
    SelectMore(selected, pool, n, count);
    SelectsMore(choices, from, pool, selected, n, count);
  }

  lemma SoFarStops(choices: seq<Choice>, from: nat, asked: seq<Asked>, player: nat, remaining: nat, pool: Dice, selected: Dice, n: nat, a: Asked)
    requires n < COLORS && pool[n] != 0 && SoFar(choices, from, asked, player, remaining, pool, selected, n)
    requires Asks(a, player, remaining, pool, n)
    ensures PartOfRoll(asked + [a], player, remaining, pool)
  {
    hide AsksColors, Selects, Within, PartOfRoll;
    assert (asked + [a])[..|asked|] == asked;
    AskedUpTo(asked, asked + [a], player, remaining, pool, n);
  }

  lemma AskedUpTo(before: seq<Asked>, mine: seq<Asked>, player: nat, remaining: nat, pool: Dice, n: nat)
    requires n <= COLORS && mine != [] && before == mine[..|mine| - 1] && AsksColors(before, player, remaining, pool, n)
    requires Asks(mine[|mine| - 1], player, remaining, pool, n) && (n < COLORS ==> pool[n] != 0)
    ensures PartOfRoll(mine, player, remaining, pool)
  {
    assert UpTo(mine, player, remaining, pool, n);
  }

  lemma AsksSkip(asked: seq<Asked>, player: nat, remaining: nat, pool: Dice, n: nat)
    requires n < COLORS && pool[n] == 0 && AsksColors(asked, player, remaining, pool, n)
    ensures AsksColors(asked, player, remaining, pool, n + 1)
  {
  }

  lemma AsksNone(player: nat, remaining: nat, pool: Dice, n: nat)
    requires n == 0
    ensures AsksColors([], player, remaining, pool, n)
  {
  }

  /** The requests `mine` were made from cursor `start` on, the first in state (dice, rng) and each
      later one in the state the choice before it installed. */
  ghost predicate Follows(choices: seq<Choice>, mine: seq<Asked>, start: nat, dice: Dice, rng: Rng) {
    && start + |mine| <= |choices| + 1
    && forall k :: 0 <= k < |mine| ==>
         if k == 0 then mine[k].dice == dice && mine[k].rng == rng
         else mine[k].dice == choices[start + k - 1].dice && mine[k].rng == choices[start + k - 1].rng
  }

  lemma FollowsMore(choices: seq<Choice>, mine: seq<Asked>, a: Asked, start: nat, dice: Dice, rng: Rng)
    requires Follows(choices, mine, start, dice, rng) && start + |mine| <= |choices|
    requires if mine == [] then a.dice == dice && a.rng == rng
             else a.dice == choices[start + |mine| - 1].dice && a.rng == choices[start + |mine| - 1].rng
    ensures Follows(choices, mine + [a], start, dice, rng)
  {
  }

  /** The recorded states from cursor `start` on are the ones the requests were made in. */
  ghost predicate Unaltered(choices: seq<Choice>, start: nat, mine: seq<Asked>) {
    forall k :: 0 <= k < |mine| && start + k < |choices| ==> choices[start + k].dice == mine[k].dice
  }

  /** Every answer passed the identity check. */
  ghost predicate Accepted(choices: seq<Choice>, start: nat, mine: seq<Asked>) {
    forall k :: 0 <= k < |mine| && start + k < |choices| ==> Accepts(mine[k].frame, choices[start + k])
  }

  lemma UnalteredMore(choices: seq<Choice>, start: nat, mine: seq<Asked>, more: seq<Asked>)
    ensures Unaltered(choices, start, mine + more) <==> Unaltered(choices, start, mine) && Unaltered(choices, start + |mine|, more)
    ensures Accepted(choices, start, mine + more) <==> Accepted(choices, start, mine) && Accepted(choices, start + |mine|, more)
  {
    var all := mine + more;
    if Unaltered(choices, start, all) {
      forall k | 0 <= k < |more| && start + |mine| + k < |choices|
        ensures choices[start + |mine| + k].dice == more[k].dice
      {
        assert all[|mine| + k] == more[k];
      }
      forall k | 0 <= k < |mine| && start + k < |choices| ensures choices[start + k].dice == mine[k].dice {
        assert all[k] == mine[k];
      }
    }
    if Accepted(choices, start, all) {
      forall k | 0 <= k < |more| && start + |mine| + k < |choices|
        ensures Accepts(more[k].frame, choices[start + |mine| + k])
      {
        assert all[|mine| + k] == more[k];
      }
      forall k | 0 <= k < |mine| && start + k < |choices| ensures Accepts(mine[k].frame, choices[start + k]) {
        assert all[k] == mine[k];
      }
    }
  }

  lemma UnalteredLast(choices: seq<Choice>, start: nat, mine: seq<Asked>, a: Asked)
    ensures Unaltered(choices, start, mine + [a]) <==>
      Unaltered(choices, start, mine) && (start + |mine| < |choices| ==> choices[start + |mine|].dice == a.dice)
    ensures Accepted(choices, start, mine + [a]) <==>
      Accepted(choices, start, mine) && (start + |mine| < |choices| ==> Accepts(a.frame, choices[start + |mine|]))
  {
    UnalteredMore(choices, start, mine, [a]);
    assert [a][0] == a;
  }

  class Table {
    const intn: Rng -> (Rng, nat)
    const choices: seq<Choice>
    var next: nat
    var dice: Dice
    var rng: Rng
    ghost var asked: seq<Asked>

    constructor (intn: Rng -> (Rng, nat), choices: seq<Choice>, dice: Dice, rng: Rng)
      requires forall r :: intn(r).1 < COLORS
      requires NonNegative(dice) && forall i :: 0 <= i < |choices| ==> NonNegative(choices[i].dice)
      ensures Valid() && this.choices == choices && this.dice == dice && this.rng == rng && next == 0 && asked == []
    {
      this.intn, this.choices, this.dice, this.rng, next, asked := intn, choices, dice, rng, 0, [];
    }

    ghost predicate Valid()
      reads this
    {
      && next == |asked| <= |choices| && NonNegative(dice)
      && (forall r :: intn(r).1 < COLORS) && (forall i :: 0 <= i < |choices| ==> NonNegative(choices[i].dice))
    }

    /** Dice and generator are those of the last installed choice. */
    ghost predicate Installed()
      reads this
    {
      0 < next <= |choices| && dice == choices[next - 1].dice && rng == choices[next - 1].rng
    }

    /** requestDiceInput: on success the recorded state is installed, otherwise nothing changes. */
    method RequestDiceInput(frame: Selection) returns (outcome: Outcome, count: int)
      requires Valid()
      modifies this
      ensures asked == old(asked) + [Asked(frame, old(dice), old(rng))]
      ensures outcome == (if old(next) == |choices| then Suspended else if Accepts(frame, choices[old(next)]) then Done else Failed)
      ensures outcome == Done ==> Valid() && Installed() && next == old(next) + 1 && count == choices[old(next)].count
      ensures outcome == Done ==> 0 <= count <= MaxCount(frame)
      ensures outcome != Done ==> dice == old(dice) && rng == old(rng)
      ensures outcome == Suspended ==> next == old(next)
    {
      count := 0;
      asked := asked + [Asked(frame, dice, rng)];
      if next == |choices| { return Suspended, count; }
      var c := choices[next];
      next := next + 1;
      if !Accepts(frame, c) { return Failed, count; }
      dice, rng := c.dice, c.rng;
      return Done, c.count;
    }

    /** Puts n random dice into the pool. */
    method Refill(n: nat)
      requires Valid()
      modifies this`dice, this`rng
      ensures Valid() && (dice, rng) == Toss(intn, old(dice), old(rng), n)
      ensures Sum(dice, COLORS) == Sum(old(dice), COLORS) + n && forall c :: 0 <= c < COLORS ==> dice[c] >= old(dice)[c]
    {
      for i := 0 to n
        invariant Valid() && Sum(dice, COLORS) == Sum(old(dice), COLORS) + i
        invariant forall c :: 0 <= c < COLORS ==> dice[c] >= old(dice)[c]
        invariant Toss(intn, dice, rng, n - i) == Toss(intn, old(dice), old(rng), n)
      {
        var (rng', color) := intn(rng);
        SumUpdate(dice, color, dice[color] + 1, COLORS);
        rng, dice := rng', dice[color := dice[color] + 1];
      }
    }

    /** The confirmed roll: the selected dice leave, as many random ones come back. */
    method Throw(selected: Dice) returns (outcome: Outcome)
      requires Valid() && NonNegative(selected)
      modifies this`dice, this`rng
      ensures outcome == if Within(selected, old(dice)) then Done else Failed
      ensures outcome == Done ==> Valid() && Sum(dice, COLORS) == Sum(old(dice), COLORS)
      ensures outcome == Done ==> forall c :: 0 <= c < COLORS ==> dice[c] >= old(dice)[c] - selected[c]
      ensures outcome == Done ==>
        Sum(selected, COLORS) >= 0 && (dice, rng) == Toss(intn, Minus(old(dice), selected), old(rng), Sum(selected, COLORS))
      ensures outcome == Done ==> exists gens :: Drawn(intn, Minus(old(dice), selected), old(rng), Sum(selected, COLORS), dice, rng, gens)
    {
      hide Toss, Drawn;
      var total := 0;
      ghost var before := dice;
      for c := 0 to COLORS
        invariant Valid() && total == Sum(selected, c) && rng == old(rng)
        invariant forall i :: 0 <= i < c ==> selected[i] <= before[i] && dice[i] == before[i] - selected[i]
        invariant forall i :: c <= i < COLORS ==> dice[i] == before[i]
      {
        var n := selected[c];
        if n > dice[c] { return Failed; }
        dice := dice[c := dice[c] - n];
        total := total + n;
      }
      assert dice == Minus(before, selected);
      SumMinus(before, selected, COLORS);
      SumZero(ZERO, COLORS);
      SumMonotone(ZERO, selected, COLORS);
      hide Sum;
      ghost var gens := TossDraws(intn, dice, rng, total);
      Refill(total);
      return Done;
    }

    /** Between requests of a roll that started at cursor `start` in state (dice0, rng0): dice and
        generator are the start's, or those of the last installed choice. */
    ghost predicate At(start: nat, dice0: Dice, rng0: Rng, mine: seq<Asked>)
      reads this
    {
      && Valid() && next == start + |mine| && Follows(choices, mine, start, dice0, rng0)
      && (if mine == [] then dice == dice0 && rng == rng0 else Installed())
      && (Unaltered(choices, start, mine) ==> dice == dice0)
    }

    /** Where a roll that started at cursor `start` stopped short: it waits with every choice consumed and
        the state untouched since the last one, or the last answer was not for this request. */
    ghost predicate Halted(outcome: Outcome, start: nat, mine: seq<Asked>)
      reads this
    {
      && mine != []
      && (outcome == Suspended ==>
            start + |mine| == |choices| + 1 && dice == mine[|mine| - 1].dice && rng == mine[|mine| - 1].rng)
      && (outcome == Failed ==> start + |mine| <= |choices| && !Accepted(choices, start, mine))
    }

    /** A request of such a roll. */
    method Ask(frame: Selection, ghost start: nat, ghost dice0: Dice, ghost rng0: Rng, ghost mine: seq<Asked>)
      returns (outcome: Outcome, count: int, ghost mine': seq<Asked>)
      requires At(start, dice0, rng0, mine)
      modifies this
      ensures mine' == mine + [Asked(frame, old(dice), old(rng))] && asked == old(asked) + [mine'[|mine|]]
      ensures Follows(choices, mine', start, dice0, rng0)
      ensures outcome == Done ==> At(start, dice0, rng0, mine') && Installed() && 0 <= count <= MaxCount(frame)
      ensures outcome == Done ==> start + |mine| < |choices| && count == choices[start + |mine|].count
      ensures outcome != Done ==> Halted(outcome, start, mine')
    {
      ghost var request := Asked(frame, dice, rng);
      outcome, count := RequestDiceInput(frame);
      mine' := mine + [request];
      FollowsMore(choices, mine, request, start, dice0, rng0);
      UnalteredLast(choices, start, mine, request);
    }

    /** The per-colour requests of one roll: no dice and no random state change except by installing
        the state a choice was recorded in. */
    method AskColors(player: nat, remaining: nat) returns (outcome: Outcome, selected: Dice, ghost mine: seq<Asked>)
      requires Valid()
      modifies this
      ensures asked == old(asked) + mine && Follows(choices, mine, old(next), old(dice), old(rng))
      ensures outcome == Done ==> At(old(next), old(dice), old(rng), mine)
      ensures outcome == Done ==> AsksColors(mine, player, remaining, old(dice), COLORS) && Within(selected, old(dice))
      ensures outcome == Done ==> Selects(choices, old(next), old(dice), selected, COLORS)
      ensures outcome != Done ==> Halted(outcome, old(next), mine) && PartOfRoll(mine, player, remaining, old(dice))
    {
      hide At, Follows, SoFar, AsksColors, Halted, PartOfRoll, Valid, Selects, Within;
      var pool := dice;
      selected, mine := ZERO, [];
      ghost var start := next;
      AskStart(player, remaining);
      var color := 0;
      while color < COLORS
        invariant color <= COLORS && asked == old(asked) + mine && At(start, old(dice), old(rng), mine)
        invariant SoFar(choices, start, mine, player, remaining, pool, selected, color)
      {
        if pool[color] == 0 {
          SoFarSkip(choices, start, mine, player, remaining, pool, selected, color);
        } else {
          var count: int;
          ghost var before := mine;
          var frame := Selection(player, remaining, color, pool, selected);
          outcome, count, mine := Ask(frame, start, old(dice), old(rng), mine);
          Assoc(old(asked), before, [mine[|before|]]);
          if outcome != Done {
            SoFarStops(choices, start, before, player, remaining, pool, selected, color, mine[|before|]);
            return;
          }
          SoFarMore(choices, start, before, player, remaining, pool, selected, color, mine[|before|], count);
          selected := selected[color := count];
        }
        color := color + 1;
      }
      outcome := Done;
      AllAsked(start, old(dice), old(rng), mine, player, remaining, selected);
    }

    lemma AskStart(player: nat, remaining: nat)
      requires Valid()
      ensures At(next, dice, rng, []) && SoFar(choices, next, [], player, remaining, dice, ZERO, 0)
    {
      AsksNone(player, remaining, dice, 0);
      FollowsNone(choices, next, dice, rng);
      SelectsNone(choices, next, dice);
    }

    lemma AllAsked(start: nat, dice0: Dice, rng0: Rng, mine: seq<Asked>, player: nat, remaining: nat, selected: Dice)
      requires At(start, dice0, rng0, mine) && SoFar(choices, start, mine, player, remaining, dice0, selected, COLORS)
      ensures Follows(choices, mine, start, dice0, rng0)
      ensures AsksColors(mine, player, remaining, dice0, COLORS) && Within(selected, dice0) && Selects(choices, start, dice0, selected, COLORS)
    {
    }

    /** The state a complete roll has led to. */
    ghost predicate Rolled(r: RollLog, player: nat, remaining: nat)
      reads this
    {
      && Valid() && next == r.from + |r.asked| && WholeRoll(choices, r, player, remaining) && r.asked != []
      && (dice, rng) == AfterRoll(intn, choices, r)
      && Sum(dice, COLORS) == Sum(choices[next - 1].dice, COLORS)
    }

    /** Where a roll stopped short: waiting with every choice consumed in the state of its last request, or
        failed on an answer that is not for that request or on a selection the dice no longer hold. */
    ghost predicate Broken(outcome: Outcome, r: RollLog, player: nat, remaining: nat)
      reads this
    {
      && outcome != Done && BegunRoll(choices, r, player, remaining)
      && var last := r.asked[|r.asked| - 1];
         if outcome == Suspended
         then r.from + |r.asked| == |choices| + 1 && dice == last.dice && rng == last.rng
         else
           && r.from + |r.asked| <= |choices|
           && (|| !Accepted(choices, r.from, r.asked)
               || (last.frame.color == COLORS && Within(last.frame.selected, r.dice)
                   && !Within(last.frame.selected, choices[r.from + |r.asked| - 1].dice)))
    }

    /** The confirmation of a roll, and the roll itself. */
    method Confirm(player: nat, remaining: nat, selected: Dice, dice0: Dice, ghost start: nat, ghost rng0: Rng, ghost colors: seq<Asked>)
      returns (outcome: Outcome, ghost mine: seq<Asked>)
      requires At(start, dice0, rng0, colors) && AsksColors(colors, player, remaining, dice0, COLORS)
      requires NonNegative(dice0) && Within(selected, dice0) && Selects(choices, start, dice0, selected, COLORS)
      modifies this
      ensures mine == colors + [Asked(Selection(player, remaining, COLORS, dice0, selected), old(dice), old(rng))]
      ensures asked == old(asked) + [mine[|colors|]] && Follows(choices, mine, start, dice0, rng0)
      ensures outcome == Done ==> Rolled(RollLog(start, dice0, rng0, mine), player, remaining)
      ensures outcome != Done ==> Broken(outcome, RollLog(start, dice0, rng0, mine), player, remaining)
    {
      hide AsksColors, Follows, Unaltered, Accepted, NonEmpty, Sum, Toss, PartOfRoll, Selects;
      var count: int;
      outcome, count, mine := Ask(Selection(player, remaining, COLORS, dice0, selected), start, dice0, rng0, colors);
      AskedUpTo(colors, mine, player, remaining, dice0, COLORS);
      if outcome != Done { return; }
      assert mine[..|colors|] == colors;
      ghost var r := RollLog(start, dice0, rng0, mine);
      assert r.asked[|r.asked| - 1].frame.selected == selected;
      outcome := Throw(selected);
    }

    /** One pass of ChooseReroll's outer loop: one request per non-empty colour and a confirmation; the
        confirmed roll keeps the total of the state it was confirmed in. */
    method Roll(player: nat, remaining: nat) returns (outcome: Outcome, ghost r: RollLog)
      requires Valid()
      modifies this
      ensures r.from == old(next) && r.dice == old(dice) && r.rng == old(rng) && asked == old(asked) + r.asked
      ensures outcome == Done ==> Rolled(r, player, remaining)
      ensures outcome != Done ==> Broken(outcome, r, player, remaining)
    {
      hide Rolled, AsksColors, Follows, Accepted, Unaltered, PartOfRoll;
      var selected: Dice;
      var pool := dice;
      ghost var start, rng0, mine := next, rng, [];
      outcome, selected, mine := AskColors(player, remaining);
      r := RollLog(start, pool, rng0, mine);
      if outcome != Done {
        Short(outcome, r, player, remaining);
        return;
      }
      ghost var colors := mine;
      outcome, mine := Confirm(player, remaining, selected, pool, start, rng0, colors);
      Assoc(old(asked), colors, [mine[|colors|]]);
      r := RollLog(start, pool, rng0, mine);
    }

    /** A roll whose per-colour requests stopped short. */
    lemma Short(outcome: Outcome, r: RollLog, player: nat, remaining: nat)
      requires outcome != Done && Halted(outcome, r.from, r.asked) && PartOfRoll(r.asked, player, remaining, r.dice)
      requires Follows(choices, r.asked, r.from, r.dice, r.rng)
      ensures Broken(outcome, r, player, remaining)
    {
    }

    /** Between rolls. */
    ghost predicate Between(logs: seq<RollLog>, player: nat, times: nat, start: nat, dice0: Dice, rng0: Rng)
      reads this
    {
      Valid() && Chain(intn, choices, logs, player, times, start, dice0, rng0, next, dice, rng)
    }

    /** Where ChooseReroll stopped.  Done: all rolls were asked for and made, each from the state the last
        one left.  Otherwise: all rolls but the last one, which stopped short. */
    ghost predicate Stopped(outcome: Outcome, logs: seq<RollLog>, player: nat, times: nat, start: nat, dice0: Dice, rng0: Rng)
      reads this
    {
      && (forall r :: intn(r).1 < COLORS) && AllNonNegative(logs)
      && if outcome == Done then |logs| == times && Between(logs, player, times, start, dice0, rng0)
         else
           && 0 < |logs| <= times
           && var front, r := logs[..|logs| - 1], logs[|logs| - 1];
              && Chain(intn, choices, front, player, times, start, dice0, rng0, r.from, r.dice, r.rng)
              && Broken(outcome, r, player, times - |front|)
    }

    /** ChooseReroll fails at once on a player out of range, without a positive number of rolls, or outside
        a managed operation; otherwise it makes `times` rolls, each with its own requests. */
    method ChooseReroll(player: int, times: int, managed: bool) returns (outcome: Outcome, ghost logs: seq<RollLog>)
      requires Valid()
      modifies this
      ensures asked == old(asked) + Flat(logs)
      ensures if 0 <= player <= 1 && times > 0 && managed
              then Stopped(outcome, logs, player, times, old(next), old(dice), old(rng)) && logs != []
              else outcome == Failed && logs == [] && dice == old(dice) && rng == old(rng) && next == old(next)
    {
      if player < 0 || player > 1 || times <= 0 || !managed { return Failed, []; }
      outcome, logs := RollTimes(player, times);
    }

    /** The rolls one after the other. */
    method RollTimes(player: nat, times: nat) returns (outcome: Outcome, ghost logs: seq<RollLog>)
      requires Valid()
      modifies this
      ensures asked == old(asked) + Flat(logs) && (times > 0 ==> logs != [])
      ensures Stopped(outcome, logs, player, times, old(next), old(dice), old(rng))
    {
      hide Stopped, Rolled, Broken, Chain, NonNegative;
      logs := [];
      var remaining := times;
      ChainStart(intn, choices, player, times, next, dice, rng);
      while remaining > 0
        invariant 0 <= remaining && times == remaining + |logs| && Between(logs, player, times, old(next), old(dice), old(rng))
        invariant asked == old(asked) + Flat(logs) && AllNonNegative(logs)
      {
        ghost var r;
        outcome, r := Roll(player, remaining);
        FlatMore(logs, r);
        Assoc(old(asked), Flat(logs), r.asked);
        OneMore(outcome, logs, r, player, times, old(next), old(dice), old(rng));
        logs := logs + [r];
        if outcome != Done { return; }
        remaining := remaining - 1;
      }
      outcome := Done;
      Finish(logs, player, times, old(next), old(dice), old(rng));
    }

    lemma OneMore(outcome: Outcome, logs: seq<RollLog>, r: RollLog, player: nat, times: nat, start: nat, dice0: Dice, rng0: Rng)
      requires (forall g :: intn(g).1 < COLORS) && |logs| < times && AllNonNegative(logs) && NonNegative(r.dice)
      requires Chain(intn, choices, logs, player, times, start, dice0, rng0, r.from, r.dice, r.rng)
      requires if outcome == Done then Rolled(r, player, times - |logs|) else Broken(outcome, r, player, times - |logs|)
      ensures if outcome == Done then Between(logs + [r], player, times, start, dice0, rng0)
              else Stopped(outcome, logs + [r], player, times, start, dice0, rng0)
      ensures AllNonNegative(logs + [r])
    {
      hide Chain, WholeRoll, AfterRoll, BegunRoll, Accepted, NonNegative;
      var more := logs + [r];
      assert more[..|more| - 1] == logs;
      if outcome == Done { ChainMore(intn, choices, logs, player, times, start, dice0, rng0, r, next, dice, rng); }
    }

    lemma Finish(logs: seq<RollLog>, player: nat, times: nat, start: nat, dice0: Dice, rng0: Rng)
      requires Between(logs, player, times, start, dice0, rng0) && |logs| == times && AllNonNegative(logs)
      ensures Stopped(Done, logs, player, times, start, dice0, rng0)
    {
    }

    /** When nothing changed the dice while waiting and every answer fits its request, the operation cannot
        fail, and a finished one has as many dice as it began with. */
    lemma UnalteredIsHarmless(outcome: Outcome, logs: seq<RollLog>, player: nat, times: nat, start: nat, dice0: Dice, rng0: Rng)
      requires Stopped(outcome, logs, player, times, start, dice0, rng0) && AllUnaltered(choices, logs)
      requires forall i :: 0 <= i < |logs| ==> Accepted(choices, logs[i].from, logs[i].asked)
      ensures outcome != Failed && (outcome == Done ==> Sum(dice, COLORS) == Sum(dice0, COLORS))
    {
      hide Chain, Accepted, Unaltered, PartOfRoll, NonNegative, Sum;
      if outcome == Done {
        ChainKeepsTotal(intn, choices, logs, player, times, start, dice0, rng0, next, dice, rng);
      } else {
        var r := logs[|logs| - 1];
        LastUnaltered(choices, r, player, times - (|logs| - 1));
        hide Follows;
      }
    }
  }

  lemma LastUnaltered(choices: seq<Choice>, r: RollLog, player: nat, remaining: nat)
    requires BegunRoll(choices, r, player, remaining) && Unaltered(choices, r.from, r.asked)
    ensures r.asked != [] && (r.from + |r.asked| <= |choices| ==> choices[r.from + |r.asked| - 1].dice == r.dice)
  {
    hide AsksColors, NonNegative, Follows, UpTo;
    if r.from + |r.asked| <= |choices| { UnalteredStays(choices, r, |r.asked| - 1); }
  }

  lemma ChainStart(intn: Rng -> (Rng, nat), choices: seq<Choice>, player: nat, times: nat, start: nat, dice0: Dice, rng0: Rng)
    requires forall r :: intn(r).1 < COLORS
    ensures Chain(intn, choices, [], player, times, start, dice0, rng0, start, dice0, rng0)
  {
  }

  lemma FollowsNone(choices: seq<Choice>, start: nat, dice: Dice, rng: Rng)
    requires start <= |choices|
    ensures Follows(choices, [], start, dice, rng) && Unaltered(choices, start, []) && Accepted(choices, start, [])
  {
  }

  lemma {:induction false} SumUpdate(d: Dice, c: nat, v: int, n: nat)
    requires c < n <= COLORS
    ensures Sum(d[c := v], n) == Sum(d, n) - d[c] + v
  {
    if n == c + 1 { SumSame(d, d[c := v], c); } else { SumUpdate(d, c, v, n - 1); }
  }
}
