/** The greedy player of gicg_actor/dmc/greedy_player.go: depth-limited minimax that steps the live game
    and puts it back from pooled snapshots (gicg_engine/game_snap.go).  Asking the game for its legal
    actions between two rounds starts the next round (gicg_engine/action.go:74-77). */
module Minimax {
  import opened DiceVectors
  import opened ActionFold
  import opened GameStore

  /** `legal` and `values` describe the actions and dice of the player to act; `rerolling` means a dice
      choice is pending, `reroll` answers it, and `left` bounds how many such choices can follow; `paused`
      means the pause between two rounds, which `advance` ends. */
  datatype Rules = Rules(
    legal: State -> seq<LegalAction>, values: State -> Dice, over: State -> bool, acting: State -> int,
    step: (State, nat) -> State, rerolling: State -> bool, reroll: State -> nat, left: State -> nat,
    paused: State -> bool, advance: State -> State, score: State -> real)
  {
    /** A card asks for finitely many dice choices. */
    ghost predicate Terminating() {
      forall s :: rerolling(s) ==> left(step(s, reroll(s))) < left(s)
    }

    /** The pause is a phase of its own, and starting the round ends it. */
    ghost predicate Phases() {
      forall s :: paused(s) ==> !over(s) && !rerolling(s) && !paused(advance(s))
    }

    ghost predicate Lawful() { Terminating() && Phases() }
  }

  datatype Option<T> = None | Some(value: T)

  // ---- Asking for the legal actions ----

  /** The state GetLegalActions leaves behind. */
  function Opened(r: Rules, s: State): State { if r.paused(s) then r.advance(s) else s }

  /** What it lists.  A round start that stops for a dice choice leaves nothing to list in the same call. */
  function Listed(r: Rules, s: State): seq<LegalAction> {
    var t := Opened(r, s);
    if r.over(t) || (r.paused(s) && r.rerolling(t)) then [] else r.legal(t)
  }

  function Moves(r: Rules, s: State): seq<nat> { Folded(Listed(r, s), r.values(Opened(r, s)), |Listed(r, s)|) }

  // ---- What the search computes ----

  function Settle(r: Rules, s: State): (t: State)
    requires r.Terminating()
    ensures !r.rerolling(t)
    decreases r.left(s)
  {
    if r.rerolling(s) then Settle(r, r.step(s, r.reroll(s))) else s
  }

  /** Who chooses at s: the player to act once the round has started; read `early`, as the code does, the
      player before. */
  function Mover(r: Rules, s: State, early: bool): int { r.acting(if early then s else Opened(r, s)) }

  /** The minimax value over the folded actions, for either reading of who chooses. */
  ghost function Value(r: Rules, s: State, me: int, depth: nat, early: bool): real
    requires r.Terminating()
    decreases depth, 1, 0
  {
    var t := Settle(r, s);
    if r.over(t) || depth == 0 then r.score(t)
    else if Moves(r, t) == [] then r.score(Opened(r, t))
    else Best(r, t, me, depth, |Moves(r, t)|, early)
  }

  /** The best of the first n moves: highest for `me`, lowest for the opponent. */
  ghost function Best(r: Rules, t: State, me: int, depth: nat, n: nat, early: bool): real
    requires r.Terminating() && depth > 0 && 0 < n <= |Moves(r, t)|
    decreases depth, 0, n
  {
    var last := Value(r, r.step(Opened(r, t), Moves(r, t)[n - 1]), me, depth - 1, early);
    if n == 1 then last else
      var before := Best(r, t, me, depth, n - 1, early);
      if Mover(r, t, early) == me then (if last > before then last else before) else (if last < before then last else before)
  }

  /** How many candidates the whole tree steps. */
  ghost function Expansions(r: Rules, s: State, depth: nat): nat
    requires r.Terminating()
    decreases depth, 1, 0
  {
    var t := Settle(r, s);
    if r.over(t) || depth == 0 then 0 else Steps(r, t, depth, |Moves(r, t)|)
  }

  ghost function Steps(r: Rules, t: State, depth: nat, n: nat): nat
    requires r.Terminating() && depth > 0 && n <= |Moves(r, t)|
    decreases depth, 0, n
  {
    if n == 0 then 0 else Steps(r, t, depth, n - 1) + 1 + Expansions(r, r.step(Opened(r, t), Moves(r, t)[n - 1]), depth - 1)
  }

  /** How large a budget the tree needs: enough for its steps, and one left over wherever a round start
      leaves nothing to step, as the round is only started within the budget. */
  ghost function Need(r: Rules, s: State, depth: nat): nat
    requires r.Terminating()
    decreases depth, 1, 0
  {
    var t := Settle(r, s);
    if r.over(t) || depth == 0 then 0
    else if Moves(r, t) == [] then (if r.paused(t) then 1 else 0)
    else Needs(r, t, depth, |Moves(r, t)|)
  }

  ghost function Needs(r: Rules, t: State, depth: nat, n: nat): nat
    requires r.Terminating() && depth > 0 && n <= |Moves(r, t)|
    decreases depth, 0, n
  {
    if n == 0 then 0 else
      var last := Steps(r, t, depth, n - 1) + 1 + Need(r, r.step(Opened(r, t), Moves(r, t)[n - 1]), depth - 1);
      if last > Needs(r, t, depth, n - 1) then last else Needs(r, t, depth, n - 1)
  }

  /** No budget, or one that covers `need` expansions. */
  predicate Covers(budget: Option<int>, need: nat) { budget.Some? ==> budget.value >= need }

  function Spend(budget: Option<int>, spent: nat): Option<int> { if budget.Some? then Some(budget.value - spent) else None }

  /** The state a look-ahead leaves behind: its own, unless it was entered in the pause with depth and
      budget left; then the next round has started. */
  function Left(r: Rules, s: State, depth: nat, budget: Option<int>): State {
    if depth > 0 && (budget.Some? ==> budget.value > 0) then Opened(r, s) else s
  }

  // ---- The code ----

  class Player {
    const rules: Rules
    const game: Store
    var budget: Option<int>
    var free: seq<Store>   // the snapshot pool
    ghost var footprint: set<object>   // everything a search may write: the game, the pool, their buffers

    constructor (rules: Rules, s: State, budget: Option<int>)
      requires rules.Lawful()
      ensures Valid() && this.rules == rules && Now() == s && this.budget == budget && free == [] && fresh(footprint)
    {
      this.rules, this.budget, free := rules, budget, [];
      game := new Store(s);
      new;
      footprint := game.Repr();
    }

    /** The game and the pooled snapshots share no buffer. */
    ghost predicate Valid()
      reads this, footprint
    {
      && rules.Lawful() && this !in footprint
      && game in footprint && game.Repr() <= footprint && game.Valid()
      && (forall s :: s in free ==> s in footprint && s.Repr() <= footprint && s.Repr() !! game.Repr() && s.Valid())
      && forall i, j :: 0 <= i < j < |free| ==> free[i].Repr() !! free[j].Repr()
    }

    function Now(): State
      reads this, footprint
      requires Valid()
    {
      game.Value()
    }

    /** A snapshot that is not in the pool. */
    ghost predicate Held(s: Store)
      reads this, s
    {
      s.Valid() && s.Repr() !! footprint && this !in s.Repr()
    }

    /** SnapshotPooled: a snapshot that nobody else holds. */
    method SnapshotPooled() returns (s: Store)
      requires Valid()
      modifies this`free, this`footprint, footprint - game.Repr()
      ensures Valid() && Held(s) && s.Value() == Now() == old(Now()) && footprint <= old(footprint)
      ensures forall o :: o in s.Repr() ==> o in old(footprint) || fresh(o)
    {
      if free == [] {
        s := new Store(game.Value());
      } else {
        s := free[0];
        assert forall i :: 1 <= i < |free| ==> free[i] in free && free[i].Repr() !! s.Repr();
        free := free[1..];
        footprint := footprint - s.Repr();
        s.Assign(game);
      }
    }

    method RestoreFromSnap(s: Store)
      requires Valid() && Held(s)
      modifies this`footprint, footprint
      ensures Valid() && Held(s) && Now() == old(s.Value()) && s.Value() == old(s.Value()) && fresh(footprint - old(footprint))
    {
      ghost var before := game.Repr();
      game.Assign(s);
      footprint := footprint + game.Repr();
    }

    method ReleaseSnap(s: Store)
      requires Valid() && Held(s)
      modifies this`free, this`footprint
      ensures Valid() && free == [s] + old(free) && Now() == old(Now()) && footprint == old(footprint) + s.Repr()
    {
      free := [s] + free;
      footprint := footprint + s.Repr();
    }

    /** The deferred end of every look-ahead: restore, then release. */
    method PutBack(s: Store)
      requires Valid() && Held(s)
      modifies this`free, this`footprint, footprint
      ensures Valid() && Now() == old(s.Value()) && forall o :: o in footprint ==> o in old(footprint) || o in old(s.Repr()) || fresh(o)
    {
      RestoreFromSnap(s);
      ReleaseSnap(s);
    }

    /** The rules change the game. */
    method Play(s: State)
      requires Valid()
      modifies this`footprint, footprint
      ensures Valid() && Now() == s && fresh(footprint - old(footprint))
    {
      game.Become(s);
      footprint := footprint + game.Repr();
    }

    /** Answers every pending dice choice. */
    method AnswerRerolls()
      requires Valid()
      modifies this`footprint, footprint
      ensures Valid() && Now() == Settle(rules, old(Now()))
      ensures fresh(footprint - old(footprint))
    {
      while rules.rerolling(Now())
        invariant Valid() && Settle(rules, Now()) == Settle(rules, old(Now()))
        invariant fresh(footprint - old(footprint))
        decreases rules.left(Now())
      {
        var s := Now();
        Play(rules.step(s, rules.reroll(s)));
      }
    }

    /** GetLegalActions: it starts the next round if the last one is over. */
    method GetLegalActions() returns (actions: seq<LegalAction>)
      requires Valid()
      modifies this`footprint, footprint
      ensures Valid() && Now() == Opened(rules, old(Now())) && actions == Listed(rules, old(Now()))
      ensures ListedLaw(rules, old(Now()), actions, Now())
      ensures fresh(footprint - old(footprint))
    {
      var s := Now();
      if rules.over(s) { return []; }
      if rules.rerolling(s) { return rules.legal(s); }
      if rules.paused(s) {
        Play(rules.advance(s));
        if rules.over(Now()) || rules.rerolling(Now()) { return []; }
      }
      actions := rules.legal(Now());
    }

    /** filterLogicalActions on the live game. */
    method Candidates() returns (candidates: seq<nat>)
      requires Valid()
      modifies this`footprint, footprint
      ensures Valid() && Now() == Opened(rules, old(Now())) && candidates == Moves(rules, old(Now()))
      ensures candidates != [] <==> Listed(rules, old(Now())) != []
      ensures fresh(footprint - old(footprint))
    {
      hide IsFold;
      ghost var here := Now();
      var actions := GetLegalActions();
      candidates := FilterLogicalActions(actions, rules.values(Now()));
      FoldIs(actions, rules.values(Now()), candidates);
      MovesAre(rules, here);
    }

    /** scoreBestResponse.  The score is the minimax value for the mover that is read before the round
        starts, unless the budget runs out; and the game is put back up to the start of a round. */
    method ScoreBestResponse(me: int, depth: nat) returns (score: real)
      requires Valid()
      modifies this`free, this`budget, this`footprint, footprint
      ensures Valid() && Now() == Left(rules, old(Now()), depth, old(budget))
      ensures Now() == if rules.paused(old(Now())) && depth > 0 && (old(budget).Some? ==> old(budget).value > 0) then rules.advance(old(Now())) else old(Now())
      ensures fresh(footprint - old(footprint))
      ensures Covers(old(budget), Need(rules, old(Now()), depth)) ==>
        && score == Value(rules, old(Now()), me, depth, true)
        && budget == Spend(old(budget), Expansions(rules, old(Now()), depth))
      decreases depth, if rules.rerolling(Now()) then 5 else 3
    {
      hide Value, Expansions, Best, Steps, Need, Needs, Covers, Moves, IsFold, Spend;
      var here := Now();
      if rules.rerolling(here) {
        score := ScoreAnswered(me, depth);
        return;
      }
      LeafValue(rules, here, me, depth, budget);
      if rules.over(here) || depth <= 0 || (budget.Some? && budget.value <= 0) {
        return rules.score(here);
      }
      var acting := rules.acting(here);
      var candidates := Candidates();
      if candidates == [] { return rules.score(Now()); }
      score := BestOfCandidates(me, depth, candidates, acting, here);
    }

    /** A card's pending dice choices are answered first, beside a snapshot; they cost no depth. */
    method ScoreAnswered(me: int, depth: nat) returns (score: real)
      requires Valid()
      modifies this`free, this`budget, this`footprint, footprint
      ensures Valid() && Now() == old(Now())
      ensures fresh(footprint - old(footprint))
      ensures Covers(old(budget), Need(rules, old(Now()), depth)) ==>
        && score == Value(rules, old(Now()), me, depth, true)
        && budget == Spend(old(budget), Expansions(rules, old(Now()), depth))
      decreases depth, 4
    {
      hide Value, Expansions, Need, Covers, Spend, Left, Store.Value, Store.Valid;
      ghost var here := Now();
      var snap := SnapshotPooled();
      AnswerRerolls();
      SettledSame(rules, Now(), here, me, depth);
      score := ScoreBestResponse(me, depth);
      PutBack(snap);
    }

    /** The loop over the candidates, at `here` before the round was started. */
    method BestOfCandidates(me: int, depth: nat, candidates: seq<nat>, acting: int, ghost here: State) returns (best: real)
      requires Valid() && depth > 0 && candidates != [] && candidates == Moves(rules, here)
      requires Now() == Opened(rules, here) && acting == Mover(rules, here, true)
      modifies this`free, this`budget, this`footprint, footprint
      ensures Valid() && Now() == old(Now())
      ensures fresh(footprint - old(footprint))
      ensures Covers(old(budget), Needs(rules, here, depth, |candidates|)) ==>
        && best == Best(rules, here, me, depth, |candidates|, true)
        && budget == Spend(old(budget), Steps(rules, here, depth, |candidates|))
      decreases depth, 2
    {
      hide Value, Expansions, Best, Steps, Need, Needs, Covers, Moves, Spend, Opened, Mover, After;
      StepsStart(rules, here, depth, budget);
      best := 0.0;
      for k := 0 to |candidates|
        invariant Valid() && Now() == Opened(rules, here) && fresh(footprint - old(footprint))
        invariant Covers(old(budget), Needs(rules, here, depth, k)) ==>
          budget == Spend(old(budget), Steps(rules, here, depth, k)) && (k > 0 ==> best == Best(rules, here, me, depth, k, true))
      {
        OneMore(rules, here, me, depth, k, old(budget));
        var sub := TryCandidate(me, depth, candidates[k]);
        if k == 0 { best := sub; }
        else if acting == me { if sub > best { best := sub; } }
        else { if sub < best { best := sub; } }
      }
    }

    /** One candidate: snapshot, step, score, restore. */
    method TryCandidate(me: int, depth: nat, move: nat) returns (sub: real)
      requires Valid() && depth > 0
      modifies this`free, this`budget, this`footprint, footprint
      ensures Valid() && Now() == old(Now())
      ensures fresh(footprint - old(footprint))
      ensures Tried(rules, old(Now()), me, depth, move, old(budget), budget, sub)
      decreases depth, 1
    {
      hide Value, Expansions, Need, Covers, Spend, Settle, Tried, Store.Value, Store.Valid;
      var next := rules.step(Now(), move);
      if budget.Some? { budget := Some(budget.value - 1); }
      var snap := SnapshotPooled();
      sub := Explore(me, depth - 1, next, snap);
      TriedIs(rules, old(Now()), me, depth, move, old(budget), budget, sub);
      PutBack(snap);
    }

    /** Plays on to `next` and scores it, beside a snapshot. */
    method Explore(me: int, depth: nat, next: State, ghost snap: Store) returns (sub: real)
      requires Valid() && Held(snap)
      modifies this`free, this`budget, this`footprint, footprint
      ensures Valid() && Held(snap) && snap.Value() == old(snap.Value())
      ensures fresh(footprint - old(footprint))
      ensures Covers(old(budget), Need(rules, next, depth)) ==>
        sub == Value(rules, next, me, depth, true) && budget == Spend(old(budget), Expansions(rules, next, depth))
      decreases depth, 6
    {
      hide Value, Expansions, Need, Covers, Spend, Left, Settle;
      Play(next);
      sub := ScoreBestResponse(me, depth);
    }

    /** The loop of SelectAction: the candidates of highest score, tried after the round was started. */
    method HighestMoves(me: int, depth: nat, candidates: seq<nat>, ghost here: State) returns (best: real, bestSet: seq<nat>)
      requires Valid() && depth > 0 && candidates != [] && candidates == Moves(rules, here) && Now() == Opened(rules, here)
      modifies this`free, this`budget, this`footprint, footprint
      ensures Valid() && Now() == old(Now()) && fresh(footprint - old(footprint))
      ensures bestSet != [] && forall i :: i in bestSet ==> i in candidates
      ensures Covers(old(budget), Needs(rules, here, depth, |candidates|)) ==>
        Leading(rules, Opened(rules, here), me, depth, candidates, best, bestSet)
    {
      hide Steps, Expansions, Need, Needs, Covers, Moves, After, Spend, Opened, Leading;
      StepsStart(rules, here, depth, budget);
      best, bestSet := 0.0, [];
      for k := 0 to |candidates|
        invariant Valid() && Now() == Opened(rules, here) && fresh(footprint - old(footprint))
        invariant (k > 0 ==> bestSet != []) && forall i :: i in bestSet ==> i in candidates
        invariant Covers(old(budget), Needs(rules, here, depth, k)) ==>
          && budget == Spend(old(budget), Steps(rules, here, depth, k))
          && (k > 0 ==> Leading(rules, Opened(rules, here), me, depth, candidates[..k], best, bestSet))
      {
        StepsMore(rules, here, depth, k, old(budget));
        var score := TryCandidate(me, depth, candidates[k]);
        LeadingMore(rules, Opened(rules, here), me, depth, candidates, k, best, bestSet);
        if k == 0 || score > best {
          best, bestSet := score, [candidates[k]];
        } else if score == best {
          bestSet := bestSet + [candidates[k]];
        }
      }
      assert candidates[..|candidates|] == candidates;
    }

    /** SelectAction: None is the "no legal actions" error; `pick` stands for the random tie-break.  Asked
        in the pause, it starts the round; otherwise the game is put back.  Within the budget the chosen
        action is one of the best of the fold, for the values the look-ahead computes. */
    method SelectAction(depth: nat, pick: nat) returns (chosen: Option<nat>)
      requires Valid() && depth > 0
      modifies this`free, this`budget, this`footprint, footprint
      ensures Valid() && Now() == Opened(rules, old(Now()))
      ensures Starts(rules, old(Now()), Now())
      ensures var here := old(Now()); rules.rerolling(here) ==> chosen == Some(rules.reroll(here))
      ensures var here := old(Now()); !rules.rerolling(here) ==>
        && (chosen.None? <==> Listed(rules, here) == [])
        && (chosen.Some? ==> chosen.value in Moves(rules, here))
        && (chosen.Some? && Covers(old(budget), Needs(rules, here, depth, |Moves(rules, here)|)) ==>
              && IsBest(rules, here, depth, chosen.value, true)
              && (MovesAligned(rules, here, rules.acting(Now()), depth) ==> IsBest(rules, here, depth, chosen.value, false)))
    {
      hide Starts, Needs, Covers, Moves, Listed, ListedLaw, IsFold, After, Opened, Leading, MovesAligned, IsBest;
      ghost var here := Now();
      OpenedIs(rules, here);
      SameMoves(rules, here);
      if rules.rerolling(Now()) { return Some(rules.reroll(Now())); }
      var actions := GetLegalActions();
      if actions == [] { return None; }
      var me := rules.acting(Now());
      var candidates := Candidates();
      var best, bestSet := HighestMoves(me, depth, candidates, here);
      chosen := Some(bestSet[pick % |bestSet|]);
      LeadingIsBest(rules, here, depth, best, bestSet, chosen.value);
    }
  }

  /** Within the budget, `sub` is what the move at t is worth, and its share of the budget is spent. */
  ghost predicate Tried(r: Rules, t: State, me: int, depth: nat, move: nat, before: Option<int>, after: Option<int>, sub: real)
    requires r.Terminating() && depth > 0
  {
    var next := r.step(t, move);
    Covers(before, 1 + Need(r, next, depth - 1)) ==>
      sub == After(r, t, me, depth, move, true) && after == Spend(before, 1 + Expansions(r, next, depth - 1))
  }

  lemma TriedIs(r: Rules, t: State, me: int, depth: nat, move: nat, before: Option<int>, after: Option<int>, sub: real)
    requires r.Terminating() && depth > 0
    requires var next, left := r.step(t, move), if before.Some? then Some(before.value - 1) else before;
      Covers(left, Need(r, next, depth - 1)) ==>
        sub == Value(r, next, me, depth - 1, true) && after == Spend(left, Expansions(r, next, depth - 1))
    ensures Tried(r, t, me, depth, move, before, after, sub)
  {
    hide Value, Expansions, Need;
  }

  lemma SettledSame(r: Rules, t: State, s: State, me: int, depth: nat)
    requires r.Terminating() && Settle(r, t) == Settle(r, s)
    ensures Value(r, t, me, depth, true) == Value(r, s, me, depth, true)
    ensures Expansions(r, t, depth) == Expansions(r, s, depth) && Need(r, t, depth) == Need(r, s, depth)
  {
    hide Best, Steps, Needs;
  }

  /** What the branches before the loop return, spend and need. */
  lemma LeafValue(r: Rules, s: State, me: int, depth: nat, budget: Option<int>)
    requires r.Terminating() && !r.rerolling(s)
    ensures r.over(s) || depth == 0 ==> Value(r, s, me, depth, true) == r.score(s) && Expansions(r, s, depth) == 0
    ensures !r.over(s) && depth > 0 && Moves(r, s) == [] ==>
      Value(r, s, me, depth, true) == r.score(Opened(r, s)) && Expansions(r, s, depth) == 0
    ensures !r.over(s) && depth > 0 && Moves(r, s) != [] ==>
      && Value(r, s, me, depth, true) == Best(r, s, me, depth, |Moves(r, s)|, true)
      && Expansions(r, s, depth) == Steps(r, s, depth, |Moves(r, s)|) && Need(r, s, depth) == Needs(r, s, depth, |Moves(r, s)|)
    ensures budget.Some? && budget.value <= 0 && Covers(budget, Need(r, s, depth)) ==>
      Value(r, s, me, depth, true) == r.score(s) && Expansions(r, s, depth) == 0
    ensures budget == Spend(budget, 0)
  {
    hide Best, Moves;
    if !r.over(s) && depth > 0 && Moves(r, s) != [] { NeedsSome(r, s, depth, |Moves(r, s)|); }
  }

  lemma NeedsSome(r: Rules, t: State, depth: nat, n: nat)
    requires r.Terminating() && depth > 0 && 0 < n <= |Moves(r, t)|
    ensures Needs(r, t, depth, n) >= 1
  {
    hide Moves, Need, Steps;
  }

  lemma MovesAre(r: Rules, s: State)
    ensures Moves(r, s) == Folded(Listed(r, s), r.values(Opened(r, s)), |Listed(r, s)|)
  {
  }

  /** Asked again, the game lists what it listed before, if that was anything. */
  lemma SameMoves(r: Rules, s: State)
    requires r.Lawful()
    ensures Opened(r, Opened(r, s)) == Opened(r, s) && (r.rerolling(s) ==> Opened(r, s) == s)
    ensures Listed(r, s) != [] ==> Listed(r, Opened(r, s)) == Listed(r, s) && Moves(r, Opened(r, s)) == Moves(r, s)
  {
    hide Folded;
  }

  /** The next round is started iff s is the pause. */
  ghost predicate Starts(r: Rules, s: State, t: State) { t == if r.paused(s) then r.advance(s) else s }

  lemma OpenedIs(r: Rules, s: State)
    ensures Starts(r, s, Opened(r, s))
  {
  }

  lemma StepsStart(r: Rules, t: State, depth: nat, budget: Option<int>)
    requires r.Terminating() && depth > 0
    ensures Steps(r, t, depth, 0) == 0 && budget == Spend(budget, 0)
  {
  }

  lemma StepsMore(r: Rules, t: State, depth: nat, k: nat, budget: Option<int>)
    requires r.Terminating() && depth > 0 && k < |Moves(r, t)|
    ensures var next := r.step(Opened(r, t), Moves(r, t)[k]);
      Covers(budget, Needs(r, t, depth, k + 1)) ==>
        && Covers(budget, Needs(r, t, depth, k)) && Covers(Spend(budget, Steps(r, t, depth, k)), 1 + Need(r, next, depth - 1))
        && Spend(Spend(budget, Steps(r, t, depth, k)), 1 + Expansions(r, next, depth - 1)) == Spend(budget, Steps(r, t, depth, k + 1))
  {
    hide Moves, Expansions, Need, Opened;
  }

  lemma OneMore(r: Rules, t: State, me: int, depth: nat, k: nat, budget: Option<int>)
    requires r.Terminating() && depth > 0 && k < |Moves(r, t)|
    ensures var next := r.step(Opened(r, t), Moves(r, t)[k]);
      Covers(budget, Needs(r, t, depth, k + 1)) ==>
        && Covers(budget, Needs(r, t, depth, k)) && Covers(Spend(budget, Steps(r, t, depth, k)), 1 + Need(r, next, depth - 1))
        && Spend(Spend(budget, Steps(r, t, depth, k)), 1 + Expansions(r, next, depth - 1)) == Spend(budget, Steps(r, t, depth, k + 1))
    ensures BestMore(r, t, me, depth, k, true)
  {
    hide Best, BestMore;
    StepsMore(r, t, depth, k, budget);
    BestMoreHolds(r, t, me, depth, k, true);
  }

  /** How one more move changes the best. */
  ghost predicate BestMore(r: Rules, t: State, me: int, depth: nat, k: nat, early: bool)
    requires r.Terminating() && depth > 0 && k < |Moves(r, t)|
  {
    var last := After(r, Opened(r, t), me, depth, Moves(r, t)[k], early);
    Best(r, t, me, depth, k + 1, early) ==
      if k == 0 then last
      else if Mover(r, t, early) == me
        then (if last > Best(r, t, me, depth, k, early) then last else Best(r, t, me, depth, k, early))
      else (if last < Best(r, t, me, depth, k, early) then last else Best(r, t, me, depth, k, early))
  }

  lemma BestMoreHolds(r: Rules, t: State, me: int, depth: nat, k: nat, early: bool)
    requires r.Terminating() && depth > 0 && k < |Moves(r, t)|
    ensures BestMore(r, t, me, depth, k, early)
  {
    hide Moves, Value, Mover, Opened;
  }

  /** The best score so far and the moves that reach it, from the state t in which they are tried. */
  ghost predicate Leading(r: Rules, t: State, me: int, depth: nat, tried: seq<nat>, best: real, bestSet: seq<nat>)
    requires r.Terminating() && depth > 0
  {
    && (forall m :: m in tried ==> After(r, t, me, depth, m, true) <= best)
    && forall m :: m in bestSet ==> After(r, t, me, depth, m, true) == best
  }

  lemma LeadingMore(r: Rules, t: State, me: int, depth: nat, candidates: seq<nat>, k: nat, best: real, bestSet: seq<nat>)
    requires r.Terminating() && depth > 0 && k < |candidates|
    ensures var score := After(r, t, me, depth, candidates[k], true);
      (k == 0 || Leading(r, t, me, depth, candidates[..k], best, bestSet)) ==>
        if k == 0 || score > best then Leading(r, t, me, depth, candidates[..k + 1], score, [candidates[k]])
        else Leading(r, t, me, depth, candidates[..k + 1], best, if score == best then bestSet + [candidates[k]] else bestSet)
  {
    hide After;
    assert candidates[..k + 1] == candidates[..k] + [candidates[k]];
  }

  /** The value for `me` of a move made at t. */
  ghost function After(r: Rules, t: State, me: int, depth: nat, move: nat, early: bool): real
    requires r.Terminating() && depth > 0
  {
    Value(r, r.step(t, move), me, depth - 1, early)
  }

  /** No folded move at s is worth more to the player to act. */
  ghost predicate IsBest(r: Rules, s: State, depth: nat, move: nat, early: bool)
    requires r.Terminating() && depth > 0
  {
    var t := Opened(r, s);
    && move in Moves(r, s)
    && forall m :: m in Moves(r, s) ==> After(r, t, r.acting(t), depth, m, early) <= After(r, t, r.acting(t), depth, move, early)
  }

  lemma LeadingIsBest(r: Rules, s: State, depth: nat, best: real, bestSet: seq<nat>, move: nat)
    requires r.Terminating() && depth > 0 && move in bestSet && move in Moves(r, s)
    ensures Leading(r, Opened(r, s), r.acting(Opened(r, s)), depth, Moves(r, s), best, bestSet) ==> IsBest(r, s, depth, move, true)
    ensures IsBest(r, s, depth, move, true) && MovesAligned(r, s, r.acting(Opened(r, s)), depth) ==> IsBest(r, s, depth, move, false)
  {
    hide After, Moves, Opened;
    if MovesAligned(r, s, r.acting(Opened(r, s)), depth) { AlignedMoves(r, s, r.acting(Opened(r, s)), depth); }
  }

  // ---- When the score is the minimax value ----

  /** Reading the mover before the round starts takes a player for the opponent.  Only the pause can do
      this, as nothing else is opened. */
  predicate Misread(r: Rules, t: State, me: int) { (r.acting(t) == me) != (r.acting(Opened(r, t)) == me) }

  /** No node of the tree that has moves is misread. */
  ghost predicate Aligned(r: Rules, s: State, me: int, depth: nat)
    requires r.Terminating()
    decreases depth
  {
    var t := Settle(r, s);
    !r.over(t) && depth > 0 && Moves(r, t) != [] ==>
      !Misread(r, t, me) && forall k: nat :: k < |Moves(r, t)| ==> Aligned(r, r.step(Opened(r, t), Moves(r, t)[k]), me, depth - 1)
  }

  ghost predicate MovesAligned(r: Rules, t: State, me: int, depth: nat)
    requires r.Terminating() && depth > 0
  {
    forall k: nat :: k < |Moves(r, t)| ==> Aligned(r, r.step(Opened(r, t), Moves(r, t)[k]), me, depth - 1)
  }

  /** Then the score is the minimax value. */
  lemma {:induction false} AlignedIsMinimax(r: Rules, s: State, me: int, depth: nat)
    requires r.Terminating() && Aligned(r, s, me, depth)
    ensures Value(r, s, me, depth, true) == Value(r, s, me, depth, false)
    decreases depth, 1, 0
  {
    hide Moves, Opened, Best;
    var t := Settle(r, s);
    if !r.over(t) && depth > 0 && Moves(r, t) != [] {
      assert MovesAligned(r, t, me, depth);
      AlignedBest(r, t, me, depth, |Moves(r, t)|);
    }
  }

  lemma {:induction false} AlignedBest(r: Rules, t: State, me: int, depth: nat, n: nat)
    requires r.Terminating() && depth > 0 && 0 < n <= |Moves(r, t)| && MovesAligned(r, t, me, depth) && !Misread(r, t, me)
    ensures Best(r, t, me, depth, n, true) == Best(r, t, me, depth, n, false)
    decreases depth, 0, n
  {
    hide Moves, Opened, Value, Aligned;
    AlignedIsMinimax(r, r.step(Opened(r, t), Moves(r, t)[n - 1]), me, depth - 1);
    if n > 1 { AlignedBest(r, t, me, depth, n - 1); }
  }

  lemma AlignedMoves(r: Rules, t: State, me: int, depth: nat)
    requires r.Terminating() && depth > 0 && MovesAligned(r, t, me, depth)
    ensures forall m :: m in Moves(r, t) ==> After(r, Opened(r, t), me, depth, m, true) == After(r, Opened(r, t), me, depth, m, false)
  {
    hide Moves, Opened, Value, Aligned;
    forall m | m in Moves(r, t) ensures After(r, Opened(r, t), me, depth, m, true) == After(r, Opened(r, t), me, depth, m, false) {
      var k: nat :| k < |Moves(r, t)| && Moves(r, t)[k] == m;
      AlignedIsMinimax(r, r.step(Opened(r, t), m), me, depth - 1);
    }
  }

  /** The value of a position is reached by a move, and no other is better for the one who chooses. */
  lemma {:induction false} BestIsReached(r: Rules, t: State, me: int, depth: nat, n: nat, early: bool)
    requires r.Terminating() && depth > 0 && 0 < n <= |Moves(r, t)|
    ensures forall k :: 0 <= k < n ==> NoBetter(r, t, me, depth, Moves(r, t)[k], Best(r, t, me, depth, n, early), early)
    ensures exists k :: 0 <= k < n && After(r, Opened(r, t), me, depth, Moves(r, t)[k], early) == Best(r, t, me, depth, n, early)
  {
    hide Moves, Opened, Mover, After, Best;
    BestMoreHolds(r, t, me, depth, n - 1, early);
    if n > 1 {
      BestIsReached(r, t, me, depth, n - 1, early);
      var k :| 0 <= k < n - 1 && After(r, Opened(r, t), me, depth, Moves(r, t)[k], early) == Best(r, t, me, depth, n - 1, early);
    } else {
      assert After(r, Opened(r, t), me, depth, Moves(r, t)[0], early) == Best(r, t, me, depth, 1, early);
    }
  }

  /** A move at t is worth no more than `best` to the one who chooses there. */
  ghost predicate NoBetter(r: Rules, t: State, me: int, depth: nat, move: nat, best: real, early: bool)
    requires r.Terminating() && depth > 0
  {
    var sub := After(r, Opened(r, t), me, depth, move, early);
    if Mover(r, t, early) == me then sub <= best else sub >= best
  }

  /** A misread node with true scores below it: the score is the minimax value iff all moves are worth the
      same. */
  lemma MisreadIff(r: Rules, s: State, me: int, depth: nat)
    requires r.Terminating() && depth > 0
    requires var t := Settle(r, s); !r.over(t) && Moves(r, t) != [] && Misread(r, t, me) && MovesAligned(r, t, me, depth)
    ensures var t := Settle(r, s);
      Value(r, s, me, depth, true) == Value(r, s, me, depth, false) <==>
        forall i, j :: 0 <= i < j < |Moves(r, t)| ==> Worth(r, t, me, depth, i) == Worth(r, t, me, depth, j)
  {
    hide Moves, Opened, Best, After, MovesAligned;
    var t := Settle(r, s);
    var n := |Moves(r, t)|;
    var code, true' := Best(r, t, me, depth, n, true), Best(r, t, me, depth, n, false);
    assert Value(r, s, me, depth, true) == code && Value(r, s, me, depth, false) == true';
    AlignedMoves(r, t, me, depth);
    BestIsReached(r, t, me, depth, n, true);
    BestIsReached(r, t, me, depth, n, false);
    assert forall k :: 0 <= k < n ==> Moves(r, t)[k] in Moves(r, t);
    assert forall k :: 0 <= k < n ==> NoBetter(r, t, me, depth, Moves(r, t)[k], code, true) && NoBetter(r, t, me, depth, Moves(r, t)[k], true', false);
    var i :| 0 <= i < n && After(r, Opened(r, t), me, depth, Moves(r, t)[i], true) == code;
    var j :| 0 <= j < n && After(r, Opened(r, t), me, depth, Moves(r, t)[j], false) == true';
    assert Worth(r, t, me, depth, i) == code && Worth(r, t, me, depth, j) == true';
  }

  /** What the k-th move at t is worth to `me`. */
  ghost function Worth(r: Rules, t: State, me: int, depth: nat, k: nat): real
    requires r.Terminating() && depth > 0 && k < |Moves(r, t)|
  {
    After(r, Opened(r, t), me, depth, Moves(r, t)[k], false)
  }

  /** A best move plays the minimax value of the position. */
  lemma BestMovePlaysValue(r: Rules, s: State, depth: nat, move: nat)
    requires r.Terminating() && depth > 0 && !r.rerolling(s) && !r.over(s) && IsBest(r, s, depth, move, false)
    ensures var t := Opened(r, s); After(r, t, r.acting(t), depth, move, false) == Value(r, s, r.acting(t), depth, false)
  {
    hide Moves, Opened, After, Best;
    var t, n := Opened(r, s), |Moves(r, s)|;
    BestIsReached(r, s, r.acting(t), depth, n, false);
    var k :| 0 <= k < n && After(r, t, r.acting(t), depth, Moves(r, s)[k], false) == Best(r, s, r.acting(t), depth, n, false);
    assert Moves(r, s)[k] in Moves(r, s);
    var j :| 0 <= j < n && Moves(r, s)[j] == move;
    assert NoBetter(r, s, r.acting(t), depth, Moves(r, s)[j], Best(r, s, r.acting(t), depth, n, false), false);
  }

  // ---- What the values and budgets are ----

  /** What a call for the legal actions at s finds: the actions of the game, once the pause has been ended. */
  ghost predicate ListedLaw(r: Rules, s: State, actions: seq<LegalAction>, after: State) {
    && (!r.paused(s) ==> after == s && actions == if r.over(s) then [] else r.legal(s))
    && (r.paused(s) ==> after == r.advance(s) && actions == if r.over(after) || r.rerolling(after) then [] else r.legal(after))
  }

  lemma ListedLawHolds(r: Rules, s: State)
    requires r.Phases()
    ensures ListedLaw(r, s, Listed(r, s), Opened(r, s))
  {
  }

  lemma MovesFold(r: Rules, s: State)
    ensures IsFold(Listed(r, s), r.values(Opened(r, s)), Moves(r, s))
  {
    FoldedIs(Listed(r, s), r.values(Opened(r, s)), |Listed(r, s)|);
  }

  /** v is the minimax value at s, `val` the values of what follows one step deeper: a pending dice choice is
      answered; an ended game, an exhausted depth and a position without moves have the score; otherwise v
      is the value of a move of the fold, and of no worse one for the player who chooses. */
  ghost predicate MinimaxLaw(r: Rules, s: State, me: int, depth: nat, early: bool, actions: seq<LegalAction>, after: State, moves: seq<nat>, v: real)
    requires r.Terminating()
  {
    && (r.rerolling(s) ==> v == Value(r, r.step(s, r.reroll(s)), me, depth, early))
    && (!r.rerolling(s) && (depth == 0 || r.over(s)) ==> v == r.score(s))
    && (!r.rerolling(s) && depth > 0 && !r.over(s) ==>
          && ListedLaw(r, s, actions, after) && IsFold(actions, r.values(after), moves)
          && if moves == [] then v == r.score(after)
             else && (exists i: nat :: i in moves && Value(r, r.step(after, i), me, depth - 1, early) == v)
                  && forall i: nat :: i in moves ==>
                       var sub := Value(r, r.step(after, i), me, depth - 1, early);
                       if r.acting(if early then s else after) == me then sub <= v else sub >= v)
  }

  lemma MinimaxLawHolds(r: Rules, s: State, me: int, depth: nat, early: bool)
    requires r.Lawful()
    ensures MinimaxLaw(r, s, me, depth, early, Listed(r, s), Opened(r, s), Moves(r, s), Value(r, s, me, depth, early))
  {
    hide Moves, Listed, Opened, IsFold, ListedLaw, Best;
    ListedLawHolds(r, s);
    MovesFold(r, s);
    if !r.rerolling(s) && depth > 0 && !r.over(s) && Moves(r, s) != [] { ReachedHolds(r, s, me, depth, early); }
  }

  lemma ReachedHolds(r: Rules, s: State, me: int, depth: nat, early: bool)
    requires r.Terminating() && depth > 0 && Moves(r, s) != []
    ensures var v := Best(r, s, me, depth, |Moves(r, s)|, early);
      && (exists i: nat :: i in Moves(r, s) && Value(r, r.step(Opened(r, s), i), me, depth - 1, early) == v)
      && forall i: nat :: i in Moves(r, s) ==>
           var sub := Value(r, r.step(Opened(r, s), i), me, depth - 1, early);
           if r.acting(if early then s else Opened(r, s)) == me then sub <= v else sub >= v
  {
    hide Moves, Opened, Best, Value;
    var moves, n := Moves(r, s), |Moves(r, s)|;
    var v := Best(r, s, me, depth, n, early);
    BestIsReached(r, s, me, depth, n, early);
    var k :| 0 <= k < n && After(r, Opened(r, s), me, depth, moves[k], early) == v;
    assert moves[k] in moves && After(r, Opened(r, s), me, depth, moves[k], early) == Value(r, r.step(Opened(r, s), moves[k]), me, depth - 1, early);
    forall i: nat | i in moves
      ensures var sub := Value(r, r.step(Opened(r, s), i), me, depth - 1, early);
        if r.acting(if early then s else Opened(r, s)) == me then sub <= v else sub >= v
    {
      var k :| 0 <= k < n && moves[k] == i;
      assert NoBetter(r, s, me, depth, moves[k], v, early);
    }
  }

  /** One more than the steps of the tree is always enough. */
  lemma {:induction false} NeedBound(r: Rules, s: State, depth: nat)
    requires r.Terminating()
    ensures Need(r, s, depth) <= Expansions(r, s, depth) + 1
    decreases depth, 1, 0
  {
    hide Moves, Opened, Steps, Needs;
    var t := Settle(r, s);
    if !r.over(t) && depth > 0 && Moves(r, t) != [] { NeedsBound(r, t, depth, |Moves(r, t)|); }
  }

  lemma {:induction false} NeedsBound(r: Rules, t: State, depth: nat, n: nat)
    requires r.Terminating() && depth > 0 && n <= |Moves(r, t)|
    ensures Needs(r, t, depth, n) <= Steps(r, t, depth, n) + 1
    decreases depth, 0, n
  {
    hide Moves, Opened, Need, Expansions;
    if n > 0 {
      NeedsBound(r, t, depth, n - 1);
      NeedBound(r, r.step(Opened(r, t), Moves(r, t)[n - 1]), depth - 1);
    }
  }

  // ---- The tree's steps ----

  /** A line of play of the search from s: at each position, answers given, one move of the fold. */
  ghost predicate IsLine(r: Rules, s: State, depth: nat, line: seq<nat>)
    requires r.Terminating()
    decreases |line|
  {
    line != [] ==>
      var t := Settle(r, s);
      depth > 0 && !r.over(t) && line[0] in Moves(r, t) && IsLine(r, r.step(Opened(r, t), line[0]), depth - 1, line[1..])
  }

  ghost function Under(m: nat, lines: set<seq<nat>>): set<seq<nat>> { set line | line in lines :: [m] + line }

  /** The lines from s that are not empty. */
  ghost function Lines(r: Rules, s: State, depth: nat): set<seq<nat>>
    requires r.Terminating()
    decreases depth, 1, 0
  {
    var t := Settle(r, s);
    if r.over(t) || depth == 0 then {} else LinesOf(r, t, depth, |Moves(r, t)|)
  }

  /** Those that start with one of the first n moves at t. */
  ghost function LinesOf(r: Rules, t: State, depth: nat, n: nat): set<seq<nat>>
    requires r.Terminating() && depth > 0 && n <= |Moves(r, t)|
    decreases depth, 0, n
  {
    if n == 0 then {} else
      var m := Moves(r, t)[n - 1];
      LinesOf(r, t, depth, n - 1) + Under(m, {[]} + Lines(r, r.step(Opened(r, t), m), depth - 1))
  }

  lemma {:induction false} LinesAre(r: Rules, s: State, depth: nat, line: seq<nat>)
    requires r.Terminating()
    ensures line in Lines(r, s, depth) <==> line != [] && IsLine(r, s, depth, line)
    decreases depth, 1, 0
  {
    hide Moves, Opened, LinesOf, Under;
    var t := Settle(r, s);
    if !r.over(t) && depth > 0 {
      LinesOfAre(r, t, depth, |Moves(r, t)|, line);
      if line != [] { assert line[0] in Moves(r, t) <==> exists k: nat :: k < |Moves(r, t)| && Moves(r, t)[k] == line[0]; }
    }
  }

  lemma {:induction false} LinesOfAre(r: Rules, t: State, depth: nat, n: nat, line: seq<nat>)
    requires r.Terminating() && depth > 0 && n <= |Moves(r, t)|
    ensures line in LinesOf(r, t, depth, n) <==>
      line != [] && (exists k: nat :: k < n && Moves(r, t)[k] == line[0]) && IsLine(r, r.step(Opened(r, t), line[0]), depth - 1, line[1..])
    decreases depth, 0, n
  {
    hide Moves, Opened, Lines, IsLine;
    if n > 0 {
      LinesOfAre(r, t, depth, n - 1, line);
      var m := Moves(r, t)[n - 1];
      var next := r.step(Opened(r, t), m);
      if line != [] {
        LinesAre(r, next, depth - 1, line[1..]);
        EmptyLine(r, next, depth - 1);
        UnderIs(m, {[]} + Lines(r, next, depth - 1), line);
      }
    }
  }

  lemma EmptyLine(r: Rules, s: State, depth: nat)
    requires r.Terminating()
    ensures IsLine(r, s, depth, [])
  {
  }

  lemma UnderIs(m: nat, lines: set<seq<nat>>, line: seq<nat>)
    ensures line in Under(m, lines) <==> line != [] && line[0] == m && line[1..] in lines
  {
    if line != [] && line[0] == m && line[1..] in lines { assert [m] + line[1..] == line; }
  }

  lemma {:induction false} UnderSize(m: nat, lines: set<seq<nat>>)
    ensures |Under(m, lines)| == |lines|
    decreases lines
  {
    if line :| line in lines {
      UnderSize(m, lines - {line});
      UnderIs(m, lines - {line}, [m] + line);
      assert Under(m, lines) == Under(m, lines - {line}) + {[m] + line};
    }
  }

  /** The budget counts the lines of play: each is stepped once. */
  lemma {:induction false} ExpansionsAreLines(r: Rules, s: State, depth: nat)
    requires r.Terminating()
    ensures Expansions(r, s, depth) == |Lines(r, s, depth)|
    decreases depth, 1, 0
  {
    hide Moves, Opened, Steps, LinesOf;
    var t := Settle(r, s);
    if !r.over(t) && depth > 0 { StepsAreLines(r, t, depth, |Moves(r, t)|); }
  }

  lemma {:induction false} StepsAreLines(r: Rules, t: State, depth: nat, n: nat)
    requires r.Terminating() && depth > 0 && n <= |Moves(r, t)|
    ensures Steps(r, t, depth, n) == |LinesOf(r, t, depth, n)|
    decreases depth, 0, n
  {
    hide Moves, Opened, Expansions, Lines, Under;
    if n > 0 {
      StepsAreLines(r, t, depth, n - 1);
      var m := Moves(r, t)[n - 1];
      var next := r.step(Opened(r, t), m);
      ExpansionsAreLines(r, next, depth - 1);
      UnderSize(m, {[]} + Lines(r, next, depth - 1));
      LinesAre(r, next, depth - 1, []);
      assert |{[]} + Lines(r, next, depth - 1)| == 1 + |Lines(r, next, depth - 1)|;
      LinesApart(r, t, depth, n);
    }
  }

  lemma LinesApart(r: Rules, t: State, depth: nat, n: nat)
    requires r.Terminating() && depth > 0 && 0 < n <= |Moves(r, t)|
    ensures var m := Moves(r, t)[n - 1]; LinesOf(r, t, depth, n - 1) !! Under(m, {[]} + Lines(r, r.step(Opened(r, t), m), depth - 1))
  {
    var m := Moves(r, t)[n - 1];
    MovesFold(r, t);
    hide Moves, Opened, LinesOf, Lines, Chosen, Under;
    var lines := {[]} + Lines(r, r.step(Opened(r, t), m), depth - 1);
    forall line | line in LinesOf(r, t, depth, n - 1) ensures line !in Under(m, lines) {
      LinesOfAre(r, t, depth, n - 1, line);
      UnderIs(m, lines, line);
    }
  }

  // ---- The failing input ----

  /** Player 0 is to move at s[0]; player 1 has declared the end.  Ending the round leads to the pause s[1],
      where player 1 moved last; the other move to s[2].  The next round starts with player 0 at s[3], who
      can go to s[4] or s[5]. */
  ghost function PauseRules(s: seq<State>): Rules
    requires |s| == 6
  {
    var end, pass := LegalAction([0, 0, 0, 0, 0], ZERO, 0), LegalAction([1, 0, 0, 0, 0], ZERO, 0);
    Rules((x: State) => if x == s[0] || x == s[3] then [end, pass] else [], (x: State) => ZERO, (x: State) => false,
      (x: State) => if x == s[1] then 1 else 0,
      (x: State, i: nat) => if x == s[0] then (if i == 0 then s[1] else s[2]) else (if i == 0 then s[4] else s[5]),
      (x: State) => false, (x: State) => 0, (x: State) => 0, (x: State) => x == s[1], (x: State) => s[3],
      (x: State) => if x == s[5] then 1.0 else if x == s[2] then 0.5 else 0.0)
  }

  ghost predicate Distinct(s: seq<State>) { forall i, j :: 0 <= i < j < |s| ==> s[i] != s[j] }

  lemma PauseMoves(s: seq<State>)
    requires |s| == 6 && Distinct(s)
    ensures var r := PauseRules(s); r.Lawful() && Moves(r, s[0]) == [0, 1] && Moves(r, s[1]) == [0, 1] && Moves(r, s[2]) == []
  {
    hide Folded, Chosen;
    var r := PauseRules(s);
    FoldTwo(r.legal(s[0]));
  }

  /** Two actions of different identities both stay. */
  lemma FoldTwo(actions: seq<LegalAction>)
    requires |actions| == 2 && actions[0].identity != actions[1].identity
    ensures Folded(actions, ZERO, 2) == [0, 1] && Folded([], ZERO, 0) == []
  {
    assert Chosen(actions, ZERO, 0) && Chosen(actions, ZERO, 1);
    hide Chosen;
    assert Folded(actions, ZERO, 1) == [] + [0];
  }

  lemma PauseValues(s: seq<State>, early: bool)
    requires |s| == 6 && Distinct(s)
    ensures var r := PauseRules(s);
      r.Lawful() && Value(r, s[1], 0, 1, early) == (if early then 0.0 else 1.0) && Value(r, s[2], 0, 1, early) == 0.5
  {
    PauseMoves(s);
    hide Moves;
    var r := PauseRules(s);
    assert Value(r, s[4], 0, 0, early) == 0.0 && Value(r, s[5], 0, 0, early) == 1.0;
    assert Best(r, s[1], 0, 1, 1, early) == 0.0;
  }

  /** At the pause the code's score is that of the opponent's choice, 0, though player 0 can reach 1; two
      plies deep it therefore takes the move worth 1/2; and the look-ahead leaves the next round started. */
  lemma MisreadExample(s: seq<State>)
    requires |s| == 6 && Distinct(s)
    ensures var r := PauseRules(s);
      && r.Lawful() && Value(r, s[1], 0, 1, true) == 0.0 && Value(r, s[1], 0, 1, false) == 1.0
      && IsBest(r, s[0], 2, 1, true) && !IsBest(r, s[0], 2, 0, true) && IsBest(r, s[0], 2, 0, false) && !IsBest(r, s[0], 2, 1, false)
      && Left(r, s[1], 1, None) == s[3] != s[1]
  {
    hide Moves, Value;
    PauseMoves(s);
    PauseValues(s, true);
    PauseValues(s, false);
  }
}
