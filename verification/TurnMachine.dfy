/** Whose turn it is (action_execute.go, action_execute_other.go, action_preparing.go, round.go), and PayDice. */
module TurnMachine {
  import opened DiceVectors
  import opened CostPayment
  import opened PaymentExactness

  type Player = p: nat | p < 2

  type Rest(==, !new)   // everything else in the game

  datatype Phase = SelectActive | RoundStart | Action | RoundEnd | GameOver

  /** The hook points of the modelled operations. */
  datatype Event =
    | Prepare | UseSkill(skill: nat) | PlayCard | SwitchTo | OnTune | BeforeTurnFlip(battle: bool) | OnRoundStart | OnRoundEnd(stage: nat)

  type Skills = s: seq<nat> | |s| == 2 witness [0, 0]
  type Flags = s: seq<bool> | |s| == 2 witness [false, false]
  type Pools = s: seq<Dice> | |s| == 2 witness [ZERO, ZERO]

  type Actives = s: seq<int> | |s| == 2 witness [-1, -1]

  /** `firstEnd` is -1 while nobody has declared the end of the round, `active` while no character is. */
  datatype View = View(phase: Phase, turn: Player, declared: Flags, firstEnd: int, active: Actives, preparing: Skills,
                       dice: Pools, paid: Pools, round: int, rest: Rest)

  /** What the hooks of one event do: they may change active characters, queue prepared skills, change dice
      and the rest of the game, end the game, and decide whether the action is a battle action. */
  datatype Effect = Effect(active: Actives, preparing: Skills, dice: Pools, rest: Rest, over: bool, battle: bool)

  /** `chain` bounds how long prepared skills can keep triggering further prepared skills. */
  datatype Rules = Rules(fire: (Event, View) -> Effect, chain: View -> nat, maxRounds: nat)
  {
    ghost predicate Terminating() {
      forall v: View :: v.preparing[v.turn] != 0 ==> chain(Handed(Prepared(this, v))) < chain(v)
    }
  }

  function Fired(r: Rules, e: Event, v: View): View {
    var f := r.fire(e, v);
    v.(active := f.active, preparing := f.preparing, dice := f.dice, rest := f.rest, phase := if f.over then GameOver else v.phase)
  }

  /** The turn goes over unless the opponent has declared the end. */
  function Handed(v: View): View { if v.declared[1 - v.turn] then v else v.(turn := 1 - v.turn) }

  /** The queued skill is taken out and used. */
  function Prepared(r: Rules, v: View): View {
    Fired(r, UseSkill(v.preparing[v.turn]), v.(preparing := v.preparing[v.turn := 0]))
  }

  /** resolvePreparing. */
  function Resolved(r: Rules, v: View): View
    requires r.Terminating()
    decreases r.chain(v)
  {
    if v.preparing[v.turn] == 0 then v else Resolved(r, Handed(Prepared(r, v)))
  }

  // ---- The rules of the round ----

  /** In the action phase: the player to move has not declared, and firstEnd names who has, if anybody. */
  predicate Fair(v: View) {
    && -1 <= v.firstEnd < 2
    && (v.phase == Phase.Action ==>
          && !v.declared[v.turn]
          && (v.firstEnd == -1 <==> !v.declared[0] && !v.declared[1])
          && (v.firstEnd >= 0 ==> v.declared[v.firstEnd]))
  }

  /** The same, whatever the phase: what holds inside an action that hooks may have ended. */
  predicate Holding(v: View) { Fair(v.(phase := Phase.Action)) }

  lemma FiredKeeps(r: Rules, e: Event, v: View)
    ensures var w := Fired(r, e, v);
      && w.turn == v.turn && w.declared == v.declared && w.firstEnd == v.firstEnd && w.paid == v.paid && w.round == v.round
      && (w.phase == v.phase || w.phase == GameOver)
  {
  }

  /** From v to w the turn stays with a player who has not declared, and after a declaration it stays
      where it is. */
  predicate TurnKept(v: View, w: View) {
    && Holding(w) && w.declared == v.declared && w.firstEnd == v.firstEnd && w.paid == v.paid && w.round == v.round
    && (w.phase == v.phase || w.phase == GameOver) && (v.firstEnd >= 0 ==> w.turn == v.turn)
  }

  lemma HandedKeeps(v: View)
    requires Holding(v)
    ensures TurnKept(v, Handed(v))
  {
  }

  lemma PreparedKeeps(r: Rules, v: View)
    requires Holding(v)
    ensures TurnKept(v, Prepared(r, v))
  {
    FiredKeeps(r, UseSkill(v.preparing[v.turn]), v.(preparing := v.preparing[v.turn := 0]));
    hide Fired;
  }

  lemma TurnKeptTransitive(u: View, v: View, w: View)
    requires TurnKept(u, v) && TurnKept(v, w)
    ensures TurnKept(u, w)
  {
  }

  /** Handing the turn on keeps it so, however many prepared skills that sets off. */
  lemma {:induction false} ResolvedKeeps(r: Rules, v: View)
    requires r.Terminating() && Holding(v)
    ensures TurnKept(v, Resolved(r, v))
    decreases r.chain(v)
  {
    if v.preparing[v.turn] == 0 {
      Unchanged(v);
    } else {
      PreparedKeeps(r, v);
      KeptHolds(v, Prepared(r, v));
      HandedKeeps(Prepared(r, v));
      TurnKeptTransitive(v, Prepared(r, v), Handed(Prepared(r, v)));
      KeptHolds(Prepared(r, v), Handed(Prepared(r, v)));
      ResolvedKeeps(r, Handed(Prepared(r, v)));
      hide TurnKept, Holding, Prepared, Handed;
      TurnKeptTransitive(v, Handed(Prepared(r, v)), Resolved(r, Handed(Prepared(r, v))));
    }
  }

  lemma Unchanged(v: View)
    requires Holding(v)
    ensures TurnKept(v, v)
  {
  }

  lemma KeptHolds(v: View, w: View)
    requires TurnKept(v, w)
    ensures Holding(w)
  {
  }

  // ---- What one operation does ----

  /** A decision, by the player to move unless it is a forced switch. */
  datatype Action =
    | Skill(skill: nat, payment: Dice) | Card(payment: Dice) | Switch(index: nat, payment: Dice) | ForcedSwitch(player: Player, index: nat)
    | Tune(source: nat, target: nat) | EndTurn | SelectActive(index: nat) | StartRound

  ghost predicate Payable(pool: Dice, payment: Dice) { forall c :: 0 <= c < COLORS && payment[c] != 0 ==> payment[c] <= pool[c] }

  ghost predicate Can(v: View, a: Action) {
    match a
    case Skill(_, payment) => v.phase == Phase.Action && Payable(v.dice[v.turn], payment)
    case Card(payment) => v.phase == Phase.Action && Payable(v.dice[v.turn], payment)
    case Switch(_, payment) => v.phase == Phase.Action && Payable(v.dice[v.turn], payment)
    case ForcedSwitch(_, _) => true
    case Tune(source, target) => v.phase == Phase.Action && source < COLORS && target < COLORS
    case EndTurn => v.phase == Phase.Action
    case SelectActive(_) => v.phase == Phase.SelectActive
    case StartRound => v.phase == RoundStart
  }

  function Paid(v: View, payment: Dice): View {
    v.(dice := v.dice[v.turn := Minus(v.dice[v.turn], payment)], paid := v.paid[v.turn := Plus(v.paid[v.turn], payment)])
  }

  /** The common end of skills, cards and voluntary switches. */
  function Finished(r: Rules, v: View, battle: bool): View
    requires r.Terminating()
  {
    var w := Fired(r, BeforeTurnFlip(battle), v);
    if r.fire(BeforeTurnFlip(battle), v).battle then Resolved(r, Handed(w)) else w
  }

  /** A skill, a card or a voluntary switch once it is paid; `index` is -1 or the character switched to. */
  function Performed(r: Rules, v: View, e: Event, index: int): View
    requires r.Terminating()
  {
    var a := Fired(r, Prepare, v);
    var b := Fired(r, e, if index >= 0 then a.(active := a.active[v.turn := index]) else a);
    if b.phase == GameOver then b else Finished(r, b, r.fire(Prepare, v).battle)
  }

  function Forced(r: Rules, v: View, p: Player, index: int): View { Fired(r, SwitchTo, v.(active := v.active[p := index])) }

  /** One die of a colour becomes one of another; without such a die nothing happens. */
  function Tuned(r: Rules, v: View, source: nat, target: nat): View
    requires source < COLORS && target < COLORS
  {
    var pool := v.dice[v.turn];
    if pool[source] <= 0 then v else
      var less := pool[source := pool[source] - 1];
      Fired(r, OnTune, v.(dice := v.dice[v.turn := less[target := less[target] + 1]]))
  }

  /** The stages of round-end hooks from `stage` on, until one ends the game. */
  function Stages(r: Rules, v: View, stage: nat): View
    decreases 4 - stage
  {
    if stage >= 4 then v else
      var w := Fired(r, OnRoundEnd(stage), v);
      if w.phase == GameOver then w else Stages(r, w, stage + 1)
  }

  /** endPhase: the round-end hooks, the round limit, and the pause. */
  function Ended(r: Rules, v: View): View {
    var w := Stages(r, v.(phase := RoundEnd), 0);
    if w.phase == GameOver then w
    else w.(phase := if r.maxRounds > 0 && w.round >= r.maxRounds then GameOver else RoundStart)
  }

  /** executeEndTurn by the player to move. */
  function Declared(r: Rules, v: View): View {
    var w := v.(declared := v.declared[v.turn := true], firstEnd := if v.firstEnd == -1 then v.turn else v.firstEnd);
    if w.declared[1 - v.turn] then Ended(r, w) else w.(turn := 1 - v.turn)
  }

  /** executeSelectActive: the other player chooses next, or player 0 starts the first round. */
  function Selected(v: View, index: int): View {
    var w := v.(active := v.active[v.turn := index]);
    if w.active[1 - v.turn] < 0 then w.(turn := 1 - v.turn) else w.(turn := 0, phase := RoundStart)
  }

  /** newRound.  The action phase starts even when a round-start hook has ended the game. */
  function NextRound(r: Rules, v: View): View {
    var first: Player := if 0 <= v.firstEnd < 2 then v.firstEnd else v.turn;
    Fired(r, OnRoundStart, v.(round := v.round + 1, turn := first)).(phase := Phase.Action, firstEnd := -1, declared := [false, false])
  }

  function Outcome(r: Rules, v: View, a: Action): View
    requires r.Terminating() && Can(v, a)
  {
    match a
    case Skill(skill, payment) => Performed(r, Paid(v, payment), UseSkill(skill), -1)
    case Card(payment) => Performed(r, Paid(v, payment), PlayCard, -1)
    case Switch(index, payment) => Performed(r, Paid(v, payment), SwitchTo, index)
    case ForcedSwitch(p, index) => Forced(r, v, p, index)
    case Tune(source, target) => Tuned(r, v, source, target)
    case EndTurn => Declared(r, v)
    case SelectActive(index) => Selected(v, index)
    case StartRound => NextRound(r, v)
  }

  // ---- What every operation keeps ----

  lemma FinishedKeeps(r: Rules, v: View, battle: bool)
    requires r.Terminating() && Holding(v)
    ensures TurnKept(v, Finished(r, v, battle))
  {
    var e := BeforeTurnFlip(battle);
    FiredKeeps(r, e, v);
    var w := Fired(r, e, v);
    assert TurnKept(v, w);
    if r.fire(e, v).battle {
      HandedKeeps(w);
      ResolvedKeeps(r, Handed(w));
      hide Fired, Holding, Handed, Resolved;
      TurnKeptTransitive(v, w, Handed(w));
      TurnKeptTransitive(v, Handed(w), Resolved(r, Handed(w)));
    }
  }

  lemma HoldingKept(r: Rules, v: View, e: Event, index: int)
    requires Holding(v)
    ensures Holding(Fired(r, e, if index >= 0 then v.(active := v.active[v.turn := index]) else v))
  {
    FiredKeeps(r, e, if index >= 0 then v.(active := v.active[v.turn := index]) else v);
    hide Fired;
  }

  lemma PerformedKeeps(r: Rules, v: View, e: Event, index: int)
    requires r.Terminating() && Holding(v)
    ensures TurnKept(v, Performed(r, v, e, index))
  {
    FiredKeeps(r, Prepare, v);
    var a := Fired(r, Prepare, v);
    var a' := if index >= 0 then a.(active := a.active[v.turn := index]) else a;
    FiredKeeps(r, e, a');
    var b := Fired(r, e, a');
    assert TurnKept(v, b);
    if b.phase != GameOver {
      hide Fired, Holding, Finished;
      FinishedKeeps(r, b, r.fire(Prepare, v).battle);
      TurnKeptTransitive(v, b, Finished(r, b, r.fire(Prepare, v).battle));
    }
  }

  lemma {:induction false} StagesKeep(r: Rules, v: View, stage: nat)
    requires v.phase == RoundEnd
    ensures var w := Stages(r, v, stage);
      && w.turn == v.turn && w.declared == v.declared && w.firstEnd == v.firstEnd && w.round == v.round && w.paid == v.paid
      && (w.phase == RoundEnd || w.phase == GameOver)
    decreases 4 - stage
  {
    if stage < 4 {
      FiredKeeps(r, OnRoundEnd(stage), v);
      var w := Fired(r, OnRoundEnd(stage), v);
      hide Fired;
      if w.phase != GameOver { StagesKeep(r, w, stage + 1); }
    }
  }

  /** The end phase keeps whose turn it is and who declared, and ends in the pause or in game over. */
  lemma EndedKeeps(r: Rules, v: View)
    ensures var w := Ended(r, v);
      && w.turn == v.turn && w.declared == v.declared && w.firstEnd == v.firstEnd && w.round == v.round && w.paid == v.paid
      && (w.phase == RoundStart || w.phase == GameOver)
      && (r.maxRounds > 0 && v.round >= r.maxRounds ==> w.phase == GameOver)
  {
    StagesKeep(r, v.(phase := RoundEnd), 0);
    hide Stages;
  }

  // ---- What the operations do, event by event ----

  /** Who moves next after a battle action: the opponent, unless they have declared the end. */
  function NextMover(v: View): Player { if v.declared[1 - v.turn] then v.turn else 1 - v.turn }

  /** From each view to the next the turn went over and the prepared skill of the player who got it was taken
      out and used; nothing is prepared for the player who gets the turn from the last one. */
  ghost predicate Handovers(r: Rules, views: seq<View>) {
    && views != []
    && (forall k :: 0 <= k < |views| - 1 ==>
          var v, p := views[k], NextMover(views[k]);
          && v.preparing[p] != 0
          && views[k + 1] == Fired(r, UseSkill(v.preparing[p]), Readied(v)))
    && var last := views[|views| - 1]; last.preparing[NextMover(last)] == 0
  }

  /** A battle action at v hands the turn over, once more for every prepared skill that this sets off. */
  ghost predicate FlipLaw(r: Rules, v: View, w: View) {
    exists views: seq<View> :: Handovers(r, views) && views[0] == v && w == views[|views| - 1].(turn := NextMover(views[|views| - 1]))
  }

  /** The view in which the prepared skill of the next mover is used. */
  function Readied(v: View): View { v.(turn := NextMover(v), preparing := v.preparing[NextMover(v) := 0]) }

  lemma ResolvedStep(r: Rules, v: View)
    requires r.Terminating()
    ensures Handed(v) == v.(turn := NextMover(v))
    ensures v.preparing[NextMover(v)] == 0 ==> Resolved(r, Handed(v)) == v.(turn := NextMover(v))
    ensures v.preparing[NextMover(v)] != 0 ==>
      var u := Fired(r, UseSkill(v.preparing[NextMover(v)]), Readied(v));
      Resolved(r, Handed(v)) == Resolved(r, Handed(u)) && r.chain(Handed(u)) < r.chain(Handed(v))
  {
    hide Fired;
    var u := Handed(v);
    assert u == v.(turn := NextMover(v));
    assert Prepared(r, u) == Fired(r, UseSkill(v.preparing[NextMover(v)]), Readied(v));
  }

  lemma {:induction false} FlipIsLaw(r: Rules, v: View) returns (views: seq<View>)
    requires r.Terminating()
    ensures Handovers(r, views) && views[0] == v
    ensures Resolved(r, Handed(v)) == views[|views| - 1].(turn := NextMover(views[|views| - 1]))
    decreases r.chain(Handed(v))
  {
    hide Fired, Resolved, Handed, NextMover, Rules.Terminating;
    ResolvedStep(r, v);
    if v.preparing[NextMover(v)] == 0 {
      views := [v];
    } else {
      var rest := FlipIsLaw(r, Fired(r, UseSkill(v.preparing[NextMover(v)]), Readied(v)));
      views := [v] + rest;
      assert forall k :: 1 <= k < |views| ==> views[k] == rest[k - 1];
    }
  }

  lemma FlipLawHolds(r: Rules, v: View)
    requires r.Terminating()
    ensures FlipLaw(r, v, Resolved(r, Handed(v)))
  {
    hide Fired, Resolved, Handed, Handovers;
    var views := FlipIsLaw(r, v);
  }

  /** A skill, a card or a voluntary switch at v, paid for: the hooks of its preparation and of the action itself
      are fired; if the game goes on, those before the turn flip are; and the turn is flipped iff they leave it
      a battle action. */
  ghost predicate ActionLaw(r: Rules, v: View, e: Event, index: int, w: View) {
    var battle := r.fire(Prepare, v).battle;
    var a := Fired(r, Prepare, v);
    var b := Fired(r, e, if index >= 0 then a.(active := a.active[v.turn := index]) else a);
    var flip := BeforeTurnFlip(battle);
    if b.phase == GameOver then w == b
    else if r.fire(flip, b).battle then FlipLaw(r, Fired(r, flip, b), w)
    else w == Fired(r, flip, b)
  }

  lemma ActionLawHolds(r: Rules, v: View, e: Event, index: int)
    requires r.Terminating()
    ensures ActionLaw(r, v, e, index, Performed(r, v, e, index))
  {
    hide Fired, FlipLaw, Resolved, Handed;
    var a := Fired(r, Prepare, v);
    var b := Fired(r, e, if index >= 0 then a.(active := a.active[v.turn := index]) else a);
    FlipLawHolds(r, Fired(r, BeforeTurnFlip(r.fire(Prepare, v).battle), b));
  }

  /** Paying moves dice of the player to move from the pool to the record, colour by colour, and nothing else. */
  lemma PaidLaw(v: View, payment: Dice)
    ensures var w := Paid(v, payment);
      && w == v.(dice := w.dice, paid := w.paid) && w.dice[1 - v.turn] == v.dice[1 - v.turn] && w.paid[1 - v.turn] == v.paid[1 - v.turn]
      && forall c :: 0 <= c < COLORS ==>
           w.dice[v.turn][c] == v.dice[v.turn][c] - payment[c] && w.paid[v.turn][c] == v.paid[v.turn][c] + payment[c]
  {
  }

  /** In terms of the turn alone: a fast action leaves it; after a battle action, when no prepared skill waits
      for the player who gets the turn, it has gone over iff the opponent has not declared. */
  lemma TurnAfterAction(r: Rules, v: View, e: Event, index: int)
    requires r.Terminating()
    ensures var w, a := Performed(r, v, e, index), Fired(r, Prepare, v);
      var b := Fired(r, e, if index >= 0 then a.(active := a.active[v.turn := index]) else a);
      var flip := BeforeTurnFlip(r.fire(Prepare, v).battle);
      var u := Fired(r, flip, b);
      b.phase != GameOver ==>
        && (!r.fire(flip, b).battle ==> w.turn == v.turn)
        && (r.fire(flip, b).battle && v.declared[1 - v.turn] && u.preparing[v.turn] == 0 ==> w.turn == v.turn)
        && (r.fire(flip, b).battle && !v.declared[1 - v.turn] && u.preparing[1 - v.turn] == 0 ==> w.turn == 1 - v.turn)
  {
    hide Fired, Performed, FlipLaw;
    ActionLawHolds(r, v, e, index);
    var a := Fired(r, Prepare, v);
    var a' := if index >= 0 then a.(active := a.active[v.turn := index]) else a;
    var b := Fired(r, e, a');
    var flip := BeforeTurnFlip(r.fire(Prepare, v).battle);
    FiredKeeps(r, Prepare, v);
    FiredKeeps(r, e, a');
    FiredKeeps(r, flip, b);
    if b.phase != GameOver && r.fire(flip, b).battle { FlipLawTurn(r, Fired(r, flip, b), Performed(r, v, e, index)); }
  }

  lemma FlipLawTurn(r: Rules, v: View, w: View)
    requires FlipLaw(r, v, w)
    ensures v.preparing[NextMover(v)] == 0 ==> w.turn == NextMover(v)
  {
    hide Fired;
    var views: seq<View> :| Handovers(r, views) && views[0] == v && w == views[|views| - 1].(turn := NextMover(views[|views| - 1]));
    if |views| > 1 { assert views[0 + 1] == Fired(r, UseSkill(v.preparing[NextMover(v)]), Readied(v)); }
  }

  /** The stages of the end phase run in order until one ends the game; then comes the round limit, then the
      pause. */
  lemma EndPhaseLaw(r: Rules, v: View)
    ensures var v1 := Fired(r, OnRoundEnd(0), v.(phase := RoundEnd));
      var v2 := Fired(r, OnRoundEnd(1), v1);
      var v3 := Fired(r, OnRoundEnd(2), v2);
      var v4 := Fired(r, OnRoundEnd(3), v3);
      Ended(r, v) ==
        if v1.phase == GameOver then v1 else if v2.phase == GameOver then v2
        else if v3.phase == GameOver then v3 else if v4.phase == GameOver then v4
        else if r.maxRounds > 0 && v.round >= r.maxRounds then v4.(phase := GameOver) else v4.(phase := RoundStart)
  {
    var v1 := Fired(r, OnRoundEnd(0), v.(phase := RoundEnd));
    var v2 := Fired(r, OnRoundEnd(1), v1);
    var v3 := Fired(r, OnRoundEnd(2), v2);
    var v4 := Fired(r, OnRoundEnd(3), v3);
    assert v4.round == v.round;
    hide Fired;
    StageLaw(r, v.(phase := RoundEnd), 0);
    StageLaw(r, v1, 1);
    StageLaw(r, v2, 2);
    StageLaw(r, v3, 3);
    StageLaw(r, v4, 4);
    hide Stages;
  }

  lemma StageLaw(r: Rules, v: View, stage: nat)
    ensures var w := Fired(r, OnRoundEnd(stage), v);
      stage < 4 ==> Stages(r, v, stage) == if w.phase == GameOver then w else Stages(r, w, stage + 1)
    ensures stage == 4 ==> Stages(r, v, stage) == v
  {
    hide Fired;
  }

  /** Tuning moves one die of the pool from one colour to another and fires its hooks; without such a die it does
      nothing. */
  ghost predicate TuneLaw(r: Rules, v: View, source: nat, target: nat, w: View)
    requires source < COLORS && target < COLORS
  {
    var pool := v.dice[v.turn];
    if pool[source] <= 0 then w == v
    else exists pool': Dice :: w == Fired(r, OnTune, v.(dice := v.dice[v.turn := pool'])) && MovesDie(pool, source, target, pool')
  }

  ghost predicate MovesDie(pool: Dice, source: nat, target: nat, pool': Dice)
    requires source < COLORS && target < COLORS
  {
    && (source == target ==> pool' == pool)
    && (source != target ==> pool'[source] == pool[source] - 1 && pool'[target] == pool[target] + 1)
    && forall c :: 0 <= c < COLORS && c != source && c != target ==> pool'[c] == pool[c]
  }

  lemma TuneLawHolds(r: Rules, v: View, source: nat, target: nat)
    requires source < COLORS && target < COLORS
    ensures TuneLaw(r, v, source, target, Tuned(r, v, source, target))
  {
    hide Fired;
    var pool := v.dice[v.turn];
    var less := pool[source := pool[source] - 1];
    assert MovesDie(pool, source, target, less[target := less[target] + 1]);
  }

  // ---- Runs ----

  /** The views of a game at its decision points, each led to by one action. */
  ghost predicate IsRun(r: Rules, views: seq<View>, actions: seq<Action>)
    requires r.Terminating()
  {
    && |views| == |actions| + 1 && Fair(views[0])
    && forall i :: 0 <= i < |actions| ==> Can(views[i], actions[i]) && views[i + 1] == Outcome(r, views[i], actions[i])
  }

  /** A round that has been played by at least one declaration: who declared first is on record, and the turn
      is with the other player. */
  predicate SecondToEnd(v: View, first: int) { v.firstEnd == first && (v.phase == Phase.Action ==> v.turn == 1 - first) }

  lemma OutcomeKeeps(r: Rules, v: View, a: Action)
    requires r.Terminating() && Fair(v) && Can(v, a)
    ensures var w := Outcome(r, v, a);
      && Fair(w) && (w.round == v.round <==> !a.StartRound?)
      && (v.firstEnd >= 0 && !a.StartRound? ==> SecondToEnd(w, v.firstEnd))
  {
    hide Performed, Ended, Tuned, Declared, Paid, Payable, Fired, Handed;
    match a
    case Skill(skill, payment) => PaidActionKeeps(r, v, payment, UseSkill(skill), -1);
    case Card(payment) => PaidActionKeeps(r, v, payment, PlayCard, -1);
    case Switch(index, payment) => PaidActionKeeps(r, v, payment, SwitchTo, index);
    case ForcedSwitch(p, index) => FiredKeeps(r, SwitchTo, v.(active := v.active[p := index]));
    case Tune(source, target) => TunedKeeps(r, v, source, target);
    case EndTurn => DeclaredKeeps(r, v);
    case SelectActive(index) =>
    case StartRound => NextRoundIs(r, v);
  }

  /** Whoever ended first starts; nobody has declared; the action phase begins in any case. */
  lemma NextRoundIs(r: Rules, v: View)
    ensures var w := NextRound(r, v);
      && w.turn == (if 0 <= v.firstEnd < 2 then v.firstEnd else v.turn) && w.round == v.round + 1
      && w.phase == Phase.Action && w.firstEnd == -1 && w.declared == [false, false] && w.paid == v.paid && Fair(w)
  {
  }

  lemma PaidActionKeeps(r: Rules, v: View, payment: Dice, e: Event, index: int)
    requires r.Terminating() && Fair(v) && v.phase == Phase.Action
    ensures var w := Performed(r, Paid(v, payment), e, index);
      Fair(w) && w.round == v.round && (v.firstEnd >= 0 ==> SecondToEnd(w, v.firstEnd))
  {
    hide Performed;
    PerformedKeeps(r, Paid(v, payment), e, index);
  }

  lemma TunedKeeps(r: Rules, v: View, source: nat, target: nat)
    requires Fair(v) && v.phase == Phase.Action && source < COLORS && target < COLORS
    ensures var w := Tuned(r, v, source, target);
      Fair(w) && w.round == v.round && (v.firstEnd >= 0 ==> SecondToEnd(w, v.firstEnd))
  {
    var pool := v.dice[v.turn];
    var less := pool[source := pool[source] - 1];
    FiredKeeps(r, OnTune, v.(dice := v.dice[v.turn := less[target := less[target] + 1]]));
    hide Fired;
  }

  /** The first declaration names the first to end and hands the turn on; the second ends the round. */
  lemma DeclaredKeeps(r: Rules, v: View)
    requires Fair(v) && v.phase == Phase.Action
    ensures var w := Declared(r, v);
      && Fair(w) && w.round == v.round && w.declared == v.declared[v.turn := true] && w.paid == v.paid
      && SecondToEnd(w, if v.firstEnd == -1 then v.turn else v.firstEnd)
      && (if v.firstEnd == -1 then w.phase == Phase.Action && w.turn == 1 - v.turn
          else (w.phase == RoundStart || w.phase == GameOver) && w.turn == v.turn == 1 - v.firstEnd)
  {
    var w := v.(declared := v.declared[v.turn := true], firstEnd := if v.firstEnd == -1 then v.turn else v.firstEnd);
    EndedKeeps(r, w);
    hide Ended;
  }

  /** The declaration ends the round if the opponent has declared before, and hands the turn on otherwise. */
  ghost predicate DeclareLaw(r: Rules, v: View, w: View) {
    if v.declared[1 - v.turn] then w == Ended(r, v.(declared := [true, true]))
    else w == v.(declared := w.declared, firstEnd := v.turn, turn := 1 - v.turn) && w.declared[v.turn] && !w.declared[1 - v.turn]
  }

  lemma DeclareLawHolds(r: Rules, v: View)
    requires Fair(v) && v.phase == Phase.Action
    ensures DeclareLaw(r, v, Declared(r, v))
  {
    assert v.declared[1 - v.turn] ==> v.declared[v.turn := true] == [true, true];
    hide Ended;
  }

  /** A step of a run is the operation that its action names. */
  lemma StepIsOperation(r: Rules, v: View, a: Action)
    requires r.Terminating() && Can(v, a)
    ensures var w := Outcome(r, v, a);
      && (a.Skill? ==> w == Performed(r, Paid(v, a.payment), UseSkill(a.skill), -1))
      && (a.Card? ==> w == Performed(r, Paid(v, a.payment), PlayCard, -1))
      && (a.Switch? ==> w == Performed(r, Paid(v, a.payment), SwitchTo, a.index))
      && (a.ForcedSwitch? ==> w == Fired(r, SwitchTo, v.(active := v.active[a.player := a.index])))
      && (a.Tune? ==> TuneLaw(r, v, a.source, a.target, w))
      && (a.EndTurn? && Fair(v) ==> DeclareLaw(r, v, w))
      && (a.SelectActive? ==> w == Selected(v, a.index))
      && (a.StartRound? ==> w == NextRound(r, v))
  {
    hide Performed, Paid, Fired, Tuned, TuneLaw, DeclareLaw, Declared, Selected, NextRound, Rules.Terminating;
    if a.Tune? { TuneLawHolds(r, v, a.source, a.target); }
    if a.EndTurn? && Fair(v) { DeclareLawHolds(r, v); }
  }

  /** At every decision point of every run in the action phase, the player to move has not declared and
      firstEnd names who has. */
  lemma {:induction false} RunFair(r: Rules, views: seq<View>, actions: seq<Action>, i: nat)
    requires r.Terminating() && IsRun(r, views, actions) && i < |views|
    ensures Fair(views[i])
  {
    hide Fair, Outcome, Can, SecondToEnd;
    if i > 0 {
      RunFair(r, views, actions, i - 1);
      OutcomeKeeps(r, views[i - 1], actions[i - 1]);
    }
  }

  /** Within a round, once a player has declared, firstEnd keeps naming that player and in the action
      phase the turn stays with the other one. */
  lemma {:induction false} FirstEndStays(r: Rules, views: seq<View>, actions: seq<Action>, i: nat, j: nat)
    requires r.Terminating() && IsRun(r, views, actions) && i <= j < |views| && views[i].firstEnd >= 0
    requires forall k :: i <= k <= j ==> views[k].round == views[i].round
    ensures SecondToEnd(views[j], views[i].firstEnd)
    ensures views[j].phase == Phase.Action ==> !views[j].declared[views[j].turn]
  {
    hide Outcome, Can;
    RunFair(r, views, actions, j);
    if i < j {
      FirstEndStays(r, views, actions, i, j - 1);
      RunFair(r, views, actions, j - 1);
      OutcomeKeeps(r, views[j - 1], actions[j - 1]);
    }
  }

  /** The next round starts with whoever ended the last one first. */
  lemma NextRoundStartsWithFirstEnd(r: Rules, views: seq<View>, actions: seq<Action>, i: nat, j: nat)
    requires r.Terminating() && IsRun(r, views, actions) && i <= j < |actions| && views[i].firstEnd >= 0
    requires (forall k :: i <= k <= j ==> views[k].round == views[i].round) && views[j + 1].round != views[j].round
    ensures actions[j] == StartRound && views[j + 1].turn == views[i].firstEnd && views[j + 1].phase == Phase.Action
    ensures views[j + 1].firstEnd == -1 && views[j + 1].declared == [false, false]
  {
    FirstEndStays(r, views, actions, i, j);
    RunFair(r, views, actions, j);
    OutcomeKeeps(r, views[j], actions[j]);
    assert views[j + 1] == Outcome(r, views[j], actions[j]);
    NextRoundIs(r, views[j]);
    hide NextRound;
  }

  /** In the pause the turn is still with the player who declared last, and the next round takes it from
      them: reading whose turn it is before the round starts names the wrong player. */
  lemma PauseNamesTheOther(r: Rules, v: View)
    requires Fair(v) && v.phase == Phase.Action && Declared(r, v).phase == RoundStart
    ensures Declared(r, v).turn == v.turn && NextRound(r, Declared(r, v)).turn == 1 - v.turn
  {
    DeclaredKeeps(r, v);
    NextRoundIs(r, Declared(r, v));
    hide Declared, NextRound;
  }

  /** A new game. */
  predicate Begun(v: View) {
    v.phase == Phase.SelectActive && v.turn == 0 && v.declared == [false, false] && v.firstEnd == -1 && v.active == [-1, -1] && v.round == 0
  }

  /** Before the first round nobody declares, and the pause has player 0 to move. */
  predicate Opening(v: View) {
    v.round == 0 ==> v.firstEnd == -1 && v.phase != Phase.Action && (v.phase == RoundStart ==> v.turn == 0)
  }

  lemma OpeningStep(r: Rules, v: View, a: Action)
    requires r.Terminating() && Can(v, a) && v.round >= 0 && Opening(v) && Fair(v)
    ensures Opening(Outcome(r, v, a)) && Outcome(r, v, a).round >= 0
  {
    hide Fair, Performed, Declared, Tuned;
    OutcomeKeeps(r, v, a);
    if v.round == 0 && a.ForcedSwitch? { FiredKeeps(r, SwitchTo, v.(active := v.active[a.player := a.index])); }
    if a.StartRound? { NextRoundIs(r, v); }
  }

  lemma {:induction false} RunOpening(r: Rules, views: seq<View>, actions: seq<Action>, i: nat)
    requires r.Terminating() && IsRun(r, views, actions) && Begun(views[0]) && i < |views|
    ensures Opening(views[i]) && views[i].round >= 0
  {
    hide Outcome, Can, Fair, Opening;
    if i == 0 {
      BegunOpens(views[0]);
    } else {
      RunOpening(r, views, actions, i - 1);
      RunFair(r, views, actions, i - 1);
      OpeningStep(r, views[i - 1], actions[i - 1]);
    }
  }

  lemma BegunOpens(v: View)
    requires Begun(v)
    ensures Opening(v)
  {
  }

  /** However the players choose their characters, player 0 starts the first round. */
  lemma FirstRoundStartsWithZero(r: Rules, views: seq<View>, actions: seq<Action>, i: nat)
    requires r.Terminating() && IsRun(r, views, actions) && Begun(views[0]) && i < |actions| && views[i].round == 0 && actions[i] == StartRound
    ensures views[i + 1].turn == 0 && views[i + 1].phase == Phase.Action
  {
    RunOpening(r, views, actions, i);
    assert views[i + 1] == NextRound(r, views[i]) && views[i].phase == RoundStart;
    NextRoundIs(r, views[i]);
    hide NextRound;
  }

  /** A round-start hook that ends the game is overruled: play goes on in the action phase. */
  lemma GameOverAtRoundStart(v: View) returns (r: Rules)
    ensures r.Terminating() && Fired(r, OnRoundStart, v).phase == GameOver && NextRound(r, v).phase == Phase.Action
  {
    r := Rules((e, w: View) => Effect(w.active, [0, 0], w.dice, w.rest, e == OnRoundStart, false), (w: View) => w.preparing[0] + w.preparing[1], 0);
  }

  /** Debited through colour k, recorded below it. */
  predicate StoppedAt(pool: Dice, record: Dice, payment: Dice, k: nat, pool': Dice, record': Dice) {
    forall c :: 0 <= c < COLORS ==>
      && pool'[c] == pool[c] - (if c <= k then payment[c] else 0)
      && record'[c] == record[c] + (if c < k then payment[c] else 0)
  }

  class Game {
    const rules: Rules
    var phase: Phase
    var turn: Player
    var declared: Flags
    var firstEnd: int
    var active: Actives
    var preparing: Skills
    var dice: Pools
    var paid: Pools
    var round: int
    var rest: Rest

    constructor (rules: Rules, dice: Pools, rest: Rest)
      ensures this.rules == rules && Begun(Now()) && Fair(Now())
    {
      this.rules, this.dice, this.rest := rules, dice, rest;
      phase, turn, declared, firstEnd, active := Phase.SelectActive, 0, [false, false], -1, [-1, -1];
      preparing, paid, round := [0, 0], [ZERO, ZERO], 0;
    }

    function Now(): View
      reads this
    {
      View(phase, turn, declared, firstEnd, active, preparing, dice, paid, round, rest)
    }

    method FireEventHooks(e: Event) returns (battle: bool)
      modifies this`phase, this`active, this`preparing, this`dice, this`rest
      ensures Now() == Fired(rules, e, old(Now()))
      ensures var f := rules.fire(e, old(Now()));
        && battle == f.battle && active == f.active && preparing == f.preparing && dice == f.dice && rest == f.rest
        && phase == if f.over then GameOver else old(phase)
    {
      var f := rules.fire(e, Now());
      active, preparing, dice, rest, battle := f.active, f.preparing, f.dice, f.rest, f.battle;
      if f.over { phase := GameOver; }
    }

    /** PayDice; false is the panic.  Then the colours before the first one that cannot pay are debited
        and recorded, and that one is debited below zero without being recorded. */
    method PayDice(p: Player, payment: Dice) returns (ok: bool)
      modifies this`dice, this`paid
      ensures ok <==> Payable(old(dice)[p], payment)
      ensures dice[1 - p] == old(dice)[1 - p] && paid[1 - p] == old(paid)[1 - p]
      ensures ok ==> dice[p] == Minus(old(dice)[p], payment) && paid[p] == Plus(old(paid)[p], payment)
      ensures !ok ==> exists k :: 0 <= k < COLORS && payment[k] != 0 && payment[k] > old(dice)[p][k]
                                  && StoppedAt(old(dice)[p], old(paid)[p], payment, k, dice[p], paid[p])
    {
      for c := 0 to COLORS
        invariant forall d :: 0 <= d < c && payment[d] != 0 ==> payment[d] <= old(dice)[p][d]
        invariant dice[1 - p] == old(dice)[1 - p] && paid[1 - p] == old(paid)[1 - p]
        invariant forall d :: 0 <= d < COLORS ==>
          && dice[p][d] == old(dice)[p][d] - (if d < c then payment[d] else 0)
          && paid[p][d] == old(paid)[p][d] + (if d < c then payment[d] else 0)
      {
        var n := payment[c];
        if n == 0 { continue; }
        dice := dice[p := dice[p][c := dice[p][c] - n]];
        if dice[p][c] < 0 {
          assert StoppedAt(old(dice)[p], old(paid)[p], payment, c, dice[p], paid[p]);
          return false;
        }
        paid := paid[p := paid[p][c := paid[p][c] + n]];
      }
      return true;
    }

    /** flipTurn, with the prepared skills it sets off. */
    method FlipTurn()
      requires rules.Terminating()
      modifies this`phase, this`active, this`preparing, this`dice, this`rest, this`turn
      ensures Now() == Resolved(rules, Handed(old(Now()))) && FlipLaw(rules, old(Now()), Now())
      decreases rules.chain(Handed(Now())), 1
    {
      hide Resolved, Fired, Prepared, Rules.Terminating, FlipLaw;
      FlipLawHolds(rules, Now());
      var next: Player := 1 - turn;
      if !declared[next] { turn := next; }
      ResolvePreparing();
    }

    method ResolvePreparing()
      requires rules.Terminating()
      modifies this`phase, this`active, this`preparing, this`dice, this`rest, this`turn
      ensures Now() == Resolved(rules, old(Now()))
      decreases rules.chain(Now()), 0
    {
      var skill := preparing[turn];
      if skill == 0 { return; }
      preparing := preparing[turn := 0];
      var _ := FireEventHooks(UseSkill(skill));
      FlipTurn();
    }

    /** The common end of skills, cards and voluntary switches.  checkActionPhaseEnd never ends the phase
        here: only a declaration does. */
    method FinishAction(battle: bool)
      requires rules.Terminating() && Holding(Now())
      modifies this`phase, this`active, this`preparing, this`dice, this`rest, this`turn
      ensures Now() == Finished(rules, old(Now()), battle)
    {
      hide Fired, Resolved, TurnKept, Handed, Rules.Terminating;
      FinishedKeeps(rules, Now(), battle);
      KeptHolds(Now(), Finished(rules, Now(), battle));
      var flip := FireEventHooks(BeforeTurnFlip(battle));
      if flip { FlipTurn(); }
      if declared[0] && declared[1] { assert false; }
    }

    /** What skills, cards and voluntary switches do once they are paid; `index` is -1 or the character
        switched to. */
    method Perform(e: Event, index: int)
      requires rules.Terminating() && Holding(Now())
      modifies this`phase, this`active, this`preparing, this`dice, this`rest, this`turn
      ensures Now() == Performed(rules, old(Now()), e, index) && ActionLaw(rules, old(Now()), e, index, Now())
    {
      ghost var here := Now();
      hide Fired, Finished, Rules.Terminating, ActionLaw;
      ActionLawHolds(rules, here, e, index);
      HoldingKept(rules, here, Prepare, -1);
      var battle := FireEventHooks(Prepare);
      HoldingKept(rules, Now(), e, index);
      if index >= 0 { active := active[turn := index]; }
      var _ := FireEventHooks(e);
      if phase == GameOver { return; }
      FinishAction(battle);
    }

    /** executeSkill and executeCard: false is PayDice's panic. */
    method ExecuteSkill(e: Event, payment: Dice) returns (ok: bool)
      requires rules.Terminating() && Fair(Now()) && phase == Phase.Action
      modifies this
      ensures ok <==> Payable(old(dice)[old(turn)], payment)
      ensures ok ==> Now() == Performed(rules, Paid(old(Now()), payment), e, -1) && Fair(Now())
      ensures ok ==> ActionLaw(rules, Paid(old(Now()), payment), e, -1, Now())
    {
      hide Fired, ActionLaw, Performed, Payable, SecondToEnd, Rules.Terminating;
      ghost var here := Now();
      PaidActionKeeps(rules, here, payment, e, -1);
      ok := PayDice(turn, payment);
      if !ok { return; }
      assert Now() == Paid(here, payment);
      Perform(e, -1);
    }

    /** executeSwitch: a forced switch costs nothing and leaves the turn alone. */
    method ExecuteSwitch(p: Player, index: nat, forced: bool, payment: Dice) returns (ok: bool)
      requires rules.Terminating() && Fair(Now()) && (!forced ==> phase == Phase.Action && p == turn)
      modifies this
      ensures ok <==> forced || Payable(old(dice)[p], payment)
      ensures forced ==> Now() == Forced(rules, old(Now()), p, index) && Fair(Now()) && turn == old(turn) && paid == old(paid)
      ensures forced ==> Now() == Fired(rules, SwitchTo, old(Now()).(active := old(active)[p := index]))
      ensures ok && !forced ==> Now() == Performed(rules, Paid(old(Now()), payment), SwitchTo, index) && Fair(Now())
      ensures ok && !forced ==> ActionLaw(rules, Paid(old(Now()), payment), SwitchTo, index, Now())
    {
      hide ActionLaw, Performed, Payable, SecondToEnd, Rules.Terminating;
      ghost var here := Now();
      if forced {
        FiredKeeps(rules, SwitchTo, here.(active := active[p := index]));
        active := active[p := index];
        var _ := FireEventHooks(SwitchTo);
        return true;
      }
      PaidActionKeeps(rules, here, payment, SwitchTo, index);
      ok := PayDice(p, payment);
      if !ok { return; }
      assert Now() == Paid(here, payment);
      Perform(SwitchTo, index);
    }

    /** executeTune by the player to move. */
    method ExecuteTune(source: nat, target: nat)
      requires source < COLORS && target < COLORS
      modifies this`phase, this`active, this`preparing, this`dice, this`rest
      ensures Now() == Tuned(rules, old(Now()), source, target)
      ensures TuneLaw(rules, old(Now()), source, target, Now())
    {
      TuneLawHolds(rules, Now(), source, target);
      hide TuneLaw, Fired;
      if dice[turn][source] <= 0 { return; }
      dice := dice[turn := dice[turn][source := dice[turn][source] - 1]];
      dice := dice[turn := dice[turn][target := dice[turn][target] + 1]];
      assert dice == old(dice)[turn := dice[turn]];
      var _ := FireEventHooks(OnTune);
    }

    /** executeEndTurn by the player to move. */
    method ExecuteEndTurn()
      requires Fair(Now()) && phase == Phase.Action
      modifies this
      ensures Now() == Declared(rules, old(Now())) && Fair(Now())
      ensures DeclareLaw(rules, old(Now()), Now())
    {
      DeclaredKeeps(rules, Now());
      DeclareLawHolds(rules, Now());
      hide Ended, DeclareLaw;
      var p := turn;
      if !declared[p] {
        declared := declared[p := true];
        if firstEnd == -1 { firstEnd := p; }
      }
      if declared[0] && declared[1] {
        EndPhase();
        return;
      }
      turn := 1 - p;
    }

    /** endPhase: the four stages of round-end hooks, the round limit, and the pause. */
    method EndPhase()
      requires -1 <= firstEnd < 2
      modifies this`phase, this`active, this`preparing, this`dice, this`rest
      ensures Now() == Ended(rules, old(Now()))
    {
      phase := RoundEnd;
      ghost var v := Now();
      for stage := 0 to 4
        invariant phase == RoundEnd && Stages(rules, Now(), stage) == Stages(rules, v, 0) && round == old(round)
        invariant Now() == v.(active := active, preparing := preparing, dice := dice, rest := rest)
      {
        FiredKeeps(rules, OnRoundEnd(stage), Now());
        var _ := FireEventHooks(OnRoundEnd(stage));
        if phase == GameOver { return; }
      }
      if rules.maxRounds > 0 && round >= rules.maxRounds {
        phase := GameOver;
        return;
      }
      phase := RoundStart;
    }

    /** executeSelectActive by the player to move. */
    method ExecuteSelectActive(index: nat)
      requires phase == Phase.SelectActive
      modifies this`active, this`turn, this`phase
      ensures Now() == Selected(old(Now()), index)
      ensures active == old(active)[old(turn) := index]
      ensures if old(active)[1 - old(turn)] < 0 then turn == 1 - old(turn) && phase == old(phase) else turn == 0 && phase == RoundStart
    {
      active := active[turn := index];
      if active[1 - turn] < 0 {
        turn := 1 - turn;
        return;
      }
      turn, phase := 0, RoundStart;
    }

    /** newRound: whoever ended first moves first. */
    method NewRound()
      requires -1 <= firstEnd < 2
      modifies this
      ensures Now() == NextRound(rules, old(Now())) && Fair(Now()) && phase == Phase.Action
      ensures turn == (if old(firstEnd) >= 0 then old(firstEnd) else old(turn)) && firstEnd == -1 && declared == [false, false]
      ensures round == old(round) + 1
      ensures var f := rules.fire(OnRoundStart, old(Now()).(round := round, turn := turn));
        active == f.active && preparing == f.preparing && dice == f.dice && rest == f.rest
    {
      NextRoundIs(rules, Now());
      hide Fair;
      round := round + 1;
      if firstEnd >= 0 { turn := firstEnd; }
      FiredKeeps(rules, OnRoundStart, Now());
      var _ := FireEventHooks(OnRoundStart);
      phase := Phase.Action;
      firstEnd := -1;
      declared := [false, false];
    }

    /** A legal action's payment is one that EnumerateCostPayments lists for the acting player's pool;
        executing the action pays it.  The payment never fails, leaves no colour negative, and keeps pool
        plus paid dice, colour by colour. */
    method PayListed(p: Player, cost: DiceCost, spare: nat, i: nat) returns (payments: seq<Dice>, ok: bool)
      requires Clamped(cost) && ValidPool(dice[p])
      modifies this`dice, this`paid
      ensures forall j :: 0 <= j < |payments| ==> Within(payments[j], old(dice)[p])
      ensures payments != [] <==> exists pay: Dice :: Valid(old(dice)[p], cost, pay)
      ensures i < |payments| ==> ok && forall c :: 0 <= c < COLORS ==>
        0 <= dice[p][c] && paid[p][c] == old(paid)[p][c] + payments[i][c] && dice[p][c] + paid[p][c] == old(dice)[p][c] + old(paid)[p][c]
      ensures i < |payments| ==> Sum(dice[p], COLORS) == Sum(old(dice)[p], COLORS) - Sum(payments[i], COLORS)
      ensures i < |payments| && Safe(old(dice)[p], cost) ==> Sum(payments[i], COLORS) == TotalCost(cost)
    {
      payments := EnumerateCostPayments(dice[p], cost, spare);
      ok := true;
      if i >= |payments| { return; }
      hide Safe, Valid, ValidPool;
      ghost var pool := dice[p];
      ListedTotal(pool, cost, payments, i);
      PaymentConserves(pool, paid[p], payments[i]);
      ok := PayDice(p, payments[i]);
    }
  }

  lemma ListedTotal(pool: Dice, cost: DiceCost, payments: seq<Dice>, i: nat)
    requires Clamped(cost) && i < |payments|
    requires Safe(pool, cost) ==> forall pay: Dice :: pay in payments <==> Valid(pool, cost, pay)
    ensures Safe(pool, cost) ==> Sum(payments[i], COLORS) == TotalCost(cost)
  {
    hide Safe, Valid;
    assert payments[i] in payments;
    if Safe(pool, cost) { ValidTotal(pool, cost, payments[i]); }
  }

  /** An enumerated payment is always payable, and paying it keeps pool plus paid colour by colour. */
  lemma PaymentConserves(pool: Dice, paid: Dice, payment: Dice)
    requires Within(payment, pool)
    ensures forall c :: 0 <= c < COLORS && payment[c] != 0 ==> payment[c] <= pool[c]
    ensures forall c :: 0 <= c < COLORS ==>
      0 <= Minus(pool, payment)[c] && Minus(pool, payment)[c] + Plus(paid, payment)[c] == pool[c] + paid[c]
    ensures Sum(Minus(pool, payment), COLORS) == Sum(pool, COLORS) - Sum(payment, COLORS)
  {
    SumMinus(pool, payment, COLORS);
  }
}
