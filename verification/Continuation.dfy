/** gicg_engine/continuation.go: operations that pause for player input and are later rebuilt by running
    them again from their start. */
module Continuation {

  /** Gameplay state other than the pending request: counters, buffs, players, random generators. */
  type Rules(!new)

  /** The control state of a running operation: its native stack, DSL locals and event frames. */
  type Frame(!new)

  type Record(!new)

  datatype Option<T> = None | Some(value: T)

  /** A dice decision frame; `color == |pool|` asks for confirmation. */
  datatype DiceSelection = DiceSelection(player: nat, remaining: nat, color: nat, pool: seq<nat>, selected: seq<nat>)

  datatype Request = Switch(player: nat) | Dice(frame: DiceSelection)

  datatype Action = SwitchTo(player: nat, slot: nat, forced: bool) | Reroll(player: nat, count: nat, color: nat)

  /** What an operation does next, given its control state and the gameplay state. */
  datatype Instr =
    | Halt
    | Effect(rules: Rules, records: seq<Record>, next: Frame)
    | Ask(request: Request, resume: Action -> Frame)

  /** The rules of one game: the deterministic code of every operation, the legal replacements for a
      forced switch, the log record of an answer, and bounds on the requests and steps still to come. */
  datatype Rulebook = Rulebook(
    code: (Frame, Rules) -> Instr,
    targets: (Rules, nat) -> seq<nat>,
    logged: (Rules, Action) -> Record,
    asks: Frame -> nat,
    steps: (Frame, Rules) -> nat)
  {
    ghost predicate Terminating() {
      && (forall f, r :: code(f, r).Effect? ==>
            var i := code(f, r);
            asks(i.next) < asks(f) || (asks(i.next) == asks(f) && steps(i.next, i.rules) < steps(f, r)))
      && (forall f, r, a :: code(f, r).Ask? ==> asks(code(f, r).resume(a)) < asks(f))
    }

    /** forcedSwitchActions and diceSelectionActions. */
    function Legal(rules: Rules, request: Request): seq<Action> {
      match request
      case Switch(p) =>
        var chars := targets(rules, p);
        seq(|chars|, i requires 0 <= i < |chars| => SwitchTo(p, chars[i], true))
      case Dice(f) =>
        var max := if f.color < |f.pool| then f.pool[f.color] else 0;
        seq(max + 1, i requires 0 <= i <= max => Reroll(f.player, i, f.color))
    }
  }

  datatype Choice = Choice(rules: Rules, pending: Option<Request>, action: Action)

  /** The checks requestDeferredInput and requestDiceInput make on a recorded choice. */
  predicate Accepts(book: Rulebook, request: Request, choice: Choice) {
    match request
    case Switch(p) => choice.action.SwitchTo? && choice.action.player == p && choice.action.forced
    case Dice(f) =>
      && choice.action.Reroll? && choice.action.player == f.player && choice.action.color == f.color
      && choice.pending == Some(request) && choice.action.count < |book.Legal(choice.rules, request)|
  }

  datatype LogMark = LogMark(log: int, length: nat)

  datatype Suspension = Suspension(root: Rules, op: Frame, choices: seq<Choice>, mark: LogMark)

  // ---- A run that keeps its stack ----

  /** Where a run comes to rest; `records` is everything it has logged. */
  datatype Stop =
    | Finished(rules: Rules, records: seq<Record>)
    | Waiting(request: Request, rules: Rules, records: seq<Record>, resume: Action -> Frame)
    | Failed

  ghost function Advance(book: Rulebook, f: Frame, rules: Rules, records: seq<Record>): Stop
    requires book.Terminating()
    decreases book.asks(f), book.steps(f, rules)
  {
    match book.code(f, rules)
    case Halt => Finished(rules, records)
    case Effect(rules', more, next) => Advance(book, next, rules', records + more)
    case Ask(request, resume) =>
      if |book.Legal(rules, request)| == 0 then Failed else Waiting(request, rules, records, resume)
  }

  /** Control state, gameplay state and log at one point of a run. */
  datatype Point = Point(frame: Frame, rules: Rules, records: seq<Record>)

  /** The code's effect at one point leads to the next. */
  ghost predicate Leads(book: Rulebook, at: Point, next: Point) {
    match book.code(at.frame, at.rules)
    case Effect(rules, more, frame) => next == Point(frame, rules, at.records + more)
    case _ => false
  }

  /** Points led through by the code, effect by effect. */
  ghost predicate Follows(book: Rulebook, points: seq<Point>) {
    points != [] && forall i :: 0 <= i < |points| - 1 ==> Leads(book, points[i], points[i + 1])
  }

  /** The operation stops at a point where its code halts, or asks for an input that can or cannot be given. */
  ghost predicate StopsAt(book: Rulebook, at: Point, stop: Stop) {
    match book.code(at.frame, at.rules)
    case Halt => stop == Finished(at.rules, at.records)
    case Effect(_, _, _) => false
    case Ask(Switch(p), resume) =>
      if book.targets(at.rules, p) == [] then stop == Failed else stop == Waiting(Switch(p), at.rules, at.records, resume)
    case Ask(Dice(f), resume) => stop == Waiting(Dice(f), at.rules, at.records, resume)
  }

  /** Advance does what the code says step by step, and stops where the code first halts or asks. */
  lemma {:induction false} AdvanceFollowsCode(book: Rulebook, f: Frame, rules: Rules, records: seq<Record>) returns (points: seq<Point>)
    requires book.Terminating()
    ensures Follows(book, points) && points[0] == Point(f, rules, records)
    ensures StopsAt(book, points[|points| - 1], Advance(book, f, rules, records))
    decreases book.asks(f), book.steps(f, rules)
  {
    hide Follows, StopsAt, Leads;
    var here := Point(f, rules, records);
    AdvanceStep(book, f, rules, records);
    match book.code(f, rules)
    case Effect(rules', more, next) =>
      var rest := AdvanceFollowsCode(book, next, rules', records + more);
      FollowsMore(book, here, rest);
      points := [here] + rest;
      assert points[|points| - 1] == rest[|rest| - 1] by { FollowsSome(book, rest); }
    case _ =>
      points := [here];
  }

  lemma FollowsSome(book: Rulebook, points: seq<Point>)
    requires Follows(book, points)
    ensures points != []
  {
  }

  lemma AdvanceStep(book: Rulebook, f: Frame, rules: Rules, records: seq<Record>)
    requires book.Terminating()
    ensures Follows(book, [Point(f, rules, records)])
    ensures var instr := book.code(f, rules);
      if instr.Effect? then
        && Advance(book, f, rules, records) == Advance(book, instr.next, instr.rules, records + instr.records)
        && Leads(book, Point(f, rules, records), Point(instr.next, instr.rules, records + instr.records))
      else StopsAt(book, Point(f, rules, records), Advance(book, f, rules, records))
  {
  }

  lemma FollowsMore(book: Rulebook, first: Point, rest: seq<Point>)
    requires Follows(book, rest) && Leads(book, first, rest[0])
    ensures Follows(book, [first] + rest)
  {
    hide Leads;
    var points := [first] + rest;
    forall i | 0 <= i < |points| - 1 ensures Leads(book, points[i], points[i + 1]) {
      assert points[i + 1] == rest[i];
      if i > 0 { assert points[i] == rest[i - 1] && Leads(book, rest[i - 1], rest[i - 1 + 1]); }
    }
  }

  /** The kept stack continues with an answer, in whatever state the game is by then. */
  ghost function Answer(book: Rulebook, stop: Stop, rules: Rules, action: Action): Stop
    requires book.Terminating() && stop.Waiting?
  {
    Advance(book, stop.resume(action), rules, stop.records + [book.logged(rules, action)])
  }

  ghost function Kept(book: Rulebook, op: Frame, root: Rules, choices: seq<Choice>): Stop
    requires book.Terminating()
  {
    if choices == [] then Advance(book, op, root, []) else
      var last := choices[|choices| - 1];
      var stop := Kept(book, op, root, choices[..|choices| - 1]);
      if stop.Waiting? then Answer(book, stop, last.rules, last.action) else Failed
  }

  /** The stack a suspended operation would have kept. */
  ghost function StackOf(book: Rulebook, s: Suspension): Stop
    requires book.Terminating()
  {
    Kept(book, s.op, s.root, s.choices)
  }

  /** Every recorded choice answers the request its run stopped at. */
  ghost predicate Recorded(book: Rulebook, op: Frame, root: Rules, choices: seq<Choice>)
    requires book.Terminating()
  {
    forall i :: 0 <= i < |choices| ==>
      var stop := Kept(book, op, root, choices[..i]);
      stop.Waiting? && Accepts(book, stop.request, choices[i])
  }

  // ---- A run that consumes recorded choices ----

  ghost function Replay(book: Rulebook, f: Frame, rules: Rules, records: seq<Record>, choices: seq<Choice>, next: nat): (Stop, nat)
    requires book.Terminating() && next <= |choices|
    decreases book.asks(f), book.steps(f, rules)
  {
    match book.code(f, rules)
    case Halt => (Finished(rules, records), next)
    case Effect(rules', more, f') => Replay(book, f', rules', records + more, choices, next)
    case Ask(request, resume) =>
      if |book.Legal(rules, request)| == 0 then (Failed, next)
      else if next == |choices| then (Waiting(request, rules, records, resume), next)
      else
        var c := choices[next];
        if Accepts(book, request, c)
        then Replay(book, resume(c.action), c.rules, records + [book.logged(c.rules, c.action)], choices, next + 1)
        else (Failed, next + 1)
  }

  /** A replay runs to the same stop as the kept run, then takes the next recorded choice, if any. */
  lemma {:induction false} ReplayStops(book: Rulebook, f: Frame, rules: Rules, records: seq<Record>, choices: seq<Choice>, next: nat)
    requires book.Terminating() && next <= |choices|
    ensures var stop := Advance(book, f, rules, records);
      Replay(book, f, rules, records, choices, next) ==
        if !stop.Waiting? || next == |choices| then (stop, next)
        else if Accepts(book, stop.request, choices[next])
        then var c := choices[next];
          Replay(book, stop.resume(c.action), c.rules, stop.records + [book.logged(c.rules, c.action)], choices, next + 1)
        else (Failed, next + 1)
    decreases book.asks(f), book.steps(f, rules)
  {
    match book.code(f, rules)
    case Effect(rules', more, f') => ReplayStops(book, f', rules', records + more, choices, next);
    case _ =>
  }

  lemma {:induction false} ReplayFrom(book: Rulebook, op: Frame, root: Rules, choices: seq<Choice>, k: nat, f: Frame, rules: Rules, records: seq<Record>)
    requires book.Terminating() && Recorded(book, op, root, choices) && k <= |choices|
    requires Advance(book, f, rules, records) == Kept(book, op, root, choices[..k])
    ensures Replay(book, f, rules, records, choices, k) == (Kept(book, op, root, choices), |choices|)
    decreases |choices| - k
  {
    ReplayStops(book, f, rules, records, choices, k);
    if k == |choices| {
      assert choices[..k] == choices;
    } else {
      var stop, c := Kept(book, op, root, choices[..k]), choices[k];
      var longer := choices[..k + 1];
      assert longer[..k] == choices[..k] && longer[k] == c;
      ReplayFrom(book, op, root, choices, k + 1, stop.resume(c.action), c.rules, stop.records + [book.logged(c.rules, c.action)]);
    }
  }

  /** Replaying an operation from its root with the recorded choices reaches the stop of the run that
      kept its stack, has consumed every choice, and fails only if that run failed. */
  lemma ReplayIsKept(book: Rulebook, op: Frame, root: Rules, choices: seq<Choice>)
    requires book.Terminating() && Recorded(book, op, root, choices)
    ensures Replay(book, op, root, [], choices, 0) == (Kept(book, op, root, choices), |choices|)
  {
    assert choices[..0] == [];
    ReplayFrom(book, op, root, choices, 0, op, root, []);
  }
}
