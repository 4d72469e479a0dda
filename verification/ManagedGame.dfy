/** The game object that suspends and resumes operations (gicg_engine/continuation.go), proved against
    the run that keeps its stack. */
module ManagedGame {
  import opened Continuation

  datatype StepResult = Continue | NeedTarget | Done | Panicked

  datatype Outcome = Returned | Suspended | Broken

  /** A snapshot taken at a decision point; the suspension is shared, immutable data. */
  datatype Snapshot = Snapshot(rules: Rules, pending: Option<Request>, resume: Option<Suspension>)

  class Game {
    const book: Rulebook
    var rules: Rules
    var pending: Option<Request>
    var resume: Option<Suspension>
    var log: int
    var records: seq<Record>
    var choices: seq<Choice>   // of the running execution
    var next: nat              // its cursor
    var failed: bool

    constructor (book: Rulebook, rules: Rules, log: int)
      requires book.Terminating()
      ensures Valid() && this.book == book && this.rules == rules && this.log == log
      ensures pending.None? && resume.None? && records == [] && !failed
    {
      this.book, this.rules, this.log := book, rules, log;
      pending, resume, records, choices, next, failed := None, None, [], [], 0, false;
    }

    /** A waiting game holds a suspension whose rebuilt stack waits for the pending request. */
    ghost predicate Consistent(s: Snapshot)
      requires book.Terminating()
    {
      match s.resume
      case None => s.pending.None?
      case Some(c) =>
        && Recorded(book, c.op, c.root, c.choices)
        && StackOf(book, c).Waiting?
        && s.pending == Some(StackOf(book, c).request)
    }

    ghost predicate Valid()
      reads this
    {
      book.Terminating() && Consistent(Snapshot(rules, pending, resume))
    }

    /** The visible state after an operation stopped at `stop`, its log records after `base`. */
    ghost predicate Shows(stop: Stop, base: seq<Record>)
      reads this
      requires book.Terminating()
    {
      match stop
      case Finished(r, more) => !failed && rules == r && pending.None? && resume.None? && records == base + more
      case Waiting(request, r, more, _) =>
        && !failed && rules == r && pending == Some(request) && records == base + more
        && resume.Some? && Recorded(book, resume.value.op, resume.value.root, resume.value.choices)
        && StackOf(book, resume.value) == stop
      case Failed => failed
    }

    method FailRule()
      modifies this
      ensures failed && rules == old(rules) && pending == old(pending) && resume == old(resume)
      ensures choices == old(choices) && log == old(log) && records == old(records)
    {
      failed := true;
    }

    /** requestDeferredInput / requestDiceInput: suspends at the first request without a recorded
        choice, otherwise installs the choice's state and hands its action over. */
    method RequestInput(request: Request) returns (outcome: Outcome, action: Action)
      requires book.Terminating() && next <= |choices| && !failed
      modifies this
      ensures choices == old(choices) && resume == old(resume) && log == old(log)
      ensures if |book.Legal(old(rules), request)| == 0 then outcome == Broken && failed
              else if old(next) == |choices|
              then outcome == Suspended && pending == Some(request) && !failed
                   && rules == old(rules) && records == old(records) && next == old(next)
              else if Accepts(book, request, choices[old(next)])
              then outcome == Returned && pending.None? && !failed
                   && rules == choices[old(next)].rules && action == choices[old(next)].action
                   && next == old(next) + 1 && records == old(records) + [book.logged(rules, action)]
              else outcome == Broken && failed
      ensures outcome == Returned ==>
        match request
        case Switch(p) => action.SwitchTo? && action.player == p && action.forced
        case Dice(f) =>
          && action.Reroll? && action.player == f.player && action.color == f.color
          && choices[old(next)].pending == Some(Dice(f))
          && action.count <= (if f.color < |f.pool| then f.pool[f.color] else 0)
    {
      action := Reroll(0, 0, 0);
      if |book.Legal(rules, request)| == 0 {
        FailRule();
        return Broken, action;
      }
      pending := Some(request);
      if next == |choices| { return Suspended, action; }
      var choice := choices[next];
      next := next + 1;
      if !Accepts(book, request, choice) {
        FailRule();
        return Broken, action;
      }
      rules, pending := choice.rules, None;
      records := records + [book.logged(rules, choice.action)];
      return Returned, choice.action;
    }

    /** Runs an operation from control state f until it returns, suspends or fails. */
    method Invoke(f: Frame, ghost base: seq<Record>, ghost done: seq<Record>) returns (outcome: Outcome)
      requires book.Terminating() && next <= |choices| && !failed && pending.None? && records == base + done
      modifies this
      ensures choices == old(choices) && resume == old(resume) && log == old(log)
      ensures var (stop, n) := Replay(book, f, old(rules), done, choices, old(next));
        match stop
        case Finished(r, more) => outcome == Returned && !failed && rules == r && pending.None? && records == base + more && next == n
        case Waiting(request, r, more, _) =>
          outcome == Suspended && !failed && rules == r && pending == Some(request) && records == base + more && next == n
        case Failed => outcome == Broken && failed
      decreases book.asks(f), book.steps(f, rules)
    {
      match book.code(f, rules) {
        case Halt => outcome := Returned;
        case Effect(rules', more, f') =>
          rules, records := rules', records + more;
          assert records == base + (done + more);
          outcome := Invoke(f', base, done + more);
        case Ask(request, resume) =>
          var answer: Action;
          outcome, answer := RequestInput(request);
          if outcome == Returned {
            ghost var done' := done + [book.logged(rules, answer)];
            assert records == base + done';
            outcome := Invoke(resume(answer), base, done');
          }
      }
    }

    /** runExecution: invokes the operation and turns a suspension into a waiting state. */
    method RunExecution(s: Suspension) returns (result: StepResult)
      requires book.Terminating() && !failed && pending.None? && rules == s.root
      requires Recorded(book, s.op, s.root, s.choices)
      modifies this
      ensures Shows(StackOf(book, s), old(records)) && log == old(log)
      ensures StackOf(book, s).Waiting? ==> resume == Some(s) && Valid()
      ensures StackOf(book, s).Finished? ==> Valid()
      ensures result == (match StackOf(book, s) case Finished(_, _) => Done case Waiting(_, _, _, _) => NeedTarget case Failed => Panicked)
    {
      resume, choices, next := None, s.choices, 0;
      ReplayIsKept(book, s.op, s.root, s.choices);
      var outcome := Invoke(s.op, records, []);
      match outcome
      case Suspended =>
        resume := Some(s);
        return NeedTarget;
      case Broken => return Panicked;
      case Returned =>
        // The code's "did not reach its recorded input boundary" failure cannot occur.
        if next != |choices| { assert false; }
        return Done;
    }

    /** runBoundary at the top level: starts an operation, or refuses while one is suspended. */
    method RunBoundary(op: Frame) returns (result: StepResult)
      requires Valid() && !failed
      modifies this
      ensures old(resume).Some? ==>
                (result == NeedTarget && Valid() && !failed && rules == old(rules) && pending == old(pending)
                 && resume == old(resume) && records == old(records))
      ensures old(resume).None? ==> Shows(Advance(book, op, old(rules), []), old(records)) && (!failed ==> Valid())
      ensures log == old(log)
    {
      if resume.Some? { return NeedTarget; }
      var s := Suspension(rules, op, [], LogMark(log, |records|));
      assert StackOf(book, s) == Advance(book, op, rules, []);
      result := RunExecution(s);
    }

    /** logBoundary.rewind: cuts the log back to the start of the operation, if it is still that log. */
    method Rewind(mark: LogMark)
      requires !failed
      modifies this
      ensures rules == old(rules) && pending == old(pending) && resume == old(resume) && log == old(log)
      ensures failed <==> log == mark.log && |old(records)| < mark.length
      ensures !failed ==> records == if log == mark.log then old(records)[..mark.length] else old(records)
    {
      if log != mark.log { return; }
      if |records| < mark.length {
        FailRule();
        return;
      }
      records := records[..mark.length];
    }

    /** The game after the suspended operation got this answer: it shows what the kept stack shows, unless the
        part of the log before the operation is gone. */
    ghost predicate Answered(s: Suspension, rules0: Rules, records0: seq<Record>, action: Action)
      reads this
      requires book.Terminating() && StackOf(book, s).Waiting?
    {
      if log == s.mark.log && |records0| < s.mark.length then failed
      else Shows(Answer(book, StackOf(book, s), rules0, action), if log == s.mark.log then records0[..s.mark.length] else records0)
    }

    /** resumeTarget: answers the pending request by rebuilding the operation from its root.  An index
        out of range changes nothing.  Otherwise the game shows exactly what the kept stack shows when
        it continues with that answer in the current state. */
    method ResumeTarget(index: int) returns (result: StepResult)
      requires Valid() && !failed && resume.Some?
      modifies this
      ensures log == old(log) && (!failed ==> Valid())
      ensures match old(pending).value
        case Dice(f) =>
          var most := if f.color < |f.pool| then f.pool[f.color] else 0;
          if 0 <= index <= most then Answered(old(resume).value, old(rules), old(records), Reroll(f.player, index, f.color))
          else result == Continue && !failed && rules == old(rules) && pending == old(pending) && resume == old(resume) && records == old(records)
        case Switch(p) =>
          var chars := book.targets(old(rules), p);
          if 0 <= index < |chars| then Answered(old(resume).value, old(rules), old(records), SwitchTo(p, chars[index], true))
          else result == Continue && !failed && rules == old(rules) && pending == old(pending) && resume == old(resume) && records == old(records)
      ensures var mark, stack := old(resume).value.mark, StackOf(book, old(resume).value);
        var legal := book.Legal(old(rules), old(pending).value);
        if index < 0 || index >= |legal| then
          result == Continue && !failed && rules == old(rules) && pending == old(pending)
          && resume == old(resume) && records == old(records)
        else if log == mark.log && |old(records)| < mark.length then failed && result == Panicked
        else
          var base := if log == mark.log then old(records)[..mark.length] else old(records);
          var record := book.logged(old(rules), legal[index]);
          && Shows(Answer(book, stack, old(rules), legal[index]), base)
          && (!failed && log == mark.log && old(records) == base + stack.records ==> old(records) + [record] <= records)
    {
      hide Recorded, StackOf, Answer, Accepts;
      var actions := book.Legal(rules, pending.value);
      if index < 0 || index >= |actions| { return Continue; }
      var c := resume.value;
      var choice := Choice(rules, pending, actions[index]);
      var s := c.(choices := c.choices + [choice]);
      ExtendRecorded(book, c, choice);
      rules, pending := c.root, None;
      Rewind(c.mark);
      if failed { return Panicked; }
      AnswerExtends(book, StackOf(book, c), choice.rules, choice.action);
      result := RunExecution(s);
    }

    /** SnapshotPooled. */
    method Snap() returns (s: Snapshot)
      requires Valid() && !failed
      ensures s == Snapshot(rules, pending, resume) && Consistent(s)
    {
      s := Snapshot(rules, pending, resume);
    }

    /** RestoreFromSnap: any snapshot of this game, in particular one taken while an operation waited,
        however often that operation has been resumed since. */
    method Restore(s: Snapshot)
      requires Valid() && !failed && Consistent(s)
      modifies this
      ensures Valid() && !failed && s == Snapshot(rules, pending, resume)
      ensures records == old(records) && log == old(log)
    {
      rules, pending, resume := s.rules, s.pending, s.resume;
    }

    /** Changes to the hidden state while an operation waits: determinization, reseeding. */
    method Alter(rules': Rules)
      requires Valid() && !failed
      modifies this
      ensures Valid() && !failed && rules == rules' && pending == old(pending) && resume == old(resume)
      ensures records == old(records) && log == old(log)
    {
      rules := rules';
    }
  }

  lemma ExtendRecorded(book: Rulebook, c: Suspension, choice: Choice)
    requires book.Terminating() && Recorded(book, c.op, c.root, c.choices) && StackOf(book, c).Waiting?
    requires choice.pending == Some(StackOf(book, c).request)
    requires choice.action in book.Legal(choice.rules, StackOf(book, c).request)
    ensures var s := c.(choices := c.choices + [choice]);
      && Recorded(book, s.op, s.root, s.choices)
      && StackOf(book, s) == Answer(book, StackOf(book, c), choice.rules, choice.action)
  {
    var all := c.choices + [choice];
    assert all[..|c.choices|] == c.choices;
    forall i | 0 <= i < |all|
      ensures Kept(book, c.op, c.root, all[..i]).Waiting? && Accepts(book, Kept(book, c.op, c.root, all[..i]).request, all[i])
    {
      if i < |c.choices| {
        assert all[..i] == c.choices[..i];
      } else {
        LegalAccepted(book, StackOf(book, c).request, choice);
      }
    }
  }

  lemma {:induction false} AdvanceExtends(book: Rulebook, f: Frame, rules: Rules, records: seq<Record>)
    requires book.Terminating()
    ensures var stop := Advance(book, f, rules, records); !stop.Failed? ==> records <= stop.records
    decreases book.asks(f), book.steps(f, rules)
  {
    match book.code(f, rules)
    case Effect(rules', more, next) => AdvanceExtends(book, next, rules', records + more);
    case _ =>
  }

  /** Continuing a kept stack only adds to what it has logged. */
  lemma AnswerExtends(book: Rulebook, stop: Stop, rules: Rules, action: Action)
    requires book.Terminating() && stop.Waiting?
    ensures var stop' := Answer(book, stop, rules, action);
      !stop'.Failed? ==> stop.records + [book.logged(rules, action)] <= stop'.records
  {
    AdvanceExtends(book, stop.resume(action), rules, stop.records + [book.logged(rules, action)]);
  }

  /** A legal answer passes the identity checks of the replay. */
  lemma LegalAccepted(book: Rulebook, request: Request, choice: Choice)
    requires choice.pending == Some(request) && choice.action in book.Legal(choice.rules, request)
    ensures Accepts(book, request, choice)
  {
  }
}
