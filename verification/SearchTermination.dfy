/** Search as a whole (gicg_mcts/search.go): the goroutine that hands out the rollouts, the workers that run
    them, and the dispatcher, connected by bounded channels.  What a rollout does to the tree is left out;
    that Search cannot deadlock and always returns is shown here. */
module SearchTermination {
  import opened Dispatcher

  /** Rolling: in a descent.  AtLeaf: about to queue its job.  Awaiting: blocked on the job's signal. */
  datatype Worker = Resting | Rolling | AtLeaf | Awaiting(job: Job) | Finished

  /** `left` rollouts have not been handed out; `queued` are in the work channel, which is open or closed. */
  datatype Whole = Whole(left: nat, queued: nat, feeding: bool, workers: seq<Worker>, d: State)

  datatype Move =
    | HandOut | CloseWork
    | Draw(w: nat) | Reach(w: nat) | End(w: nat, error: bool) | Queue(w: nat) | Wake(w: nat) | Quit(w: nat)
    | CloseSends
    | Dispatch(e: Step)

  predicate AllFinished(s: Whole) { forall w :: 0 <= w < |s.workers| ==> s.workers[w].Finished? }

  predicate CanMove(s: Whole, par: nat, m: Move) {
    match m
    case HandOut => s.left > 0 && s.queued < 2 * par
    case CloseWork => s.left == 0 && s.feeding
    case Draw(w) => w < |s.workers| && s.workers[w].Resting? && s.queued > 0
    case Reach(w) => w < |s.workers| && s.workers[w].Rolling?
    case End(w, _) => w < |s.workers| && s.workers[w].Rolling?
    case Queue(w) => w < |s.workers| && s.workers[w].AtLeaf? && Enabled(s.d, par, Submit)
    case Wake(w) => w < |s.workers| && s.workers[w].Awaiting? && s.workers[w].job in s.d.closed
    case Quit(w) => w < |s.workers| && s.workers[w].Resting? && s.queued == 0 && !s.feeding
    case CloseSends => AllFinished(s) && s.d.open
    case Dispatch(e) => Dispatching(e) && Enabled(s.d, par, e)
  }

  /** A drawn rollout is dropped when the error flag is up.  A rollout ends in a terminal state or with an
      error, which raises the flag. */
  function Moved(s: Whole, par: nat, m: Move): Whole
    requires CanMove(s, par, m)
  {
    match m
    case HandOut => s.(left := s.left - 1, queued := s.queued + 1)
    case CloseWork => s.(feeding := false)
    case Draw(w) => s.(queued := s.queued - 1, workers := if s.d.err then s.workers else s.workers[w := Rolling])
    case Reach(w) => s.(workers := s.workers[w := AtLeaf])
    case End(w, error) => s.(workers := s.workers[w := Resting], d := if error then Next(s.d, par, WorkerError) else s.d)
    case Queue(w) => s.(workers := s.workers[w := Awaiting(s.d.handed)], d := Next(s.d, par, Submit))
    case Wake(w) => s.(workers := s.workers[w := Resting])
    case Quit(w) => s.(workers := s.workers[w := Finished])
    case CloseSends => s.(d := Next(s.d, par, CloseSend))
    case Dispatch(e) => s.(d := Next(s.d, par, e))
  }

  predicate Begins(s: Whole, par: nat) {
    |s.workers| == par && (forall w :: 0 <= w < par ==> s.workers[w].Resting?) && s.queued == 0 && s.feeding && Initial(s.d)
  }

  /** The goroutine that hands out rollouts, the workers and both dispatcher stages have come to their ends. */
  predicate Returns(s: Whole) { s.left == 0 && !s.feeding && AllFinished(s) && !s.d.open && s.d.receiver.Gone? }

  ghost predicate IsHistory(par: nat, states: seq<Whole>, moves: seq<Move>) {
    && |states| == |moves| + 1 && Begins(states[0], par)
    && forall i :: 0 <= i < |moves| ==> CanMove(states[i], par, moves[i]) && states[i + 1] == Moved(states[i], par, moves[i])
  }

  // ---- Invariant ----

  ghost predicate Sound(s: Whole, par: nat) {
    && |s.workers| == par && Inv(s.d)
    && (forall w :: 0 <= w < par && s.workers[w].Awaiting? ==> s.workers[w].job < s.d.handed)
    && (!s.feeding ==> s.left == 0)
    && (!s.d.open ==> AllFinished(s))
    && (forall w :: 0 <= w < par && s.workers[w].Finished? ==> s.queued == 0 && !s.feeding)
  }

  lemma NextHanded(d: State, par: nat, e: Step)
    requires Enabled(d, par, e)
    ensures Next(d, par, e).handed >= d.handed && (!Next(d, par, e).open <==> !d.open || e.CloseSend?)
  {
  }

  lemma MoveSound(s: Whole, par: nat, m: Move)
    requires Sound(s, par) && CanMove(s, par, m)
    ensures Sound(Moved(s, par, m), par)
  {
    hide Inv, Next, Enabled;
    match m
    case End(w, error) => if error { DispatcherSound(s.d, par, WorkerError); }
    case Queue(w) =>
      DispatcherSound(s.d, par, Submit);
      Numbered(s.d, par);
    case CloseSends => DispatcherSound(s.d, par, CloseSend);
    case Dispatch(e) => DispatcherSound(s.d, par, e);
    case _ =>
  }

  lemma Numbered(d: State, par: nat)
    requires Enabled(d, par, Submit)
    ensures d.handed < Next(d, par, Submit).handed
  {
  }

  lemma DispatcherSound(d: State, par: nat, e: Step)
    requires Inv(d) && (Enabled(d, par, e) || e.WorkerError? || (e.CloseSend? && d.open))
    ensures Enabled(d, par, e) && Inv(Next(d, par, e))
    ensures Next(d, par, e).handed >= d.handed && (!Next(d, par, e).open <==> !d.open || e.CloseSend?)
  {
    hide Inv;
    StepInv(d, par, e);
    NextHanded(d, par, e);
  }

  lemma {:induction false} HistorySound(par: nat, states: seq<Whole>, moves: seq<Move>, i: nat)
    requires IsHistory(par, states, moves) && i < |states|
    ensures Sound(states[i], par)
  {
    if i == 0 {
      InitialInv(states[0].d);
    } else {
      hide Sound;
      HistorySound(par, states, moves, i - 1);
      MoveSound(states[i - 1], par, moves[i - 1]);
    }
  }

  // ---- Search cannot deadlock ----

  /** A full queue holds a job that is not closed. */
  lemma QueuedIsOpen(d: State)
    requires Inv(d) && d.sendCh != []
    ensures d.sendCh[0] < d.handed && d.sendCh[0] !in d.closed
  {
    var j := d.sendCh[0];
    assert Count(d.sendCh, j) >= 1;
    assert Held(d, j) >= Count(d.sendCh, j) + Count(d.closed, j);
  }

  lemma WorkerCanMove(s: Whole, par: nat, w: nat) returns (m: Move)
    requires par > 0 && Sound(s, par) && w < par && !s.workers[w].Finished?
    ensures CanMove(s, par, m)
  {
    hide Inv;
    match s.workers[w]
    case Resting =>
      if s.queued > 0 { m := Draw(w); }
      else if s.left > 0 { m := HandOut; }
      else if s.feeding { m := CloseWork; }
      else { m := Quit(w); }
    case Rolling => m := Reach(w);
    case AtLeaf =>
      if |s.d.sendCh| < par { return Queue(w); }
      QueuedIsOpen(s.d);
      var e := StageCanStep(par, s.d);
      m := Dispatch(e);
    case Awaiting(job) =>
      if job in s.d.closed { return Wake(w); }
      var e := StageCanStep(par, s.d);
      m := Dispatch(e);
    case _ =>
  }

  /** At every moment of every run, unless Search is returning, some goroutine can move. */
  lemma SomeoneMoves(par: nat, states: seq<Whole>, moves: seq<Move>, i: nat) returns (m: Move)
    requires par > 0 && IsHistory(par, states, moves) && i < |states| && !Returns(states[i])
    ensures CanMove(states[i], par, m)
  {
    HistorySound(par, states, moves, i);
    var s := states[i];
    if w: nat :| w < par && !s.workers[w].Finished? {
      m := WorkerCanMove(s, par, w);
      return;
    }
    if s.d.open { return CloseSends; }
    assert s.workers[0].Finished?;
    hide Inv;
    var e := StageCanStep(par, s.d);
    m := Dispatch(e);
  }

  // ---- Search comes to an end ----

  function Load(w: Worker): nat {
    match w case Resting => 1 case Rolling => 20 case AtLeaf => 19 case Awaiting(_) => 10 case Finished => 0
  }

  function Loads(workers: seq<Worker>): nat {
    if workers == [] then 0 else Loads(workers[..|workers| - 1]) + Load(workers[|workers| - 1])
  }

  /** What is left to do. */
  function Remaining(s: Whole): nat {
    26 * s.left + 25 * s.queued + (if s.feeding then 1 else 0) + Loads(s.workers) + Work(s.d) + (if s.d.open then 1 else 0)
  }

  lemma {:induction false} LoadsUpdate(workers: seq<Worker>, w: nat, x: Worker)
    requires w < |workers|
    ensures Loads(workers[w := x]) == Loads(workers) - Load(workers[w]) + Load(x)
  {
    var last := |workers| - 1;
    if w < last {
      LoadsUpdate(workers[..last], w, x);
      assert workers[w := x][..last] == workers[..last][w := x];
    } else {
      assert workers[w := x][..last] == workers[..last];
    }
  }

  /** Every move reduces it, so no run goes on for ever. */
  lemma MoveShrinks(s: Whole, par: nat, m: Move)
    requires CanMove(s, par, m)
    ensures Remaining(Moved(s, par, m)) < Remaining(s)
  {
    hide Loads;
    match m
    case Draw(w) => LoadsUpdate(s.workers, w, Rolling);
    case Reach(w) => LoadsUpdate(s.workers, w, AtLeaf);
    case End(w, _) => LoadsUpdate(s.workers, w, Resting);
    case Queue(w) => LoadsUpdate(s.workers, w, Awaiting(s.d.handed));
    case Wake(w) => LoadsUpdate(s.workers, w, Resting);
    case Quit(w) => LoadsUpdate(s.workers, w, Finished);
    case Dispatch(e) =>
      WorkShrinks(s.d, par, e);
      OpenKept(s.d, par, e);
      hide Next, Work;
    case _ =>
  }

  lemma OpenKept(d: State, par: nat, e: Step)
    requires Dispatching(e) && Enabled(d, par, e)
    ensures Next(d, par, e).open == d.open
  {
  }

  /** However the goroutines are scheduled, they make at most as many moves as there was left to do. */
  lemma {:induction false} RunIsFinite(par: nat, states: seq<Whole>, moves: seq<Move>)
    requires IsHistory(par, states, moves)
    ensures |moves| + Remaining(states[|moves|]) <= Remaining(states[0])
    decreases |moves|
  {
    hide Remaining, Moved, CanMove, Begins;
    if moves != [] {
      var n := |moves| - 1;
      assert CanMove(states[n], par, moves[n]) && states[n + 1] == Moved(states[n], par, moves[n]);
      assert IsHistory(par, states[..n + 1], moves[..n]);
      RunIsFinite(par, states[..n + 1], moves[..n]);
      MoveShrinks(states[n], par, moves[n]);
    }
  }

  /** Whatever the goroutines have done so far, they come to the end of Search, and there every rollout has
      been handed out and drawn and every job closed exactly once. */
  lemma {:induction false} SearchReturns(par: nat, states: seq<Whole>, moves: seq<Move>) returns (states': seq<Whole>, moves': seq<Move>)
    requires par > 0 && IsHistory(par, states, moves)
    ensures IsHistory(par, states', moves') && states <= states' && moves <= moves'
    ensures var s := states'[|moves'|]; Returns(s) && s.queued == 0 && forall j: Job :: j < s.d.handed ==> multiset(s.d.closed)[j] == 1
    decreases Remaining(states[|moves|])
  {
    hide CanMove, Moved, Remaining, Begins, Returns;
    var s := states[|moves|];
    if Returns(s) {
      states', moves' := states, moves;
      HistorySound(par, states, moves, |moves|);
      ReturnedSound(s, par);
    } else {
      var m := SomeoneMoves(par, states, moves, |moves|);
      MoveShrinks(s, par, m);
      assert IsHistory(par, states + [Moved(s, par, m)], moves + [m]);
      states', moves' := SearchReturns(par, states + [Moved(s, par, m)], moves + [m]);
    }
  }

  lemma ReturnedSound(s: Whole, par: nat)
    requires par > 0 && Sound(s, par) && Returns(s)
    ensures s.queued == 0 && forall j: Job :: j < s.d.handed ==> multiset(s.d.closed)[j] == 1
  {
    assert s.workers[0].Finished?;
    forall j: Job | j < s.d.handed ensures multiset(s.d.closed)[j] == 1 { assert Held(s.d, j) == Count(s.d.closed, j); }
  }

  // ---- Without an error, every rollout runs ----

  /** Rollouts that have come to an end: at once, or after their job was closed. */
  function Ended(moves: seq<Move>): nat {
    if moves == [] then 0 else Ended(moves[..|moves| - 1]) + match moves[|moves| - 1] case End(_, _) => 1 case Wake(_) => 1 case _ => 0
  }

  function Busy(workers: seq<Worker>): nat {
    if workers == [] then 0 else
      Busy(workers[..|workers| - 1]) + match workers[|workers| - 1] case Resting => 0 case Finished => 0 case _ => 1
  }

  lemma {:induction false} BusyUpdate(workers: seq<Worker>, w: nat, x: Worker)
    requires w < |workers|
    ensures Busy(workers[w := x]) == Busy(workers) - Busy([workers[w]]) + Busy([x])
  {
    var last := |workers| - 1;
    if w < last {
      BusyUpdate(workers[..last], w, x);
      assert workers[w := x][..last] == workers[..last][w := x];
    } else {
      assert workers[w := x][..last] == workers[..last];
    }
  }

  /** A move takes a rollout from one place to the next, unless it drops one while the error flag is up. */
  lemma MoveAccounts(s: Whole, par: nat, m: Move)
    requires CanMove(s, par, m) && !s.d.err
    ensures var t := Moved(s, par, m);
      t.left + t.queued + Busy(t.workers) + Ended([m]) == s.left + s.queued + Busy(s.workers)
  {
    hide Next, Enabled;
    match m
    case Draw(w) => BusyUpdate(s.workers, w, Rolling);
    case Reach(w) => BusyUpdate(s.workers, w, AtLeaf);
    case End(w, _) => BusyUpdate(s.workers, w, Resting);
    case Queue(w) => BusyUpdate(s.workers, w, Awaiting(s.d.handed));
    case Wake(w) => BusyUpdate(s.workers, w, Resting);
    case Quit(w) => BusyUpdate(s.workers, w, Finished);
    case _ =>
  }

  lemma FlagStays(s: Whole, par: nat, m: Move)
    requires CanMove(s, par, m) && s.d.err
    ensures Moved(s, par, m).d.err
  {
  }

  lemma {:induction false} RolloutsAccounted(par: nat, states: seq<Whole>, moves: seq<Move>)
    requires IsHistory(par, states, moves) && !states[|moves|].d.err
    ensures var s := states[|moves|]; s.left + s.queued + Busy(s.workers) + Ended(moves) == states[0].left
    decreases |moves|
  {
    hide Moved, CanMove;
    if moves == [] {
      NobodyBusy(states[0].workers);
    } else {
      var n := |moves| - 1;
      assert CanMove(states[n], par, moves[n]) && states[n + 1] == Moved(states[n], par, moves[n]);
      if states[n].d.err { FlagStays(states[n], par, moves[n]); }
      assert IsHistory(par, states[..n + 1], moves[..n]);
      RolloutsAccounted(par, states[..n + 1], moves[..n]);
      MoveAccounts(states[n], par, moves[n]);
      assert Ended(moves) == Ended(moves[..n]) + Ended([moves[n]]) by { assert [moves[n]][..0] == []; }
    }
  }

  lemma {:induction false} NobodyBusy(workers: seq<Worker>)
    requires forall w :: 0 <= w < |workers| ==> workers[w].Resting? || workers[w].Finished?
    ensures Busy(workers) == 0
  {
    if workers != [] { NobodyBusy(workers[..|workers| - 1]); }
  }

  /** A search that returns without an error has brought every rollout it was asked for to its end. */
  lemma EveryRolloutEnds(par: nat, states: seq<Whole>, moves: seq<Move>)
    requires par > 0 && IsHistory(par, states, moves) && Returns(states[|moves|]) && !states[|moves|].d.err
    ensures Ended(moves) == states[0].left
  {
    var s := states[|moves|];
    RolloutsAccounted(par, states, moves);
    NobodyBusy(s.workers);
    HistorySound(par, states, moves, |moves|);
    ReturnedSound(s, par);
  }
}
