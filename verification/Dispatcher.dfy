/** The two-stage evaluation dispatcher of gicg_mcts/search.go: rollout workers queue jobs, a sender
    passes them on, a receiver writes the answers back in order.  One step per channel operation,
    error-flag access, call into the evaluator, or close of a job's signal. */
module Dispatcher {

  /** Jobs are numbered in the order in which they are queued. */
  type Job = nat

  datatype Sender = Idle | Taken(job: Job) | Sending(job: Job) | Publishing(job: Job) | Dropping(job: Job) | Exited

  datatype Receiver = Ready | Got(job: Job) | Waiting(job: Job) | Filled(job: Job) | Failing(job: Job) | Gone

  /** `handed`, `sent`, `written`, `skipped` and `closed` are history, each in the order of its events. */
  datatype State = State(
    sendCh: seq<Job>, open: bool, sender: Sender, pending: seq<Job>, receiver: Receiver, err: bool,
    handed: nat, sent: seq<Job>, written: seq<Job>, skipped: seq<Job>, closed: seq<Job>)

  datatype Step =
    | Submit | CloseSend | WorkerError
    | TakeJob | CheckSend | SendOk | SendFails | Publish | DropJob | SenderExit
    | TakePending | CheckReceive | ReceiveOk | ReceiveFails | Signal | ReceiverExit

  /** The steps of the two dispatcher goroutines. */
  predicate Dispatching(e: Step) { !e.Submit? && !e.CloseSend? && !e.WorkerError? }

  predicate Enabled(s: State, par: nat, e: Step) {
    match e
    case Submit => s.open && |s.sendCh| < par
    case CloseSend => s.open
    case WorkerError => true
    case TakeJob => s.sender.Idle? && s.sendCh != []
    case CheckSend => s.sender.Taken?
    case SendOk => s.sender.Sending?
    case SendFails => s.sender.Sending?
    case Publish => s.sender.Publishing? && |s.pending| < par
    case DropJob => s.sender.Dropping?
    case SenderExit => s.sender.Idle? && s.sendCh == [] && !s.open
    case TakePending => s.receiver.Ready? && s.pending != []
    case CheckReceive => s.receiver.Got?
    case ReceiveOk => s.receiver.Waiting?
    case ReceiveFails => s.receiver.Waiting?
    case Signal => s.receiver.Filled? || s.receiver.Failing?
    case ReceiverExit => s.receiver.Ready? && s.pending == [] && s.sender.Exited?
  }

  function Next(s: State, par: nat, e: Step): State
    requires Enabled(s, par, e)
  {
    match e
    case Submit => s.(sendCh := s.sendCh + [s.handed], handed := s.handed + 1)
    case CloseSend => s.(open := false)
    case WorkerError => s.(err := true)
    case TakeJob => s.(sender := Taken(s.sendCh[0]), sendCh := s.sendCh[1..])
    case CheckSend => s.(sender := if s.err then Dropping(s.sender.job) else Sending(s.sender.job))
    case SendOk => s.(sender := Publishing(s.sender.job), sent := s.sent + [s.sender.job])
    case SendFails => s.(sender := Dropping(s.sender.job), err := true)
    case Publish => s.(sender := Idle, pending := s.pending + [s.sender.job])
    case DropJob => s.(sender := Idle, closed := s.closed + [s.sender.job])
    case SenderExit => s.(sender := Exited)
    case TakePending => s.(receiver := Got(s.pending[0]), pending := s.pending[1..])
    case CheckReceive =>
      if s.err then s.(receiver := Failing(s.receiver.job), skipped := s.skipped + [s.receiver.job])
      else s.(receiver := Waiting(s.receiver.job))
    case ReceiveOk => s.(receiver := Filled(s.receiver.job), written := s.written + [s.receiver.job])
    case ReceiveFails =>
      s.(receiver := Failing(s.receiver.job), skipped := s.skipped + [s.receiver.job], err := true)
    case Signal => s.(receiver := Ready, closed := s.closed + [s.receiver.job])
    case ReceiverExit => s.(receiver := Gone)
  }

  predicate Initial(s: State) {
    s == State([], true, Idle, [], Ready, false, 0, [], [], [], [])
  }

  ghost predicate IsRun(par: nat, states: seq<State>, steps: seq<Step>) {
    && |states| == |steps| + 1 && Initial(states[0])
    && forall i :: 0 <= i < |steps| ==> Enabled(states[i], par, steps[i]) && states[i + 1] == Next(states[i], par, steps[i])
  }

  // ---- Invariants ----

  /** Sent jobs whose fate the receiver has not decided. */
  function Undecided(r: Receiver): seq<Job> {
    if r.Got? || r.Waiting? then [r.job] else []
  }

  function Unpublished(s: Sender): seq<Job> { if s.Publishing? then [s.job] else [] }

  /** What has been sent is answered, then skipped, then being received, then pending, in this order. */
  predicate Pipeline(s: State) {
    s.sent == s.written + s.skipped + Undecided(s.receiver) + s.pending + Unpublished(s.sender)
  }

  /** Once a job was skipped, the receiver never asks for an answer again. */
  predicate Aborted(s: State) { s.skipped != [] ==> s.err && !s.receiver.Waiting? }

  function One(j: Job, k: Job): nat { if j == k then 1 else 0 }

  function BySender(s: Sender, j: Job): nat { if s.Idle? || s.Exited? then 0 else One(s.job, j) }

  function ByReceiver(r: Receiver, j: Job): nat { if r.Ready? || r.Gone? then 0 else One(r.job, j) }

  function Count(jobs: seq<Job>, j: Job): nat { multiset(jobs)[j] }

  /** How often job j is closed, queued, pending, or in the hands of a stage. */
  function Held(s: State, j: Job): nat {
    Count(s.closed, j) + Count(s.sendCh, j) + BySender(s.sender, j) + Count(s.pending, j) + ByReceiver(s.receiver, j)
  }

  ghost predicate Conserved(s: State) { forall j: Job :: Held(s, j) == if j < s.handed then 1 else 0 }

  /** A closed job has its answer, or the error flag is up; likewise a job about to be closed. */
  ghost predicate Explained(s: State) {
    && (forall j :: j in s.closed ==> j in s.written || s.err)
    && (s.receiver.Filled? ==> s.receiver.job in s.written)
    && (s.sender.Dropping? || s.receiver.Failing? ==> s.err)
  }

  predicate Drained(s: State) {
    (s.sender.Exited? ==> s.sendCh == [] && !s.open) && (s.receiver.Gone? ==> s.pending == [] && s.sender.Exited?)
  }

  ghost predicate Inv(s: State) { Pipeline(s) && Aborted(s) && Conserved(s) && Explained(s) && Drained(s) }

  lemma PipelineStep(s: State, par: nat, e: Step)
    requires Pipeline(s) && Aborted(s) && Enabled(s, par, e)
    ensures Pipeline(Next(s, par, e)) && Aborted(Next(s, par, e))
  {
    match e
    case Publish => MoveLast(s.written + s.skipped + Undecided(s.receiver), s.pending, s.sender.job);
    case TakePending => MoveFirst(s.written + s.skipped, s.pending);
    case CheckReceive => MoveLast(s.written, s.skipped, s.receiver.job);
    case ReceiveFails => MoveLast(s.written, s.skipped, s.receiver.job);
    case ReceiveOk => assert s.skipped == [];
    case _ =>
  }

  lemma MoveLast(a: seq<Job>, b: seq<Job>, x: Job)
    ensures a + b + [x] == a + (b + [x]) + []
  {
  }

  lemma MoveFirst(a: seq<Job>, b: seq<Job>)
    requires b != []
    ensures a + [] + b == a + [b[0]] + b[1..]
  {
  }

  lemma CountLast(jobs: seq<Job>, x: Job, j: Job)
    ensures Count(jobs + [x], j) == Count(jobs, j) + One(x, j)
  {
  }

  lemma CountFirst(jobs: seq<Job>, j: Job)
    requires jobs != []
    ensures Count(jobs, j) == One(jobs[0], j) + Count(jobs[1..], j)
  {
    assert jobs == [jobs[0]] + jobs[1..];
  }

  lemma HeldStep(s: State, par: nat, e: Step, j: Job)
    requires Enabled(s, par, e)
    ensures Held(Next(s, par, e), j) == Held(s, j) + if e.Submit? then One(s.handed, j) else 0
  {
    hide Count;
    match e
    case Submit => CountLast(s.sendCh, s.handed, j);
    case TakeJob => CountFirst(s.sendCh, j);
    case Publish => CountLast(s.pending, s.sender.job, j);
    case DropJob => CountLast(s.closed, s.sender.job, j);
    case TakePending => CountFirst(s.pending, j);
    case Signal => CountLast(s.closed, s.receiver.job, j);
    case _ =>
  }

  lemma ConservedStep(s: State, par: nat, e: Step)
    requires Conserved(s) && Enabled(s, par, e)
    ensures Conserved(Next(s, par, e))
  {
    hide Held;
    forall j: Job ensures Held(Next(s, par, e), j) == if j < Next(s, par, e).handed then 1 else 0 {
      HeldStep(s, par, e, j);
    }
  }

  lemma StepInv(s: State, par: nat, e: Step)
    requires Inv(s) && Enabled(s, par, e)
    ensures Inv(Next(s, par, e))
  {
    PipelineStep(s, par, e);
    ConservedStep(s, par, e);
    hide Pipeline, Aborted, Conserved;
  }

  lemma {:induction false} RunInv(par: nat, states: seq<State>, steps: seq<Step>, i: nat)
    requires IsRun(par, states, steps) && i < |states|
    ensures Inv(states[i])
  {
    hide Inv;
    if i == 0 {
      InitialInv(states[0]);
    } else {
      RunInv(par, states, steps, i - 1);
      StepInv(states[i - 1], par, steps[i - 1]);
    }
  }

  lemma InitialInv(s: State)
    requires Initial(s)
    ensures Inv(s)
  {
  }

  // ---- Theorems ----

  /** The k-th answer is written to the k-th job that was sent successfully. */
  lemma AnswersInOrder(par: nat, states: seq<State>, steps: seq<Step>, i: nat)
    requires IsRun(par, states, steps) && i < |states|
    ensures states[i].written <= states[i].sent
    ensures forall k :: 0 <= k < |states[i].written| ==> states[i].written[k] == states[i].sent[k]
  {
    RunInv(par, states, steps, i);
  }

  /** A job's signal is closed at most once; a worker that wakes up without seeing an error finds its
      own answer written. */
  lemma WakesWithAnswer(par: nat, states: seq<State>, steps: seq<Step>, i: nat, job: Job)
    requires IsRun(par, states, steps) && i < |states| && job in states[i].closed
    ensures multiset(states[i].closed)[job] == 1 && job < states[i].handed
    ensures !states[i].err ==> job in states[i].written
  {
    RunInv(par, states, steps, i);
    assert Count(states[i].closed, job) >= 1;
    assert Held(states[i], job) >= Count(states[i].closed, job);
  }

  /** When both stages have drained, every job ever queued has been closed exactly once. */
  lemma DrainedClosesAll(par: nat, states: seq<State>, steps: seq<Step>, i: nat, job: Job)
    requires IsRun(par, states, steps) && i < |states| && states[i].receiver.Gone?
    ensures multiset(states[i].closed)[job] == if job < states[i].handed then 1 else 0
  {
    RunInv(par, states, steps, i);
    assert Held(states[i], job) == Count(states[i].closed, job);
  }

  /** Work left for the two stages. */
  function Work(s: State): nat {
    8 * |s.sendCh| + 4 * |s.pending|
    + (match s.sender case Idle => 1 case Taken(_) => 8 case Sending(_) => 7 case Publishing(_) => 6 case Dropping(_) => 2 case Exited => 0)
    + (match s.receiver case Ready => 1 case Got(_) => 4 case Waiting(_) => 3 case Filled(_) => 2 case Failing(_) => 2 case Gone => 0)
  }

  lemma WorkShrinks(s: State, par: nat, e: Step)
    requires Dispatching(e) && Enabled(s, par, e)
    ensures Work(Next(s, par, e)) < Work(s)
  {
  }

  lemma AllClosed(s: State)
    requires Conserved(s) && s.sendCh == [] && s.pending == []
    requires (s.sender.Idle? || s.sender.Exited?) && (s.receiver.Ready? || s.receiver.Gone?)
    ensures forall j: Job :: j < s.handed ==> j in s.closed
  {
    forall j: Job | j < s.handed ensures j in s.closed { assert Held(s, j) == Count(s.closed, j); }
  }

  /** No deadlock: while a queued job is unclosed, or the queue is closed and a stage still runs, one of
      the two stages can step.  With WorkShrinks, every job is closed after finitely many such steps. */
  lemma NeverStuck(par: nat, states: seq<State>, steps: seq<Step>, i: nat) returns (e: Step)
    requires par > 0 && IsRun(par, states, steps) && i < |states|
    requires (exists j: Job :: j < states[i].handed && j !in states[i].closed) || (!states[i].open && !states[i].receiver.Gone?)
    ensures Dispatching(e) && Enabled(states[i], par, e)
  {
    RunInv(par, states, steps, i);
    e := StageCanStep(par, states[i]);
  }

  lemma StageCanStep(par: nat, s: State) returns (e: Step)
    requires par > 0 && Inv(s)
    requires (exists j: Job :: j < s.handed && j !in s.closed) || (!s.open && !s.receiver.Gone?)
    ensures Dispatching(e) && Enabled(s, par, e)
  {
    match s.receiver
    case Got(_) => e := CheckReceive;
    case Waiting(_) => e := ReceiveOk;
    case Filled(_) => e := Signal;
    case Failing(_) => e := Signal;
    case Gone =>
      AllClosed(s);
      assert false;
    case Ready =>
      if s.pending != [] { return TakePending; }
      match s.sender
      case Idle =>
        if s.sendCh != [] { return TakeJob; }
        if s.open {
          AllClosed(s);
          assert false;
        }
        e := SenderExit;
      case Taken(_) => e := CheckSend;
      case Sending(_) => e := SendOk;
      case Publishing(_) => e := Publish;
      case Dropping(_) => e := DropJob;
      case Exited => e := ReceiverExit;
  }

  /** Without any error, draining has answered every job, in the order in which they were queued. */
  lemma CleanRunAnswersAll(par: nat, states: seq<State>, steps: seq<Step>, i: nat, job: Job)
    requires IsRun(par, states, steps) && i < |states| && states[i].receiver.Gone? && !states[i].err && job < states[i].handed
    ensures job in states[i].written && multiset(states[i].closed)[job] == 1
  {
    DrainedClosesAll(par, states, steps, i, job);
    assert job in states[i].closed;
    WakesWithAnswer(par, states, steps, i, job);
  }
}
