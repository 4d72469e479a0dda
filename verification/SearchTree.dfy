/** The shared search tree of gicg_mcts (rollout.go, backup.go, node.go, search.go): worker goroutines
    descend with virtual loss, expand leaves once, append children, and back values up.  One event is
    one atomic addition, one critical section of a node's lock, or one read that decides a branch;
    which child PUCT picks, what the network answers and when the game ends are left open. */
module SearchTree {

  /** Counters of a node: visits N, accumulated value WScaled, in-flight rollouts NVirtual. */
  datatype Tally = Tally(visits: int, weight: int, virtual: int)

  const NONE := Tally(0, 0, 0)

  function Plus(a: Tally, b: Tally): Tally { Tally(a.visits + b.visits, a.weight + b.weight, a.virtual + b.virtual) }

  /** `parent` is history: the node whose child list the node was put into, or -1. */
  datatype Node = Node(tally: Tally, expanded: bool, children: seq<nat>, parent: int)

  const FRESH := Node(NONE, false, [], -1)

  /** The stages of Backup at one node: N, then W, then NVirtual. */
  datatype Stage = AddVisit | AddWeight | DropVirtual

  /** Taken: a work item is drawn, the root not yet entered.  Checked: the answer is there and the error
      flag was read as clear. */
  datatype Worker =
    | Idle
    | Taken
    | Descend(path: seq<nat>)
    | AwaitEval(path: seq<nat>)
    | Checked(path: seq<nat>)
    | Backup(path: seq<nat>, value: int, at: nat, stage: Stage)

  /** One rollout that was backed up completely. */
  datatype Commit = Commit(path: seq<nat>, value: int)

  /** `done` and `leaked` are history: the rollouts backed up, and the paths of abandoned ones. */
  datatype Search = Search(pool: seq<Node>, workers: seq<Worker>, started: nat, failed: bool, done: seq<Commit>, leaked: seq<seq<nat>>)

  datatype Event =
    | Take(w: nat)
    | Enter(w: nat)
    | StartFails(w: nat)
    | AppendChildren(w: nat, k: nat)
    | Choose(w: nat, slot: nat)
    | Terminal(w: nat, value: int)
    | SendLeaf(w: nat)
    | Answered(w: nat)
    | Expand(w: nat, value: int, k: nat)
    | GiveUp(w: nat)
    | DispatchError
    | BackupStep(w: nat)

  function Leaf(path: seq<nat>): nat
    requires path != []
  {
    path[|path| - 1]
  }

  predicate OnPath(w: Worker) { !w.Idle? && !w.Taken? }

  predicate CanRead(s: Search, path: seq<nat>) { path != [] && Leaf(path) < |s.pool| }

  ghost predicate Enabled(s: Search, rollouts: nat, e: Event) {
    match e
    case Take(w) => w < |s.workers| && s.workers[w].Idle? && s.started < rollouts
    case Enter(w) => w < |s.workers| && s.workers[w].Taken? && 0 < |s.pool|
    case StartFails(w) => w < |s.workers| && s.workers[w].Taken?
    case AppendChildren(w, k) =>
      w < |s.workers| && s.workers[w].Descend? && CanRead(s, s.workers[w].path) && s.pool[Leaf(s.workers[w].path)].expanded
    case Choose(w, slot) =>
      w < |s.workers| && s.workers[w].Descend? && CanRead(s, s.workers[w].path) && s.pool[Leaf(s.workers[w].path)].expanded
      && slot < |s.pool[Leaf(s.workers[w].path)].children| && s.pool[Leaf(s.workers[w].path)].children[slot] < |s.pool|
    case Terminal(w, _) => w < |s.workers| && s.workers[w].Descend?
    case SendLeaf(w) =>
      w < |s.workers| && s.workers[w].Descend? && CanRead(s, s.workers[w].path) && !s.pool[Leaf(s.workers[w].path)].expanded
    case Answered(w) => w < |s.workers| && s.workers[w].AwaitEval? && !s.failed
    case Expand(w, _, _) => w < |s.workers| && s.workers[w].Checked? && CanRead(s, s.workers[w].path)
    case GiveUp(w) => w < |s.workers| && (s.workers[w].Descend? || (s.workers[w].AwaitEval? && s.failed))
    case DispatchError => true
    case BackupStep(w) =>
      w < |s.workers| && s.workers[w].Backup? && s.workers[w].at < |s.workers[w].path|
      && s.workers[w].path[s.workers[w].at] < |s.pool|
  }

  /** An atomic addition to one node's counters. */
  function Bump(pool: seq<Node>, n: nat, extra: Tally): seq<Node>
    requires n < |pool|
  {
    pool[n := pool[n].(tally := Plus(pool[n].tally, extra))]
  }

  function Ids(from: nat, k: nat): seq<nat> { seq(k, i requires 0 <= i < k => from + i) }

  /** k freshly allocated nodes linked under n: append-under-lock. */
  function Link(pool: seq<Node>, n: nat, k: nat): seq<Node>
    requires n < |pool|
  {
    pool[n := pool[n].(expanded := true, children := pool[n].children + Ids(|pool|, k))]
      + seq(k, i requires 0 <= i < k => FRESH.(parent := n))
  }

  /** InstallExpansion: the first worker links its children, a later one leaves the node alone (its
      allocated nodes stay unlinked). */
  function Install(pool: seq<Node>, n: nat, k: nat): seq<Node>
    requires n < |pool|
  {
    if pool[n].expanded then pool + seq(k, i requires 0 <= i < k => FRESH) else Link(pool, n, k)
  }

  function Next(s: Search, rollouts: nat, e: Event): Search
    requires Enabled(s, rollouts, e)
  {
    match e
    case Take(w) =>
      if s.failed then s.(started := s.started + 1) else s.(started := s.started + 1, workers := s.workers[w := Taken])
    case Enter(w) => s.(pool := Bump(s.pool, 0, Tally(0, 0, 1)), workers := s.workers[w := Descend([0])])
    case StartFails(w) => s.(failed := true, workers := s.workers[w := Idle])
    case AppendChildren(w, k) => s.(pool := Link(s.pool, Leaf(s.workers[w].path), k))
    case Choose(w, slot) =>
      var path := s.workers[w].path;
      var child := s.pool[Leaf(path)].children[slot];
      s.(pool := Bump(s.pool, child, Tally(0, 0, 1)), workers := s.workers[w := Descend(path + [child])])
    case Terminal(w, value) => s.(workers := s.workers[w := Backup(s.workers[w].path, value, 0, AddVisit)])
    case SendLeaf(w) => s.(workers := s.workers[w := AwaitEval(s.workers[w].path)])
    case Answered(w) => s.(workers := s.workers[w := Checked(s.workers[w].path)])
    case Expand(w, value, k) =>
      var path := s.workers[w].path;
      s.(pool := Install(s.pool, Leaf(path), k), workers := s.workers[w := Backup(path, value, 0, AddVisit)])
    case GiveUp(w) =>
      s.(failed := true, leaked := s.leaked + [s.workers[w].path], workers := s.workers[w := Idle])
    case DispatchError => s.(failed := true)
    case BackupStep(w) =>
      var b := s.workers[w];
      var n := b.path[b.at];
      match b.stage
      case AddVisit => s.(pool := Bump(s.pool, n, Tally(1, 0, 0)), workers := s.workers[w := b.(stage := AddWeight)])
      case AddWeight => s.(pool := Bump(s.pool, n, Tally(0, b.value, 0)), workers := s.workers[w := b.(stage := DropVirtual)])
      case DropVirtual =>
        var s' := s.(pool := Bump(s.pool, n, Tally(0, 0, -1)));
        if b.at + 1 < |b.path| then s'.(workers := s.workers[w := b.(at := b.at + 1, stage := AddVisit)])
        else s'.(workers := s.workers[w := Idle], done := s.done + [Commit(b.path, b.value)])
  }

  /** Search after root setup: the root is expanded with its k given actions. */
  ghost predicate Initial(s: Search) {
    && |s.pool| > 0 && (exists k: nat :: s.pool == Link([FRESH], 0, k))
    && (forall w :: 0 <= w < |s.workers| ==> s.workers[w].Idle?)
    && s.started == 0 && !s.failed && s.done == [] && s.leaked == []
  }

  ghost predicate IsRun(rollouts: nat, states: seq<Search>, events: seq<Event>) {
    && |states| == |events| + 1 && Initial(states[0])
    && forall i :: 0 <= i < |events| ==> Enabled(states[i], rollouts, events[i]) && states[i + 1] == Next(states[i], rollouts, events[i])
  }

  // ---- Where the counters come from ----

  /** 1 if n is among path[lo..hi], else 0. */
  ghost function Part(path: seq<nat>, lo: nat, hi: nat, n: nat): int {
    if exists i :: lo <= i < hi && i < |path| && path[i] == n then 1 else 0
  }

  ghost function On(path: seq<nat>, n: nat): int { Part(path, 0, |path|, n) }

  function Worth(on: int, value: int): int { if on == 0 then 0 else value }

  /** What worker w has added to node n's counters and not yet handed over to the history. */
  ghost function Share(w: Worker, n: nat): Tally {
    match w
    case Idle => NONE
    case Taken => NONE
    case Descend(path) => Tally(0, 0, On(path, n))
    case AwaitEval(path) => Tally(0, 0, On(path, n))
    case Checked(path) => Tally(0, 0, On(path, n))
    case Backup(path, value, at, stage) =>
      if at >= |path| then NONE else
        var before := Part(path, 0, at, n);
        var here := if path[at] == n then 1 else 0;
        var visited := before + if stage.AddVisit? then 0 else here;
        var weighed := before + if stage.DropVirtual? then here else 0;
        Tally(visited, Worth(weighed, value), Part(path, at, |path|, n))
  }

  ghost function Shares(workers: seq<Worker>, n: nat): Tally {
    if workers == [] then NONE else Plus(Shares(workers[..|workers| - 1], n), Share(workers[|workers| - 1], n))
  }

  /** Completed rollouts through n: one visit and the value each. */
  ghost function Committed(done: seq<Commit>, n: nat): Tally {
    if done == [] then NONE else
      var last := done[|done| - 1];
      Plus(Committed(done[..|done| - 1], n), Tally(On(last.path, n), Worth(On(last.path, n), last.value), 0))
  }

  ghost function Leaks(leaked: seq<seq<nat>>, n: nat): Tally {
    if leaked == [] then NONE else Plus(Leaks(leaked[..|leaked| - 1], n), Tally(0, 0, On(leaked[|leaked| - 1], n)))
  }

  function Running(workers: seq<Worker>): nat {
    if workers == [] then 0 else Running(workers[..|workers| - 1]) + if workers[|workers| - 1].Idle? then 0 else 1
  }

  // ---- The invariant ----

  /** A path from the root along parent links. */
  ghost predicate RootPath(pool: seq<Node>, path: seq<nat>) {
    && path != [] && path[0] == 0
    && (forall i :: 0 <= i < |path| ==> path[i] < |pool|)
    && forall i :: 0 < i < |path| ==> pool[path[i]].parent == path[i - 1]
  }

  /** Parents come earlier in the pool than their children. */
  ghost predicate Older(pool: seq<Node>) {
    && |pool| > 0 && pool[0].parent == -1 && pool[0].expanded
    && (forall n :: 0 <= n < |pool| ==> -1 <= pool[n].parent < n)
    && (forall m :: 0 <= m < |pool| && !pool[m].expanded ==> pool[m].children == [])
  }

  /** Child lists hold each of a node's own children at most once. */
  ghost predicate Owned(pool: seq<Node>) {
    && (forall m, i :: 0 <= m < |pool| && 0 <= i < |pool[m].children| ==>
          pool[m].children[i] < |pool| && pool[pool[m].children[i]].parent == m)
    && (forall m, i, j :: 0 <= m < |pool| && 0 <= i < j < |pool[m].children| ==> pool[m].children[i] != pool[m].children[j])
  }

  ghost predicate Listed(pool: seq<Node>) {
    forall n: nat :: n < |pool| && 0 <= pool[n].parent < |pool| ==> n in pool[pool[n].parent].children
  }

  ghost predicate Tree(pool: seq<Node>) { Older(pool) && Owned(pool) && Listed(pool) }

  ghost predicate Paths(s: Search) {
    && (forall w :: 0 <= w < |s.workers| && OnPath(s.workers[w]) ==> RootPath(s.pool, s.workers[w].path))
    && (forall w :: 0 <= w < |s.workers| && s.workers[w].Backup? ==> s.workers[w].at < |s.workers[w].path|)
    && (forall i :: 0 <= i < |s.done| ==> RootPath(s.pool, s.done[i].path))
    && (forall i :: 0 <= i < |s.leaked| ==> RootPath(s.pool, s.leaked[i]))
  }

  ghost function Origin(s: Search, n: nat): Tally {
    Plus(Plus(Shares(s.workers, n), Committed(s.done, n)), Leaks(s.leaked, n))
  }

  ghost predicate Counted(s: Search) {
    forall n: nat :: n < |s.pool| ==> s.pool[n].tally == Origin(s, n)
  }

  ghost predicate Progress(s: Search) {
    !s.failed ==> s.leaked == [] && s.started == |s.done| + Running(s.workers)
  }

  ghost predicate Inv(s: Search) {
    Tree(s.pool) && Paths(s) && Counted(s) && Progress(s)
  }
}
