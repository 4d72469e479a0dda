module SearchTreeProof {
  import opened SearchTree

  lemma {:induction false} SharesUpdate(workers: seq<Worker>, w: nat, x: Worker, n: nat)
    requires w < |workers|
    ensures Plus(Shares(workers[w := x], n), Share(workers[w], n)) == Plus(Shares(workers, n), Share(x, n))
  {
    hide Share;
    var last := |workers| - 1;
    var workers' := workers[w := x];
    if w < last {
      SharesUpdate(workers[..last], w, x, n);
      assert workers'[..last] == workers[..last][w := x];
    } else {
      assert workers'[..last] == workers[..last];
    }
  }

  lemma {:induction false} RunningUpdate(workers: seq<Worker>, w: nat, x: Worker)
    requires w < |workers|
    ensures Running(workers[w := x]) + (if workers[w].Idle? then 0 else 1) == Running(workers) + (if x.Idle? then 0 else 1)
  {
    var last := |workers| - 1;
    var workers' := workers[w := x];
    if w < last {
      RunningUpdate(workers[..last], w, x);
      assert workers'[..last] == workers[..last][w := x];
    } else {
      assert workers'[..last] == workers[..last];
    }
  }

  lemma CommittedMore(done: seq<Commit>, c: Commit, n: nat)
    ensures Committed(done + [c], n) == Plus(Committed(done, n), Tally(On(c.path, n), Worth(On(c.path, n), c.value), 0))
  {
    assert (done + [c])[..|done|] == done;
  }

  lemma LeaksMore(leaked: seq<seq<nat>>, p: seq<nat>, n: nat)
    ensures Leaks(leaked + [p], n) == Plus(Leaks(leaked, n), Tally(0, 0, On(p, n)))
  {
    assert (leaked + [p])[..|leaked|] == leaked;
  }

  // ---- Paths ----

  /** Node numbers grow along a path, so no node occurs twice. */
  lemma {:induction false} PathGrows(pool: seq<Node>, path: seq<nat>, i: nat, j: nat)
    requires Tree(pool) && RootPath(pool, path) && i < j < |path|
    ensures path[i] < path[j]
    decreases j
  {
    if i < j - 1 { PathGrows(pool, path, i, j - 1); }
    assert pool[path[j]].parent == path[j - 1];
  }

  /** Old nodes keep their parents. */
  ghost predicate Extends(pool: seq<Node>, pool': seq<Node>) {
    |pool| <= |pool'| && forall n :: 0 <= n < |pool| ==> pool'[n].parent == pool[n].parent
  }

  lemma PathKept(pool: seq<Node>, pool': seq<Node>, path: seq<nat>)
    requires RootPath(pool, path) && Extends(pool, pool')
    ensures RootPath(pool', path)
  {
  }

  // ---- The tree ----

  lemma BumpTree(pool: seq<Node>, n: nat, extra: Tally)
    requires Tree(pool) && n < |pool|
    ensures Tree(Bump(pool, n, extra)) && Extends(pool, Bump(pool, n, extra))
  {
  }

  lemma OrphansTree(pool: seq<Node>, k: nat)
    requires Tree(pool)
    ensures Tree(pool + seq(k, i requires 0 <= i < k => FRESH)) && Extends(pool, pool + seq(k, i requires 0 <= i < k => FRESH))
  {
  }

  lemma LinkOlder(pool: seq<Node>, n: nat, k: nat)
    requires Older(pool) && n < |pool|
    ensures Older(Link(pool, n, k)) && Extends(pool, Link(pool, n, k))
  {
  }

  lemma LinkOwned(pool: seq<Node>, n: nat, k: nat)
    requires Owned(pool) && n < |pool|
    ensures Owned(Link(pool, n, k))
  {
    var pool', before := Link(pool, n, k), |pool[n].children|;
    forall m, i | 0 <= m < |pool'| && 0 <= i < |pool'[m].children|
      ensures pool'[m].children[i] < |pool'| && pool'[pool'[m].children[i]].parent == m
    {
      if m < |pool| && i < |pool[m].children| { assert pool'[m].children[i] == pool[m].children[i]; }
      else { assert m == n && pool'[m].children[i] == |pool| + i - before; }
    }
  }

  lemma LinkListed(pool: seq<Node>, n: nat, k: nat)
    requires Older(pool) && Listed(pool) && n < |pool|
    ensures Listed(Link(pool, n, k))
  {
    var pool' := Link(pool, n, k);
    forall m: nat | m < |pool'| && 0 <= pool'[m].parent < |pool'| ensures m in pool'[pool'[m].parent].children {
      if m >= |pool| { assert pool'[n].children[|pool[n].children| + m - |pool|] == m; }
      else {
        var i :| 0 <= i < |pool[pool[m].parent].children| && pool[pool[m].parent].children[i] == m;
        assert pool'[pool[m].parent].children[i] == m;
      }
    }
  }

  lemma LinkTree(pool: seq<Node>, n: nat, k: nat)
    requires Tree(pool) && n < |pool|
    ensures Tree(Link(pool, n, k)) && Extends(pool, Link(pool, n, k))
  {
    LinkOlder(pool, n, k);
    LinkOwned(pool, n, k);
    LinkListed(pool, n, k);
    hide Older, Owned, Listed;
  }

  // ---- Counters ----

  /** Splitting a path at one place: the node there counts once. */
  ghost predicate SplitsAt(path: seq<nat>, at: nat, n: nat)
    requires at < |path|
  {
    var here := if path[at] == n then 1 else 0;
    && Part(path, 0, at + 1, n) == Part(path, 0, at, n) + here
    && Part(path, at, |path|, n) == here + Part(path, at + 1, |path|, n)
    && (path[at] == n ==> Part(path, 0, at, n) == 0)
  }

  lemma PartSplit(pool: seq<Node>, path: seq<nat>, at: nat, n: nat)
    requires Tree(pool) && RootPath(pool, path) && at < |path|
    ensures SplitsAt(path, at, n)
  {
    if path[at] == n {
      forall i | 0 <= i < at ensures path[i] != n { PathGrows(pool, path, i, at); }
      forall i | at < i < |path| ensures path[i] != n { PathGrows(pool, path, at, i); }
    }
  }

  lemma OffPath(pool: seq<Node>, path: seq<nat>, lo: nat, hi: nat, n: nat)
    requires RootPath(pool, path) && |pool| <= n
    ensures Part(path, lo, hi, n) == 0
  {
  }

  lemma OffShare(pool: seq<Node>, w: Worker, n: nat)
    requires |pool| <= n && (OnPath(w) ==> RootPath(pool, w.path))
    ensures Share(w, n) == NONE
  {
    if OnPath(w) {
      OffPath(pool, w.path, 0, |w.path|, n);
      if w.Backup? && w.at < |w.path| {
        OffPath(pool, w.path, 0, w.at, n);
        OffPath(pool, w.path, w.at, |w.path|, n);
        assert w.path[w.at] != n;
        hide Part, RootPath;
      }
    }
  }

  lemma {:induction false} OffShares(pool: seq<Node>, workers: seq<Worker>, n: nat)
    requires |pool| <= n && forall w :: 0 <= w < |workers| && OnPath(workers[w]) ==> RootPath(pool, workers[w].path)
    ensures Shares(workers, n) == NONE
  {
    hide Share, RootPath;
    if workers != [] {
      OffShares(pool, workers[..|workers| - 1], n);
      OffShare(pool, workers[|workers| - 1], n);
    }
  }

  lemma {:induction false} OffCommitted(pool: seq<Node>, done: seq<Commit>, n: nat)
    requires |pool| <= n && forall i :: 0 <= i < |done| ==> RootPath(pool, done[i].path)
    ensures Committed(done, n) == NONE
  {
    if done != [] {
      OffCommitted(pool, done[..|done| - 1], n);
      var path := done[|done| - 1].path;
      OffPath(pool, path, 0, |path|, n);
    }
  }

  lemma {:induction false} OffLeaks(pool: seq<Node>, leaked: seq<seq<nat>>, n: nat)
    requires |pool| <= n && forall i :: 0 <= i < |leaked| ==> RootPath(pool, leaked[i])
    ensures Leaks(leaked, n) == NONE
  {
    if leaked != [] {
      OffLeaks(pool, leaked[..|leaked| - 1], n);
      var path := leaked[|leaked| - 1];
      OffPath(pool, path, 0, |path|, n);
    }
  }

  /** Fresh nodes have empty counters, and nothing ever passed through them. */
  lemma FreshCounted(s: Search, pool': seq<Node>)
    requires Paths(s) && Counted(s) && |s.pool| <= |pool'|
    requires forall n :: 0 <= n < |s.pool| ==> pool'[n].tally == s.pool[n].tally
    requires forall n :: |s.pool| <= n < |pool'| ==> pool'[n].tally == NONE
    ensures Counted(s.(pool := pool'))
  {
    forall n: nat | n < |pool'| ensures pool'[n].tally == Origin(s.(pool := pool'), n) {
      if n >= |s.pool| {
        OffShares(s.pool, s.workers, n);
        OffCommitted(s.pool, s.done, n);
        OffLeaks(s.pool, s.leaked, n);
      }
    }
  }

  lemma CountedAt(s: Search, n: nat)
    requires Counted(s) && n < |s.pool|
    ensures s.pool[n].tally == Origin(s, n)
  {
  }

  lemma CountedAll(s: Search)
    requires forall n: nat :: n < |s.pool| ==> s.pool[n].tally == Origin(s, n)
    ensures Counted(s)
  {
  }

  /** Worker w changes its share of every node by what its atomic addition put into the tree. */
  lemma ShareCounted(s: Search, w: nat, x: Worker, pool': seq<Node>)
    requires Counted(s) && w < |s.workers| && |pool'| == |s.pool|
    requires forall n: nat :: n < |s.pool| ==>
      Plus(pool'[n].tally, Share(s.workers[w], n)) == Plus(s.pool[n].tally, Share(x, n))
    ensures Counted(s.(workers := s.workers[w := x], pool := pool'))
  {
    hide Share, Shares, Committed, Leaks, Counted;
    forall n: nat | n < |pool'|
      ensures pool'[n].tally == Origin(s.(workers := s.workers[w := x], pool := pool'), n)
    {
      SharesUpdate(s.workers, w, x, n);
      CountedAt(s, n);
    }
    CountedAll(s.(workers := s.workers[w := x], pool := pool'));
  }

  lemma PathsKept(s: Search, w: nat, x: Worker, pool': seq<Node>)
    requires Paths(s) && Extends(s.pool, pool') && w < |s.workers|
    requires OnPath(x) ==> RootPath(pool', x.path)
    requires x.Backup? ==> x.at < |x.path|
    ensures Paths(s.(workers := s.workers[w := x], pool := pool'))
  {
  }

  lemma PathsLeaked(s: Search, p: seq<nat>)
    requires Paths(s) && RootPath(s.pool, p)
    ensures Paths(s.(leaked := s.leaked + [p]))
  {
  }

  lemma PathsDone(s: Search, c: Commit)
    requires Paths(s) && RootPath(s.pool, c.path)
    ensures Paths(s.(done := s.done + [c]))
  {
  }

  // ---- Events ----

  lemma TakeInv(s: Search, rollouts: nat, w: nat)
    requires Inv(s) && Enabled(s, rollouts, Take(w))
    ensures Inv(Next(s, rollouts, Take(w)))
  {
    hide Tree, RootPath, Share, Shares, Running, Origin, Committed, Leaks;
    if !s.failed {
      ShareCounted(s, w, Taken, s.pool) by { NoShares(s.workers[w], Taken); }
      PathsKept(s, w, Taken, s.pool);
      RunningUpdate(s.workers, w, Taken);
      assert Counted(s.(workers := s.workers[w := Taken]));
      SameCounted(s.(workers := s.workers[w := Taken]), s.started + 1, s.failed);
      hide Paths, Counted;
      SamePaths(s.(workers := s.workers[w := Taken]), s.started + 1, s.failed);
    } else {
      SameCounted(s, s.started + 1, true);
      SamePaths(s, s.started + 1, true);
    }
  }

  lemma EnterInv(s: Search, rollouts: nat, w: nat)
    requires Inv(s) && Enabled(s, rollouts, Enter(w))
    ensures Inv(Next(s, rollouts, Enter(w)))
  {
    var s' := Next(s, rollouts, Enter(w));
    BumpTree(s.pool, 0, Tally(0, 0, 1));
    PathsKept(s, w, Descend([0]), s'.pool);
    ShareCounted(s, w, Descend([0]), s'.pool);
    RunningUpdate(s.workers, w, Descend([0]));
  }

  lemma StartFailsInv(s: Search, rollouts: nat, w: nat)
    requires Inv(s) && Enabled(s, rollouts, StartFails(w))
    ensures Inv(Next(s, rollouts, StartFails(w)))
  {
    hide Tree, RootPath, Share, Shares, Running, Origin, Committed, Leaks;
    ShareCounted(s, w, Idle, s.pool) by { NoShares(s.workers[w], Idle); }
    PathsKept(s, w, Idle, s.pool);
    hide Paths, Counted;
    SameCounted(s.(workers := s.workers[w := Idle]), s.started, true);
    SamePaths(s.(workers := s.workers[w := Idle]), s.started, true);
  }

  lemma NoShares(x: Worker, y: Worker)
    requires !OnPath(x) && !OnPath(y)
    ensures forall n: nat :: Share(x, n) == Share(y, n) == NONE
  {
  }

  lemma SameCounted(s: Search, started: nat, failed: bool)
    requires Counted(s)
    ensures Counted(s.(started := started, failed := failed))
  {
    hide Shares, Committed, Leaks;
    assert forall n: nat :: Origin(s.(started := started, failed := failed), n) == Origin(s, n);
  }

  lemma SamePaths(s: Search, started: nat, failed: bool)
    requires Paths(s)
    ensures Paths(s.(started := started, failed := failed))
  {
    hide RootPath;
  }

  lemma GrowInv(s: Search, pool': seq<Node>)
    requires Inv(s) && Tree(pool') && Extends(s.pool, pool')
    requires forall n :: 0 <= n < |s.pool| ==> pool'[n].tally == s.pool[n].tally
    requires forall n :: |s.pool| <= n < |pool'| ==> pool'[n].tally == NONE
    ensures Inv(s.(pool := pool'))
  {
    FreshCounted(s, pool');
    forall w | 0 <= w < |s.workers| && OnPath(s.workers[w]) ensures RootPath(pool', s.workers[w].path) {
      PathKept(s.pool, pool', s.workers[w].path);
    }
  }

  /** A step that changes worker w without touching the counters. */
  lemma LocalInv(s: Search, w: nat, x: Worker)
    requires Inv(s) && w < |s.workers| && !s.workers[w].Idle? && OnPath(x)
    requires RootPath(s.pool, x.path) && (x.Backup? ==> x.at < |x.path|)
    requires forall n: nat :: n < |s.pool| ==> Share(x, n) == Share(s.workers[w], n)
    ensures Inv(s.(workers := s.workers[w := x]))
  {
    var s' := s.(workers := s.workers[w := x]);
    ShareCounted(s, w, x, s.pool);
    RunningUpdate(s.workers, w, x);
    PathsKept(s, w, x, s.pool);
  }

  lemma OnMore(path: seq<nat>, child: nat, n: nat)
    requires forall i :: 0 <= i < |path| ==> path[i] != child
    ensures On(path + [child], n) == On(path, n) + if n == child then 1 else 0
  {
    var longer := path + [child];
    if i :| 0 <= i < |path| && path[i] == n { assert longer[i] == n; }
    assert longer[|path|] == child;
  }

  lemma ExtendPath(pool: seq<Node>, path: seq<nat>, slot: nat) returns (child: nat)
    requires Tree(pool) && RootPath(pool, path) && slot < |pool[Leaf(path)].children|
    ensures child == pool[Leaf(path)].children[slot] && child < |pool|
    ensures RootPath(pool, path + [child])
    ensures forall n: nat :: On(path + [child], n) == On(path, n) + if n == child then 1 else 0
  {
    child := pool[Leaf(path)].children[slot];
    forall i | 0 <= i < |path| ensures path[i] != child {
      if i < |path| - 1 { PathGrows(pool, path, i, |path| - 1); }
    }
    forall n: nat ensures On(path + [child], n) == On(path, n) + if n == child then 1 else 0 {
      OnMore(path, child, n);
    }
  }

  lemma ChooseInv(s: Search, rollouts: nat, w: nat, slot: nat)
    requires Inv(s) && Enabled(s, rollouts, Choose(w, slot))
    ensures Inv(Next(s, rollouts, Choose(w, slot)))
  {
    var s' := Next(s, rollouts, Choose(w, slot));
    var path := s.workers[w].path;
    var child := ExtendPath(s.pool, path, slot);
    BumpTree(s.pool, child, Tally(0, 0, 1));
    PathKept(s.pool, s'.pool, path + [child]);
    hide Tree, RootPath, On;
    ShareCounted(s, w, Descend(path + [child]), s'.pool);
    PathsKept(s, w, Descend(path + [child]), s'.pool);
    RunningUpdate(s.workers, w, Descend(path + [child]));
  }

  lemma BackupShare(path: seq<nat>, value: int, n: nat)
    requires path != []
    ensures Share(Backup(path, value, 0, AddVisit), n) == Tally(0, 0, On(path, n))
  {
  }

  lemma BeginBackupInv(s: Search, w: nat, value: int)
    requires Inv(s) && w < |s.workers| && (s.workers[w].Descend? || s.workers[w].Checked?)
    ensures Inv(s.(workers := s.workers[w := Backup(s.workers[w].path, value, 0, AddVisit)]))
  {
    var path := s.workers[w].path;
    forall n: nat | n < |s.pool| ensures Share(Backup(path, value, 0, AddVisit), n) == Share(s.workers[w], n) {
      BackupShare(path, value, n);
    }
    LocalInv(s, w, Backup(path, value, 0, AddVisit));
  }

  lemma DescendShare(w: Worker, m: nat)
    requires w.Descend? || w.AwaitEval?
    ensures Share(w, m) == Tally(0, 0, On(w.path, m))
  {
  }

  lemma GiveUpCounted(s: Search, w: nat, m: nat)
    requires w < |s.workers| && (s.workers[w].Descend? || s.workers[w].AwaitEval?)
    ensures Origin(s.(workers := s.workers[w := Idle], leaked := s.leaked + [s.workers[w].path]), m) == Origin(s, m)
  {
    hide Share, On, Shares, Committed, Leaks;
    DescendShare(s.workers[w], m);
    SharesUpdate(s.workers, w, Idle, m);
    IdleShare(Idle, m);
    LeaksMore(s.leaked, s.workers[w].path, m);
  }

  lemma GiveUpInv(s: Search, rollouts: nat, w: nat)
    requires Inv(s) && Enabled(s, rollouts, GiveUp(w))
    ensures Inv(Next(s, rollouts, GiveUp(w)))
  {
    hide Tree, RootPath, Origin;
    var s', path := Next(s, rollouts, GiveUp(w)), s.workers[w].path;
    PathsKept(s, w, Idle, s.pool);
    PathsLeaked(s.(workers := s.workers[w := Idle]), path);
    hide Paths;
    forall m: nat | m < |s'.pool| ensures s'.pool[m].tally == Origin(s', m) {
      GiveUpCounted(s, w, m);
      SameHistoryOrigin(s', s.pool, s.failed, m);
    }
  }

  /** How much one backup step adds to the node it stands on. */
  function Addition(b: Worker): Tally
    requires b.Backup?
  {
    match b.stage
    case AddVisit => Tally(1, 0, 0)
    case AddWeight => Tally(0, b.value, 0)
    case DropVirtual => Tally(0, 0, -1)
  }

  /** What a backup becomes by a step that is not its last. */
  function Moved(b: Worker): Worker
    requires b.Backup?
  {
    match b.stage
    case AddVisit => b.(stage := AddWeight)
    case AddWeight => b.(stage := DropVirtual)
    case DropVirtual => b.(at := b.at + 1, stage := AddVisit)
  }

  /** Its share grows by what the step adds to the tree. */
  lemma BackupMoves(b: Worker, m: nat)
    requires b.Backup? && b.at < |b.path| && SplitsAt(b.path, b.at, m) && Moved(b).at < |b.path|
    ensures Share(Moved(b), m) == Plus(Share(b, m), if m == b.path[b.at] then Addition(b) else NONE)
  {
    hide Part;
  }

  /** The last step turns a backup's share into a commit. */
  lemma BackupEnds(b: Worker, m: nat)
    requires b.Backup? && b.at == |b.path| - 1 && b.stage.DropVirtual? && SplitsAt(b.path, b.at, m)
    ensures Tally(On(b.path, m), Worth(On(b.path, m), b.value), 0)
      == Plus(Share(b, m), if m == b.path[b.at] then Addition(b) else NONE)
  {
    assert Part(b.path, |b.path|, |b.path|, m) == 0;
    hide Part;
  }

  lemma BackupTree(s: Search, w: nat)
    requires Inv(s) && w < |s.workers| && s.workers[w].Backup?
    ensures var b := s.workers[w];
      b.at < |b.path| && b.path[b.at] < |s.pool| && RootPath(s.pool, b.path)
      && Tree(Bump(s.pool, b.path[b.at], Addition(b))) && Extends(s.pool, Bump(s.pool, b.path[b.at], Addition(b)))
      && RootPath(Bump(s.pool, b.path[b.at], Addition(b)), b.path)
      && forall m: nat :: SplitsAt(b.path, b.at, m)
  {
    var b := s.workers[w];
    BumpTree(s.pool, b.path[b.at], Addition(b));
    PathKept(s.pool, Bump(s.pool, b.path[b.at], Addition(b)), b.path);
    forall m: nat ensures SplitsAt(b.path, b.at, m) { PartSplit(s.pool, b.path, b.at, m); }
  }

  lemma MovingInv(s: Search, w: nat)
    requires Inv(s) && w < |s.workers| && s.workers[w].Backup? && Moved(s.workers[w]).at < |s.workers[w].path|
    ensures s.workers[w].path[s.workers[w].at] < |s.pool|
    ensures Inv(s.(pool := Bump(s.pool, s.workers[w].path[s.workers[w].at], Addition(s.workers[w])),
                   workers := s.workers[w := Moved(s.workers[w])]))
  {
    hide SplitsAt, Tree, RootPath, Share;
    BackupTree(s, w);
    var b, x := s.workers[w], Moved(s.workers[w]);
    var pool' := Bump(s.pool, b.path[b.at], Addition(b));
    PathsKept(s, w, x, pool');
    RunningUpdate(s.workers, w, x);
    hide Paths;
    forall m: nat | m < |s.pool| ensures Plus(pool'[m].tally, Share(b, m)) == Plus(s.pool[m].tally, Share(x, m)) {
      BackupMoves(b, m);
    }
    ShareCounted(s, w, x, pool');
  }

  lemma EndingCounted(s: Search, w: nat, m: nat)
    requires w < |s.workers| && s.workers[w].Backup? && s.workers[w].at == |s.workers[w].path| - 1
    requires s.workers[w].stage.DropVirtual? && SplitsAt(s.workers[w].path, s.workers[w].at, m)
    ensures var b := s.workers[w];
      Origin(s.(workers := s.workers[w := Idle], done := s.done + [Commit(b.path, b.value)]), m)
      == Plus(Origin(s, m), if m == b.path[b.at] then Addition(b) else NONE)
  {
    hide SplitsAt, Share, On, Shares, Committed, Leaks;
    var b := s.workers[w];
    BackupEnds(b, m);
    SharesUpdate(s.workers, w, Idle, m);
    IdleShare(Idle, m);
    CommittedMore(s.done, Commit(b.path, b.value), m);
  }

  lemma SameHistoryOrigin(s: Search, pool': seq<Node>, failed: bool, m: nat)
    ensures Origin(s, m) == Origin(s.(pool := pool', failed := failed), m)
  {
  }

  lemma EndingInv(s: Search, rollouts: nat, w: nat)
    requires Inv(s) && Enabled(s, rollouts, BackupStep(w))
    requires s.workers[w].at == |s.workers[w].path| - 1 && s.workers[w].stage.DropVirtual?
    ensures Inv(Next(s, rollouts, BackupStep(w)))
  {
    hide SplitsAt, Tree, RootPath, Share, Origin;
    BackupTree(s, w);
    var s', b := Next(s, rollouts, BackupStep(w)), s.workers[w];
    PathsKept(s, w, Idle, s'.pool);
    PathsDone(s.(workers := s.workers[w := Idle], pool := s'.pool), Commit(b.path, b.value));
    RunningUpdate(s.workers, w, Idle);
    hide Paths;
    forall m: nat | m < |s'.pool| ensures s'.pool[m].tally == Origin(s', m) {
      EndingCounted(s, w, m);
      SameHistoryOrigin(s', s.pool, s.failed, m);
    }
  }

  lemma BackupStepInv(s: Search, rollouts: nat, w: nat)
    requires Inv(s) && Enabled(s, rollouts, BackupStep(w))
    ensures Inv(Next(s, rollouts, BackupStep(w)))
  {
    hide Inv;
    var b := s.workers[w];
    if b.stage.DropVirtual? && b.at + 1 == |b.path| { EndingInv(s, rollouts, w); }
    else { MovingInv(s, w); }
  }

  lemma IdleShare(x: Worker, m: nat)
    requires x.Idle?
    ensures Share(x, m) == NONE
  {
  }

  lemma LeafInv(s: Search, rollouts: nat, w: nat)
    requires Inv(s) && Enabled(s, rollouts, SendLeaf(w))
    ensures Inv(Next(s, rollouts, SendLeaf(w)))
  {
    LocalInv(s, w, AwaitEval(s.workers[w].path));
  }

  lemma AnsweredInv(s: Search, rollouts: nat, w: nat)
    requires Inv(s) && Enabled(s, rollouts, Answered(w))
    ensures Inv(Next(s, rollouts, Answered(w)))
  {
    LocalInv(s, w, Checked(s.workers[w].path));
  }

  lemma LinkInv(s: Search, n: nat, k: nat)
    requires Inv(s) && n < |s.pool|
    ensures Inv(s.(pool := Link(s.pool, n, k))) && Inv(s.(pool := Install(s.pool, n, k)))
  {
    LinkTree(s.pool, n, k);
    OrphansTree(s.pool, k);
    GrowInv(s, Link(s.pool, n, k));
    GrowInv(s, Install(s.pool, n, k));
  }

  lemma FailedInv(s: Search, started: nat)
    requires Inv(s)
    ensures Inv(s.(started := started, failed := true))
  {
  }

  lemma StepInv(s: Search, rollouts: nat, e: Event)
    requires Inv(s) && Enabled(s, rollouts, e)
    ensures Inv(Next(s, rollouts, e))
  {
    hide Tree, Paths, Counted;
    match e
    case Take(w) => TakeInv(s, rollouts, w);
    case Enter(w) => EnterInv(s, rollouts, w);
    case StartFails(w) => StartFailsInv(s, rollouts, w);
    case AppendChildren(w, k) => LinkInv(s, Leaf(s.workers[w].path), k);
    case Choose(w, slot) => ChooseInv(s, rollouts, w, slot);
    case Terminal(w, value) => BeginBackupInv(s, w, value);
    case SendLeaf(w) => LeafInv(s, rollouts, w);
    case Answered(w) => AnsweredInv(s, rollouts, w);
    case Expand(w, value, k) =>
      var leaf := Leaf(s.workers[w].path);
      LinkInv(s, leaf, k);
      BeginBackupInv(s.(pool := Install(s.pool, leaf, k)), w, value);
    case GiveUp(w) => GiveUpInv(s, rollouts, w);
    case DispatchError => FailedInv(s, s.started);
    case BackupStep(w) => BackupStepInv(s, rollouts, w);
  }

  lemma {:induction false} IdleShares(workers: seq<Worker>, n: nat)
    requires forall w :: 0 <= w < |workers| ==> workers[w].Idle?
    ensures Shares(workers, n) == NONE
  {
    hide Share;
    if workers != [] {
      IdleShares(workers[..|workers| - 1], n);
      IdleShare(workers[|workers| - 1], n);
    }
  }

  lemma {:induction false} IdleRunning(workers: seq<Worker>)
    requires forall w :: 0 <= w < |workers| ==> workers[w].Idle?
    ensures Running(workers) == 0
  {
    if workers != [] { IdleRunning(workers[..|workers| - 1]); }
  }

  lemma IdleOrigin(s: Search, n: nat)
    requires forall w :: 0 <= w < |s.workers| ==> s.workers[w].Idle?
    requires s.done == [] && s.leaked == []
    ensures Origin(s, n) == NONE
  {
    hide Share;
    assert Shares(s.workers, n) == NONE by { IdleShares(s.workers, n); }
    assert Committed(s.done, n) == NONE && Leaks(s.leaked, n) == NONE;
  }

  lemma NothingCommitted(n: nat)
    ensures Committed([], n) == NONE && Leaks([], n) == NONE
  {
  }

  lemma InitialInv(s: Search)
    requires Initial(s)
    ensures Inv(s)
  {
    var k: nat :| s.pool == Link([FRESH], 0, k);
    var pool := [FRESH.(expanded := true)];
    LinkTree(pool, 0, k);
    assert Link(pool, 0, k) == s.pool;
    hide Tree, Origin;
    forall n: nat | n < |s.pool| ensures s.pool[n].tally == Origin(s, n) { IdleOrigin(s, n); }
    IdleRunning(s.workers);
  }

  lemma {:induction false} RunInv(rollouts: nat, states: seq<Search>, events: seq<Event>, i: nat)
    requires IsRun(rollouts, states, events) && i < |states|
    ensures Inv(states[i])
  {
    hide Inv;
    if i == 0 {
      InitialInv(states[0]);
    } else {
      RunInv(rollouts, states, events, i - 1);
      StepInv(states[i - 1], rollouts, events[i - 1]);
    }
  }
}
