/** What the counters of the shared tree mean, at every moment of every run and when Search succeeds. */
module SearchTreeTheorems {
  import opened SearchTree
  import opened SearchTreeProof

  /** WScale in node.go: values are accumulated in units of 1 / WSCALE. */
  const WSCALE := 1_048_576

  /** The workers that have put their virtual loss on n and not yet taken it back. */
  ghost predicate Holds(w: Worker, n: nat) {
    match w
    case Idle => false
    case Taken => false
    case Descend(path) => n in path
    case AwaitEval(path) => n in path
    case Checked(path) => n in path
    case Backup(path, _, at, _) => exists i :: at <= i < |path| && path[i] == n
  }

  ghost function Holding(workers: seq<Worker>, n: nat): set<int> {
    set w | 0 <= w < |workers| && Holds(workers[w], n)
  }

  /** The workers whose unfinished backup has counted its visit to n already. */
  ghost predicate Visited(w: Worker, n: nat) {
    && w.Backup?
    && exists i :: 0 <= i < |w.path| && w.path[i] == n && (i < w.at || (i == w.at && !w.stage.AddVisit?))
  }

  ghost function Visiting(workers: seq<Worker>, n: nat): set<int> {
    set w | 0 <= w < |workers| && Visited(workers[w], n)
  }

  ghost function Through(done: seq<Commit>, n: nat): set<int> {
    set i | 0 <= i < |done| && n in done[i].path
  }

  ghost function EndingAt(done: seq<Commit>, n: nat): set<int> {
    set i | 0 <= i < |done| && done[i].path != [] && Leaf(done[i].path) == n
  }

  ghost function Abandoned(leaked: seq<seq<nat>>, n: nat): set<int> {
    set i | 0 <= i < |leaked| && n in leaked[i]
  }

  // ---- Counters are cardinalities ----

  lemma ShareCounts(pool: seq<Node>, w: Worker, n: nat)
    requires Tree(pool) && (OnPath(w) ==> RootPath(pool, w.path)) && (w.Backup? ==> w.at < |w.path|)
    ensures Share(w, n).virtual == if Holds(w, n) then 1 else 0
    ensures Share(w, n).visits == if Visited(w, n) then 1 else 0
  {
    if w.Backup? {
      PartSplit(pool, w.path, w.at, n);
      hide Tree, RootPath;
    }
  }

  lemma {:induction false} SharesHold(workers: seq<Worker>, n: nat)
    requires forall w :: 0 <= w < |workers| ==> Share(workers[w], n).virtual == if Holds(workers[w], n) then 1 else 0
    ensures Shares(workers, n).virtual == |Holding(workers, n)|
  {
    hide Share, Holds;
    if workers != [] {
      var k := |workers| - 1;
      SharesHold(workers[..k], n);
      assert Holding(workers, n) == Holding(workers[..k], n) + if Holds(workers[k], n) then {k} else {};
    }
  }

  lemma {:induction false} SharesVisit(workers: seq<Worker>, n: nat)
    requires forall w :: 0 <= w < |workers| ==> Share(workers[w], n).visits == if Visited(workers[w], n) then 1 else 0
    ensures Shares(workers, n).visits == |Visiting(workers, n)|
  {
    hide Share, Visited;
    if workers != [] {
      var k := |workers| - 1;
      SharesVisit(workers[..k], n);
      assert Visiting(workers, n) == Visiting(workers[..k], n) + if Visited(workers[k], n) then {k} else {};
    }
  }

  lemma OnIsMember(path: seq<nat>, n: nat)
    ensures On(path, n) == if n in path then 1 else 0
  {
  }

  lemma ThroughMore(done: seq<Commit>, n: nat)
    requires done != []
    ensures |Through(done, n)| == |Through(done[..|done| - 1], n)| + On(done[|done| - 1].path, n)
  {
    var k := |done| - 1;
    OnIsMember(done[k].path, n);
    assert Through(done, n) == Through(done[..k], n) + if n in done[k].path then {k} else {};
    hide On;
  }

  lemma {:induction false} CommittedCounts(done: seq<Commit>, n: nat)
    ensures Committed(done, n).visits == |Through(done, n)| && Committed(done, n).virtual == 0
  {
    hide On, Through;
    if done == [] {
      assert |Through(done, n)| == 0 by { NothingThrough(n); }
    } else {
      CommittedCounts(done[..|done| - 1], n);
      ThroughMore(done, n);
    }
  }

  lemma NothingThrough(n: nat)
    ensures Through([], n) == {} && Abandoned([], n) == {}
  {
  }

  lemma AbandonedMore(leaked: seq<seq<nat>>, n: nat)
    requires leaked != []
    ensures |Abandoned(leaked, n)| == |Abandoned(leaked[..|leaked| - 1], n)| + On(leaked[|leaked| - 1], n)
  {
    var k := |leaked| - 1;
    OnIsMember(leaked[k], n);
    assert Abandoned(leaked, n) == Abandoned(leaked[..k], n) + if n in leaked[k] then {k} else {};
    hide On;
  }

  lemma {:induction false} LeaksCount(leaked: seq<seq<nat>>, n: nat)
    ensures Leaks(leaked, n) == Tally(0, 0, |Abandoned(leaked, n)|)
  {
    hide On, Abandoned;
    if leaked == [] {
      assert |Abandoned(leaked, n)| == 0 by { NothingThrough(n); }
    } else {
      LeaksCount(leaked[..|leaked| - 1], n);
      AbandonedMore(leaked, n);
    }
  }

  /** At every moment, a node's virtual loss is the number of rollouts in flight through it (plus those
      an error abandoned), and its visits are the rollouts backed up through it. */
  lemma CountersAreRollouts(rollouts: nat, states: seq<Search>, events: seq<Event>, i: nat, n: nat)
    requires IsRun(rollouts, states, events) && i < |states| && n < |states[i].pool|
    ensures var s := states[i];
      && s.pool[n].tally.virtual == |Holding(s.workers, n)| + |Abandoned(s.leaked, n)|
      && s.pool[n].tally.visits == |Through(s.done, n)| + |Visiting(s.workers, n)|
      && (!s.failed ==> s.pool[n].tally.virtual == |Holding(s.workers, n)|)
  {
    RunInv(rollouts, states, events, i);
    var s := states[i];
    forall w | 0 <= w < |s.workers|
      ensures Share(s.workers[w], n).virtual == if Holds(s.workers[w], n) then 1 else 0
      ensures Share(s.workers[w], n).visits == if Visited(s.workers[w], n) then 1 else 0
    {
      ShareCounts(s.pool, s.workers[w], n);
    }
    SharesHold(s.workers, n);
    SharesVisit(s.workers, n);
    CommittedCounts(s.done, n);
    LeaksCount(s.leaked, n);
    assert !s.failed ==> Abandoned(s.leaked, n) == {};
    hide Tree, Paths, Share, Shares, Holds, Visited, Committed, Leaks, Holding, Abandoned, Through, Visiting;
  }

  // ---- Success ----

  /** Search returns a result: every worker has drained its work and nobody reported an error. */
  ghost predicate Succeeded(s: Search, rollouts: nat) {
    (forall w :: 0 <= w < |s.workers| ==> s.workers[w].Idle?) && !s.failed && s.started == rollouts
  }

  ghost function SumVisits(pool: seq<Node>, cs: seq<nat>): int
    requires forall i :: 0 <= i < |cs| ==> cs[i] < |pool|
  {
    if cs == [] then 0 else SumVisits(pool, cs[..|cs| - 1]) + pool[cs[|cs| - 1]].tally.visits
  }

  ghost function SumOn(path: seq<nat>, cs: seq<nat>): int {
    if cs == [] then 0 else SumOn(path, cs[..|cs| - 1]) + On(path, cs[|cs| - 1])
  }

  ghost function SumCommitted(done: seq<Commit>, cs: seq<nat>): int {
    if cs == [] then 0 else SumCommitted(done, cs[..|cs| - 1]) + Committed(done, cs[|cs| - 1]).visits
  }

  lemma {:induction false} SumOnNone(path: seq<nat>, cs: seq<nat>)
    requires forall i :: 0 <= i < |cs| ==> cs[i] !in path
    ensures SumOn(path, cs) == 0
  {
    if cs != [] { SumOnNone(path, cs[..|cs| - 1]); }
  }

  lemma {:induction false} SumOnOne(path: seq<nat>, cs: seq<nat>, j: nat)
    requires j < |cs| && cs[j] in path && forall i :: 0 <= i < |cs| && i != j ==> cs[i] !in path
    ensures SumOn(path, cs) == 1
  {
    if j == |cs| - 1 { SumOnNone(path, cs[..|cs| - 1]); } else { SumOnOne(path, cs[..|cs| - 1], j); }
  }

  /** A child of n can only be on a path right after n. */
  lemma ChildFollows(pool: seq<Node>, path: seq<nat>, n: nat, c: nat) returns (k: nat)
    requires Tree(pool) && RootPath(pool, path) && n < |pool| && c in pool[n].children && c in path
    ensures 0 < k < |path| && path[k] == c && path[k - 1] == n
  {
    k :| k < |path| && path[k] == c;
    assert pool[c].parent == n;
  }

  lemma SamePlace(pool: seq<Node>, path: seq<nat>, i: nat, j: nat)
    requires Tree(pool) && RootPath(pool, path) && i < |path| && j < |path| && path[i] == path[j]
    ensures i == j
  {
    if i < j { PathGrows(pool, path, i, j); }
    if j < i { PathGrows(pool, path, j, i); }
  }

  lemma PathGoesOn(pool: seq<Node>, path: seq<nat>, n: nat, i: nat)
    requires Tree(pool) && RootPath(pool, path) && n < |pool| && i + 1 < |path| && path[i] == n
    ensures SumOn(path, pool[n].children) == 1
  {
    var cs, next := pool[n].children, path[i + 1];
    assert pool[next].parent == n;
    var j: nat :| j < |cs| && cs[j] == next;
    forall m | 0 <= m < |cs| && m != j ensures cs[m] !in path {
      if cs[m] in path {
        var k := ChildFollows(pool, path, n, cs[m]);
        SamePlace(pool, path, i, k - 1);
      }
    }
    SumOnOne(path, cs, j);
  }

  lemma PathEnds(pool: seq<Node>, path: seq<nat>, n: nat)
    requires Tree(pool) && RootPath(pool, path) && n < |pool| && (n !in path || Leaf(path) == n)
    ensures SumOn(path, pool[n].children) == 0
  {
    var cs := pool[n].children;
    forall m | 0 <= m < |cs| ensures cs[m] !in path {
      if cs[m] in path {
        var k := ChildFollows(pool, path, n, cs[m]);
        if Leaf(path) == n { SamePlace(pool, path, |path| - 1, k - 1); }
      }
    }
    SumOnNone(path, cs);
  }

  /** A path through n ends there or goes on to exactly one of its children. */
  lemma PathConserved(pool: seq<Node>, path: seq<nat>, n: nat)
    requires Tree(pool) && RootPath(pool, path) && n < |pool|
    ensures On(path, n) == (if Leaf(path) == n then 1 else 0) + SumOn(path, pool[n].children)
  {
    assert On(path, n) == if n in path then 1 else 0;
    if n in path && Leaf(path) != n {
      var i: nat :| i < |path| && path[i] == n;
      PathGoesOn(pool, path, n, i);
    } else {
      PathEnds(pool, path, n);
    }
    hide Tree, RootPath, On, SumOn;
  }

  lemma {:induction false} SumCommittedMore(done: seq<Commit>, cs: seq<nat>)
    requires done != []
    ensures SumCommitted(done, cs) == SumCommitted(done[..|done| - 1], cs) + SumOn(done[|done| - 1].path, cs)
  {
    hide On;
    if cs != [] { SumCommittedMore(done, cs[..|cs| - 1]); }
  }

  lemma {:induction false} SumCommittedNone(cs: seq<nat>)
    ensures SumCommitted([], cs) == 0
  {
    if cs != [] { SumCommittedNone(cs[..|cs| - 1]); }
  }

  lemma EndingMore(done: seq<Commit>, n: nat)
    requires done != [] && done[|done| - 1].path != []
    ensures |EndingAt(done, n)| == |EndingAt(done[..|done| - 1], n)| + if Leaf(done[|done| - 1].path) == n then 1 else 0
  {
    var k := |done| - 1;
    assert EndingAt(done, n) == EndingAt(done[..k], n) + if Leaf(done[k].path) == n then {k} else {};
  }

  lemma {:induction false} CommitsConserved(pool: seq<Node>, done: seq<Commit>, n: nat)
    requires Tree(pool) && n < |pool| && forall i :: 0 <= i < |done| ==> RootPath(pool, done[i].path)
    ensures Committed(done, n).visits == |EndingAt(done, n)| + SumCommitted(done, pool[n].children)
  {
    var cs := pool[n].children;
    if done == [] {
      SumCommittedNone(cs);
    } else {
      var k := |done| - 1;
      hide Tree;
      CommitsConserved(pool, done[..k], n);
      PathConserved(pool, done[k].path, n);
      SumCommittedMore(done, cs);
      EndingMore(done, n);
      hide On, SumCommitted, SumOn, EndingAt;
    }
  }

  lemma {:induction false} SumVisitsCommitted(s: Search, cs: seq<nat>)
    requires forall i :: 0 <= i < |cs| ==> cs[i] < |s.pool|
    requires forall n: nat :: n < |s.pool| ==> s.pool[n].tally.visits == Committed(s.done, n).visits
    ensures SumVisits(s.pool, cs) == SumCommitted(s.done, cs)
  {
    hide Committed;
    if cs != [] { SumVisitsCommitted(s, cs[..|cs| - 1]); }
  }

  lemma SettledCounts(s: Search, rollouts: nat, n: nat)
    requires Inv(s) && Succeeded(s, rollouts) && n < |s.pool|
    ensures s.pool[n].tally == Committed(s.done, n) && |s.done| == rollouts
  {
    IdleShares(s.workers, n);
    IdleRunning(s.workers);
    NothingCommitted(n);
    CommittedCounts(s.done, n);
    hide Shares, Committed, Leaks, Tree, Paths;
  }

  /** When Search succeeds no virtual loss is left, and the visits form a flow: what enters a node ends
      there or leaves through one of its children, `rollouts` units at the root. */
  lemma SuccessBalances(rollouts: nat, states: seq<Search>, events: seq<Event>, n: nat)
    requires IsRun(rollouts, states, events) && Succeeded(states[|states| - 1], rollouts)
    requires n < |states[|states| - 1].pool|
    ensures var s := states[|states| - 1];
      && (forall i :: 0 <= i < |s.pool[n].children| ==> s.pool[n].children[i] < |s.pool|)
      && s.pool[n].tally.virtual == 0
      && s.pool[n].tally.visits == |EndingAt(s.done, n)| + SumVisits(s.pool, s.pool[n].children)
      && |s.done| == rollouts && (n == 0 ==> s.pool[n].tally.visits == rollouts)
  {
    var s := states[|states| - 1];
    RunInv(rollouts, states, events, |states| - 1);
    forall m: nat | m < |s.pool| ensures s.pool[m].tally == Committed(s.done, m) { SettledCounts(s, rollouts, m); }
    assert |s.done| == rollouts by { SettledCounts(s, rollouts, n); }
    CommittedCounts(s.done, n);
    CommitsConserved(s.pool, s.done, n);
    SumVisitsCommitted(s, s.pool[n].children);
    if n == 0 {
      assert forall i :: 0 <= i < |s.done| ==> s.done[i].path[0] == 0;
      assert Through(s.done, 0) == Below(rollouts);
      BelowSize(rollouts);
    }
    hide Committed, Through, EndingAt, Counted, Paths;
  }

  lemma StepKeepsRootChildren(s: Search, rollouts: nat, e: Event)
    requires Enabled(s, rollouts, e) && s.pool != []
    ensures var s' := Next(s, rollouts, e); s'.pool != [] && s.pool[0].children <= s'.pool[0].children
  {
  }

  /** The children the root was given at the start stay its first ones. */
  lemma {:induction false} RootChildrenStay(rollouts: nat, states: seq<Search>, events: seq<Event>, i: nat)
    requires IsRun(rollouts, states, events) && i < |states|
    ensures states[0].pool != [] && states[i].pool != [] && states[0].pool[0].children <= states[i].pool[0].children
  {
    hide Next, Enabled;
    if i > 0 {
      RootChildrenStay(rollouts, states, events, i - 1);
      StepKeepsRootChildren(states[i - 1], rollouts, events[i - 1]);
    }
  }

  lemma {:induction false} SumVisitsSplit(pool: seq<Node>, a: seq<nat>, b: seq<nat>)
    requires forall i :: 0 <= i < |a + b| ==> (a + b)[i] < |pool|
    ensures (forall i :: 0 <= i < |a| ==> a[i] < |pool|) && forall i :: 0 <= i < |b| ==> b[i] < |pool|
    ensures SumVisits(pool, a + b) == SumVisits(pool, a) + SumVisits(pool, b)
  {
    assert forall i :: 0 <= i < |a| ==> a[i] == (a + b)[i];
    assert forall i :: 0 <= i < |b| ==> b[i] == (a + b)[|a| + i];
    if b == [] {
      assert a + b == a;
    } else {
      assert (a + b)[..|a + b| - 1] == a + b[..|b| - 1];
      SumVisitsSplit(pool, a, b[..|b| - 1]);
    }
  }

  /** The visit counts a successful Search returns, those of the root's first children: each is the number
      of rollouts through that child, and together with the rollouts that took a child appended later or
      ended at the root they make up all rollouts. */
  lemma ReturnedVisits(rollouts: nat, states: seq<Search>, events: seq<Event>, i: nat)
    requires IsRun(rollouts, states, events) && Succeeded(states[|states| - 1], rollouts)
    requires states[0].pool != [] && i < |states[0].pool[0].children|
    ensures var s, first := states[|states| - 1], states[0].pool[0].children;
      && s.pool != [] && first <= s.pool[0].children
      && var later := s.pool[0].children[|first|..];
         && (forall j :: 0 <= j < |first| ==> first[j] < |s.pool|) && (forall j :: 0 <= j < |later| ==> later[j] < |s.pool|)
         && s.pool[first[i]].tally.visits == |Through(s.done, first[i])|
         && SumVisits(s.pool, first) + SumVisits(s.pool, later) + |EndingAt(s.done, 0)| == rollouts
  {
    var s, first := states[|states| - 1], states[0].pool[0].children;
    RootChildrenStay(rollouts, states, events, |states| - 1);
    var later := s.pool[0].children[|first|..];
    assert s.pool[0].children == first + later;
    SuccessBalances(rollouts, states, events, 0);
    SumVisitsSplit(s.pool, first, later);
    RunInv(rollouts, states, events, |states| - 1);
    SettledCounts(s, rollouts, first[i]);
    CommittedCounts(s.done, first[i]);
    hide Through, EndingAt, Committed, Inv, SumVisits;
  }

  ghost function Below(k: nat): (b: set<int>)
    ensures forall i :: i in b <==> 0 <= i < k
  {
    if k == 0 then {} else Below(k - 1) + {k - 1}
  }

  lemma {:induction false} BelowSize(k: nat)
    ensures |Below(k)| == k
  {
    if k > 0 {
      BelowSize(k - 1);
    }
  }

  // ---- Values ----

  /** int64(v * WScale): truncation toward zero. */
  function Scaled(v: real): int {
    if v >= 0.0 then (v * WSCALE as real).Floor else -((-v * WSCALE as real).Floor)
  }

  lemma ScaledBound(v: real)
    requires -1.0 <= v <= 1.0
    ensures -WSCALE <= Scaled(v) <= WSCALE
  {
  }

  /** Every leaf value put into the tree comes from [-1, 1]. */
  ghost predicate UnitValues(events: seq<Event>) {
    forall i :: 0 <= i < |events| && (events[i].Terminal? || events[i].Expand?) ==>
      exists v: real :: -1.0 <= v <= 1.0 && events[i].value == Scaled(v)
  }

  ghost predicate Bounded(s: Search) {
    && (forall w :: 0 <= w < |s.workers| && s.workers[w].Backup? ==> -WSCALE <= s.workers[w].value <= WSCALE)
    && (forall i :: 0 <= i < |s.done| ==> -WSCALE <= s.done[i].value <= WSCALE)
  }

  lemma BoundedStep(s: Search, rollouts: nat, e: Event)
    requires Bounded(s) && Enabled(s, rollouts, e)
    requires e.Terminal? || e.Expand? ==> -WSCALE <= e.value <= WSCALE
    ensures Bounded(Next(s, rollouts, e))
  {
  }

  lemma {:induction false} RunBounded(rollouts: nat, states: seq<Search>, events: seq<Event>, i: nat)
    requires IsRun(rollouts, states, events) && UnitValues(events) && i < |states|
    ensures Bounded(states[i])
  {
    if i > 0 {
      RunBounded(rollouts, states, events, i - 1);
      var e := events[i - 1];
      if e.Terminal? || e.Expand? {
        var v: real :| -1.0 <= v <= 1.0 && e.value == Scaled(v);
        ScaledBound(v);
      }
      hide Bounded, Scaled;
      BoundedStep(states[i - 1], rollouts, e);
    }
  }

  ghost predicate Within(t: Tally) { -(t.visits * WSCALE) <= t.weight <= t.visits * WSCALE }

  lemma ShareWithin(w: Worker, n: nat)
    requires w.Backup? ==> -WSCALE <= w.value <= WSCALE
    ensures Within(Share(w, n))
  {
    if w.Backup? && w.at < |w.path| && w.path[w.at] == n && Part(w.path, 0, w.at, n) == 1 { }
  }

  lemma {:induction false} SharesWithin(workers: seq<Worker>, n: nat)
    requires forall w :: 0 <= w < |workers| && workers[w].Backup? ==> -WSCALE <= workers[w].value <= WSCALE
    ensures Within(Shares(workers, n))
  {
    if workers != [] {
      SharesWithin(workers[..|workers| - 1], n);
      ShareWithin(workers[|workers| - 1], n);
      hide Share;
    }
  }

  lemma {:induction false} CommittedWithin(done: seq<Commit>, n: nat)
    requires forall i :: 0 <= i < |done| ==> -WSCALE <= done[i].value <= WSCALE
    ensures Within(Committed(done, n))
  {
    if done != [] {
      CommittedWithin(done[..|done| - 1], n);
    }
  }

  /** QP0 of a node, its counters read at one moment. */
  function MeanValue(t: Tally): real {
    if t.visits + t.virtual == 0 then 0.0
    else t.weight as real / WSCALE as real / (t.visits + t.virtual) as real
  }

  /** Because a backup counts its visit before its value, |W| <= N * WScale holds at every moment, and
      so the mean value of a node stays in [-1, 1]. */
  lemma MeanInRange(rollouts: nat, states: seq<Search>, events: seq<Event>, i: nat, n: nat)
    requires IsRun(rollouts, states, events) && UnitValues(events) && i < |states| && n < |states[i].pool|
    ensures Within(states[i].pool[n].tally) && -1.0 <= MeanValue(states[i].pool[n].tally) <= 1.0
  {
    var s := states[i];
    RunInv(rollouts, states, events, i);
    RunBounded(rollouts, states, events, i);
    SharesWithin(s.workers, n);
    CommittedWithin(s.done, n);
    LeaksCount(s.leaked, n);
    CountersAreRollouts(rollouts, states, events, i, n);
    assert s.pool[n].tally == Origin(s, n);
    hide Shares, Committed, Leaks, Inv;
    QuotientInRange(s.pool[n].tally);
  }

  lemma QuotientInRange(t: Tally)
    requires Within(t) && t.visits >= 0 && t.virtual >= 0
    ensures -1.0 <= MeanValue(t) <= 1.0
  {
    var total := t.visits + t.virtual;
    if total > 0 {
      var w, d := t.weight as real / WSCALE as real, total as real;
      assert -d <= w <= d;
      DivideInRange(w, d);
    }
  }

  lemma DivideInRange(w: real, d: real)
    requires d > 0.0 && -d <= w <= d
    ensures -1.0 <= w / d <= 1.0
  {
    assert w / d <= d / d && -d / d <= w / d;
  }

  // ---- A mean read while others write ----

  /** QP0 as it is computed: visits, virtual loss and weight are loaded one after the other. */
  function TornMean(visits: int, virtual: int, weight: int): real { MeanValue(Tally(visits, weight, virtual)) }

  lemma StepKeepsVisits(s: Search, rollouts: nat, e: Event, n: nat)
    requires Enabled(s, rollouts, e) && n < |s.pool|
    ensures n < |Next(s, rollouts, e).pool| && s.pool[n].tally.visits <= Next(s, rollouts, e).pool[n].tally.visits
  {
  }

  lemma {:induction false} VisitsGrow(rollouts: nat, states: seq<Search>, events: seq<Event>, i: nat, k: nat, n: nat)
    requires IsRun(rollouts, states, events) && i <= k < |states| && n < |states[i].pool|
    ensures n < |states[k].pool| && states[i].pool[n].tally.visits <= states[k].pool[n].tally.visits
    decreases k
  {
    hide Next, Enabled;
    if i < k {
      VisitsGrow(rollouts, states, events, i, k - 1, n);
      StepKeepsVisits(states[k - 1], rollouts, events[k - 1], n);
    }
  }

  /** A mean that is loaded at three moments is at most the visits at the last over the total that was
      loaded.  So it is in range if no visit was added in between. */
  lemma TornMeanBound(rollouts: nat, states: seq<Search>, events: seq<Event>, i: nat, j: nat, k: nat, n: nat)
    requires IsRun(rollouts, states, events) && UnitValues(events) && i <= j <= k < |states| && n < |states[i].pool|
    ensures n < |states[j].pool| && n < |states[k].pool|
    ensures var first, last := states[i].pool[n].tally, states[k].pool[n].tally;
      var mean, total := TornMean(first.visits, states[j].pool[n].tally.virtual, last.weight), first.visits + states[j].pool[n].tally.virtual;
      && total >= 0 && first.visits <= last.visits
      && -(last.visits as real) <= mean * total as real <= last.visits as real
      && (first.visits == last.visits ==> -1.0 <= mean <= 1.0)
  {
    hide Enabled, Next, MeanValue, UnitValues, IsRun, Holding, Abandoned, Through, Visiting, TornMean, Within;
    VisitsGrow(rollouts, states, events, i, j, n);
    VisitsGrow(rollouts, states, events, i, k, n);
    CountersAreRollouts(rollouts, states, events, i, n);
    CountersAreRollouts(rollouts, states, events, j, n);
    MeanInRange(rollouts, states, events, k, n);
    TornBound(states[i].pool[n].tally.visits, states[j].pool[n].tally.virtual, states[k].pool[n].tally);
  }

  lemma TornBound(visits: int, virtual: int, last: Tally)
    requires Within(last) && 0 <= visits <= last.visits && virtual >= 0
    ensures var mean := TornMean(visits, virtual, last.weight);
      && -(last.visits as real) <= mean * (visits + virtual) as real <= last.visits as real
      && (visits == last.visits ==> -1.0 <= mean <= 1.0)
  {
    var total := visits + virtual;
    if total > 0 {
      var w, d := last.weight as real / WSCALE as real, total as real;
      assert -(last.visits as real) <= w <= last.visits as real;
      assert TornMean(visits, virtual, last.weight) * d == w;
      if visits == last.visits { DivideInRange(w, d); }
    }
  }

  // ---- A mean out of range ----

  /** The events lead from s to t. */
  ghost predicate Leads(rollouts: nat, s: Search, events: seq<Event>, t: Search)
    decreases |events|
  {
    if events == [] then s == t
    else Enabled(s, rollouts, events[0]) && Leads(rollouts, Next(s, rollouts, events[0]), events[1..], t)
  }

  ghost predicate FullValues(events: seq<Event>) {
    forall i :: 0 <= i < |events| && (events[i].Terminal? || events[i].Expand?) ==> events[i].value == WSCALE
  }

  lemma RunMore(rollouts: nat, states: seq<Search>, events: seq<Event>, e: Event)
    requires states != [] && IsRun(rollouts, states, events) && Enabled(states[|states| - 1], rollouts, e)
    ensures IsRun(rollouts, states + [Next(states[|states| - 1], rollouts, e)], events + [e])
  {
    hide Enabled, Next;
  }

  lemma FirstOf(rollouts: nat, s: Search, events: seq<Event>, t: Search)
    requires Leads(rollouts, s, events, t) && events != [] && FullValues(events)
    ensures Enabled(s, rollouts, events[0]) && Leads(rollouts, Next(s, rollouts, events[0]), events[1..], t)
    ensures FullValues([events[0]]) && FullValues(events[1..])
  {
    hide Enabled, Next;
    assert forall i :: 0 <= i < |events[1..]| ==> events[1..][i] == events[i + 1];
  }

  lemma FullMore(events: seq<Event>, e: Event)
    requires FullValues(events) && FullValues([e])
    ensures FullValues(events + [e])
  {
    assert [e][0] == e;
  }

  lemma {:induction false} Extend(rollouts: nat, states: seq<Search>, events: seq<Event>, more: seq<Event>, t: Search)
    returns (states': seq<Search>, events': seq<Event>)
    requires states != [] && IsRun(rollouts, states, events) && FullValues(events) && FullValues(more)
    requires Leads(rollouts, states[|states| - 1], more, t)
    ensures IsRun(rollouts, states', events') && FullValues(events') && states <= states' && states' != [] && states'[|states'| - 1] == t
    decreases |more|
  {
    hide IsRun, FullValues, Enabled, Next;
    if more == [] {
      states', events' := states, events;
    } else {
      var s := states[|states| - 1];
      FirstOf(rollouts, s, more, t);
      FullMore(events, more[0]);
      hide Leads;
      RunMore(rollouts, states, events, more[0]);
      states', events' := Extend(rollouts, states + [Next(s, rollouts, more[0])], events + [more[0]], more[1..], t);
    }
  }

  /** One more step at the front. */
  lemma Before(rollouts: nat, s: Search, e: Event, events: seq<Event>, t: Search) returns (more: seq<Event>)
    requires Enabled(s, rollouts, e) && Leads(rollouts, Next(s, rollouts, e), events, t)
    requires FullValues(events) && (e.Terminal? || e.Expand? ==> e.value == WSCALE)
    ensures Leads(rollouts, s, more, t) && FullValues(more)
  {
    more := [e] + events;
    assert more[1..] == events;
    assert forall i :: 0 < i < |more| ==> more[i] == events[i - 1];
  }

  lemma Nowhere(rollouts: nat, t: Search)
    ensures Leads(rollouts, t, [], t) && FullValues([])
  {
  }

  /** Two workers on a root with one child. */
  ghost predicate Small(s: Search) {
    |s.pool| == 2 && |s.workers| == 2 && !s.failed && s.pool[0].expanded && s.pool[0].children == [1]
  }

  function Up(at: nat, stage: Stage): Worker { Backup([0, 1], WSCALE, at, stage) }

  /** A rollout reaches the child, where the game ends with the value 1. */
  lemma Arrives(s: Search, w: nat) returns (events: seq<Event>, t: Search)
    requires Small(s) && w < 2 && s.workers[w].Idle? && s.started < 2
    ensures FullValues(events) && Leads(2, s, events, t)
    ensures Small(t) && t.workers == s.workers[w := Up(0, AddVisit)] && t.started == s.started + 1
    ensures t.pool[1].tally == Plus(s.pool[1].tally, Tally(0, 0, 1))
  {
    hide Leads, FullValues;
    var s1 := Next(s, 2, Take(w));
    var s2 := Next(s1, 2, Enter(w));
    assert s2.workers[w] == Descend([0]) && s2.pool[0].children == [1] && |s2.pool| == 2 && s2.pool[0].expanded;
    var s3 := Next(s2, 2, Choose(w, 0));
    assert [0] + [1] == [0, 1];
    t := Next(s3, 2, Terminal(w, WSCALE));
    Nowhere(2, t);
    events := Before(2, s3, Terminal(w, WSCALE), [], t);
    events := Before(2, s2, Choose(w, 0), events, t);
    events := Before(2, s1, Enter(w), events, t);
    events := Before(2, s, Take(w), events, t);
  }

  /** It backs its value up at the root, which leaves the child's counters alone. */
  lemma PassesRoot(s: Search, w: nat) returns (events: seq<Event>, t: Search)
    requires Small(s) && w < 2 && s.workers[w] == Up(0, AddVisit)
    ensures FullValues(events) && Leads(2, s, events, t)
    ensures Small(t) && t.workers == s.workers[w := Up(1, AddVisit)] && t.started == s.started && t.pool[1] == s.pool[1]
  {
    hide Leads, FullValues;
    var s1 := Next(s, 2, BackupStep(w));
    var s2 := Next(s1, 2, BackupStep(w));
    t := Next(s2, 2, BackupStep(w));
    Nowhere(2, t);
    events := Before(2, s2, BackupStep(w), [], t);
    events := Before(2, s1, BackupStep(w), events, t);
    events := Before(2, s, BackupStep(w), events, t);
  }

  /** It adds its visit and its value to the child. */
  lemma CountsChild(s: Search, w: nat) returns (events: seq<Event>, t: Search)
    requires Small(s) && w < 2 && s.workers[w] == Up(1, AddVisit)
    ensures FullValues(events) && Leads(2, s, events, t)
    ensures Small(t) && t.workers == s.workers[w := Up(1, DropVirtual)] && t.started == s.started
    ensures t.pool[1].tally == Plus(s.pool[1].tally, Tally(1, WSCALE, 0))
  {
    hide Leads, FullValues;
    var s1 := Next(s, 2, BackupStep(w));
    t := Next(s1, 2, BackupStep(w));
    Nowhere(2, t);
    events := Before(2, s1, BackupStep(w), [], t);
    events := Before(2, s, BackupStep(w), events, t);
  }

  /** It takes its virtual loss back. */
  lemma LeavesChild(s: Search, w: nat) returns (events: seq<Event>, t: Search)
    requires Small(s) && w < 2 && s.workers[w] == Up(1, DropVirtual)
    ensures FullValues(events) && Leads(2, s, events, t)
    ensures Small(t) && t.workers == s.workers[w := Idle] && t.started == s.started
    ensures t.pool[1].tally == Plus(s.pool[1].tally, Tally(0, 0, -1))
  {
    hide Leads, FullValues;
    t := Next(s, 2, BackupStep(w));
    Nowhere(2, t);
    events := Before(2, s, BackupStep(w), [], t);
  }

  /** A rollout that has arrived is backed up as far as its value at the child. */
  lemma Backs(states: seq<Search>, events: seq<Event>, w: nat) returns (states': seq<Search>, events': seq<Event>)
    requires states != [] && IsRun(2, states, events) && FullValues(events) && w < 2
    requires var s := states[|states| - 1]; Small(s) && s.workers[w] == Up(0, AddVisit)
    ensures IsRun(2, states', events') && FullValues(events') && states <= states'
    ensures var s, t := states[|states| - 1], states'[|states'| - 1];
      Small(t) && t.workers == s.workers[w := Up(1, DropVirtual)] && t.pool[1].tally == Plus(s.pool[1].tally, Tally(1, WSCALE, 0))
  {
    hide Leads, IsRun, FullValues, Up;
    states', events' := states, events;
    var more, t := PassesRoot(states[|states| - 1], w);
    states', events' := Extend(2, states', events', more, t);
    more, t := CountsChild(t, w);
    states', events' := Extend(2, states', events', more, t);
  }

  /** Both rollouts have arrived, and no visit is counted yet. */
  lemma BothArrive() returns (states: seq<Search>, events: seq<Event>)
    ensures states != [] && IsRun(2, states, events) && FullValues(events)
    ensures var s := states[|states| - 1];
      Small(s) && s.workers == [Up(0, AddVisit), Up(0, AddVisit)] && s.pool[1].tally == Tally(0, 0, 2)
  {
    hide Leads, IsRun, FullValues;
    var start := Search([Node(NONE, true, [1], -1), Node(NONE, false, [], 0)], [Idle, Idle], 0, false, [], []);
    StartsRun(start);
    var more, t := Arrives(start, 0);
    states, events := Extend(2, [start], [], more, t);
    more, t := Arrives(t, 1);
    states, events := Extend(2, states, events, more, t);
  }

  /** Visits loaded before the first of two backups, virtual loss after it, weight during the second: the
      child's mean comes out as 2, though both values are 1. */
  lemma TornMeanExample() returns (states: seq<Search>, events: seq<Event>, i: nat, j: nat, k: nat)
    ensures IsRun(2, states, events) && UnitValues(events) && i <= j <= k < |states|
    ensures 1 < |states[i].pool| && 1 < |states[j].pool| && 1 < |states[k].pool|
    ensures TornMean(states[i].pool[1].tally.visits, states[j].pool[1].tally.virtual, states[k].pool[1].tally.weight) == 2.0
  {
    hide Leads, IsRun, FullValues, Scaled, UnitValues, Up;
    states, events := BothArrive();
    i := |states| - 1;
    states, events := Backs(states, events, 0);
    var more, t := LeavesChild(states[|states| - 1], 0);
    states, events := Extend(2, states, events, more, t);
    j := |states| - 1;
    states, events := Backs(states, events, 1);
    k := |states| - 1;
    FullIsUnit(events);
  }

  lemma StartsRun(s: Search)
    requires s == Search([Node(NONE, true, [1], -1), Node(NONE, false, [], 0)], [Idle, Idle], 0, false, [], [])
    ensures IsRun(2, [s], []) && FullValues([])
  {
    var linked := Link([FRESH], 0, 1);
    assert Ids(1, 1) == [1];
    assert linked[0] == s.pool[0] && linked[1] == s.pool[1];
    assert s.pool == linked;
  }

  lemma FullIsUnit(events: seq<Event>)
    requires FullValues(events)
    ensures UnitValues(events)
  {
    assert Scaled(1.0) == WSCALE;
  }
}
