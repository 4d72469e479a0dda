/** Kahn's sort of interp/loader_topo.go, and the whole loader. */
module LoaderKahn {
  import opened LoaderTopo

  /** g[i]: the other files that file i needs. */
  type Graph = seq<set<nat>>

  ghost predicate WellFormed(g: Graph) {
    forall i :: 0 <= i < |g| ==> i !in g[i] && forall j :: j in g[i] ==> j < |g|
  }

  function GraphOf(files: seq<File>, provider: map<Symbol, int>): Graph {
    seq(|files|, i requires 0 <= i < |files| => Sources(files, provider, i) - {i})
  }

  // ---- Order and cycles ----

  ghost predicate Distinct(s: seq<nat>) { forall i, j :: 0 <= i < j < |s| ==> s[i] != s[j] }

  function Taken(s: seq<nat>, k: nat): set<nat>
    requires k <= |s|
  {
    set m | 0 <= m < k :: s[m]
  }

  /** Each file once, after everything it needs. */
  ghost predicate Ordered(g: Graph, s: seq<nat>) {
    && Distinct(s) && (forall k :: 0 <= k < |s| ==> s[k] < |g|)
    && forall k :: 0 <= k < |s| ==> g[s[k]] <= Taken(s, k)
  }

  ghost predicate Path(g: Graph, w: seq<nat>) {
    && w != [] && (forall k :: 0 <= k < |w| ==> w[k] < |g|)
    && forall k :: 0 <= k < |w| - 1 ==> w[k + 1] in g[w[k]]
  }

  /** Following needs from file i can lead into a cycle. */
  ghost predicate ReachesCycle(g: Graph, i: nat) {
    exists w: seq<nat>, a, b :: 0 <= a < b < |w| && w[a] == w[b] && w[0] == i && Path(g, w)
  }

  lemma {:induction false} NeedsEarlier(g: Graph, s: seq<nat>, w: seq<nat>, p: nat, b: nat)
    requires Ordered(g, s) && Path(g, w) && p < |s| && w[0] == s[p] && 0 < b < |w|
    ensures exists q :: 0 <= q < p && s[q] == w[b]
    decreases b
  {
    assert w[1] in g[s[p]];
    var q :| 0 <= q < p && s[q] == w[1];
    if b > 1 {
      var rest := w[1..];
      assert forall k :: 0 <= k < |rest| ==> rest[k] == w[k + 1];
      NeedsEarlier(g, s, rest, q, b - 1);
    }
  }

  lemma NoReturn(g: Graph, s: seq<nat>, w: seq<nat>, a: nat, b: nat)
    requires Ordered(g, s) && Path(g, w) && w[0] in s && a < b < |w|
    ensures w[a] != w[b]
  {
    var p: nat :| p < |s| && s[p] == w[0];
    var at: nat := p;
    if a > 0 {
      NeedsEarlier(g, s, w, p, a);
      at :| at < p && s[at] == w[a];
    }
    var rest := w[a..];
    assert forall k :: 0 <= k < |rest| ==> rest[k] == w[k + a];
    NeedsEarlier(g, s, rest, at, b - a);
  }

  lemma OrderedAcyclic(g: Graph, s: seq<nat>, i: nat)
    requires Ordered(g, s) && i in s
    ensures !ReachesCycle(g, i)
  {
    hide Ordered, Path;
    forall w: seq<nat>, a: nat, b: nat | a < b < |w| && w[0] == i && Path(g, w) ensures w[a] != w[b] {
      NoReturn(g, s, w, a, b);
    }
  }

  lemma {:induction false} WalkOn(g: Graph, stuck: set<nat>, i: nat, steps: nat) returns (w: seq<nat>)
    requires i in stuck && forall k :: k in stuck ==> k < |g| && g[k] * stuck != {}
    ensures Path(g, w) && |w| == steps + 1 && w[0] == i
    decreases steps
  {
    if steps == 0 {
      w := [i];
    } else {
      var j :| j in g[i] * stuck;
      var rest := WalkOn(g, stuck, j, steps - 1);
      w := [i] + rest;
      assert forall k :: 1 <= k < |w| ==> w[k] == rest[k - 1];
    }
  }

  lemma {:induction false} DistinctSize(s: seq<nat>, n: nat)
    requires Distinct(s) && forall k :: 0 <= k < |s| ==> s[k] < n
    ensures |s| <= n && (|s| == n ==> forall i: nat :: i < n ==> i in s)
    decreases n
  {
    if n == 0 {
    } else if n - 1 in s {
      var p :| 0 <= p < |s| && s[p] == n - 1;
      var rest := s[..p] + s[p + 1..];
      assert forall k :: 0 <= k < |rest| ==> rest[k] == s[if k < p then k else k + 1];
      DistinctSize(rest, n - 1);
      forall i: nat | |s| == n && i < n - 1 ensures i in s { assert i in rest; }
    } else {
      forall k | 0 <= k < |s| ensures s[k] < n - 1 { assert s[k] in s; }
      DistinctSize(s, n - 1);
    }
  }

  lemma StuckReaches(g: Graph, stuck: set<nat>, i: nat)
    requires i in stuck && forall k :: k in stuck ==> k < |g| && g[k] * stuck != {}
    ensures ReachesCycle(g, i)
  {
    var w := WalkOn(g, stuck, i, |g|);
    if Distinct(w) { DistinctSize(w, |g|); }
    var a, b :| 0 <= a < b < |w| && w[a] == w[b];
  }

  // ---- Building the graph ----

  /** The files below `upto` that need j, ascending: edges[j]. */
  function Users(g: Graph, j: nat, upto: nat): seq<nat>
    requires upto <= |g|
  {
    if upto == 0 then [] else Users(g, j, upto - 1) + if j in g[upto - 1] then [upto - 1] else []
  }

  lemma {:induction false} UsersAre(g: Graph, j: nat, upto: nat)
    requires upto <= |g|
    ensures Distinct(Users(g, j, upto)) && forall i: nat :: i in Users(g, j, upto) <==> i < upto && j in g[i]
  {
    if upto > 0 {
      UsersAre(g, j, upto - 1);
      var u := Users(g, j, upto - 1);
      assert forall a :: 0 <= a < |u| ==> u[a] in u;
    }
  }

  /** The needs of file i that its first k dependencies reveal. */
  function NeedsBy(files: seq<File>, provider: map<Symbol, int>, i: nat, k: nat): set<nat>
    requires i < |files| && k <= |files[i].depends| && forall symbol :: symbol in files[i].depends ==> symbol in provider
  {
    set m | 0 <= m < k && provider[files[i].depends[m]] >= 0 && provider[files[i].depends[m]] != i :: provider[files[i].depends[m]]
  }

  lemma NeedsByAll(files: seq<File>, provider: map<Symbol, int>, i: nat)
    requires i < |files| && forall symbol :: symbol in files[i].depends ==> symbol in provider
    ensures NeedsBy(files, provider, i, |files[i].depends|) == GraphOf(files, provider)[i]
  {
    var depends := files[i].depends;
    forall j | j in Sources(files, provider, i) && j != i ensures j in NeedsBy(files, provider, i, |depends|) {
      var symbol :| symbol in depends && symbol in provider && provider[symbol] >= 0 && provider[symbol] == j;
      var m :| 0 <= m < |depends| && depends[m] == symbol;
    }
  }

  lemma NeedsByMore(files: seq<File>, provider: map<Symbol, int>, i: nat, k: nat)
    requires i < |files| && k < |files[i].depends| && forall symbol :: symbol in files[i].depends ==> symbol in provider
    ensures var j := provider[files[i].depends[k]];
      NeedsBy(files, provider, i, k + 1) == NeedsBy(files, provider, i, k) + if j >= 0 && j != i then {j} else {}
  {
  }

  /** i has been appended to the lists of all js. */
  ghost predicate Joined(before: seq<seq<nat>>, after: seq<seq<nat>>, js: set<nat>, i: nat) {
    |before| == |after| && forall j :: 0 <= j < |after| ==> after[j] == before[j] + if j in js then [i] else []
  }

  lemma JoinedMore(before: seq<seq<nat>>, after: seq<seq<nat>>, js: set<nat>, i: nat, j: nat)
    requires Joined(before, after, js, i) && j < |after| && j !in js
    ensures Joined(before, after[j := after[j] + [i]], js + {j}, i)
  {
  }

  method AddEdge(inDeg: array<int>, edges: array<seq<nat>>, j: nat, i: nat)
    requires j < edges.Length && i < inDeg.Length
    modifies inDeg, edges
    ensures edges[..] == old(edges[..])[j := old(edges[..])[j] + [i]]
    ensures inDeg[..] == old(inDeg[..])[i := old(inDeg[..])[i] + 1]
  {
    edges[j] := edges[j] + [i];
    inDeg[i] := inDeg[i] + 1;
  }

  lemma NothingJoined(files: seq<File>, provider: map<Symbol, int>, i: nat, lists: seq<seq<nat>>)
    requires i < |files| && forall symbol :: symbol in files[i].depends ==> symbol in provider
    ensures NeedsBy(files, provider, i, 0) == {} && Joined(lists, lists, {}, i)
  {
  }

  /** Enters file i as a user of each file it needs, once. */
  method Connect(files: seq<File>, provider: map<Symbol, int>, i: nat, inDeg: array<int>, edges: array<seq<nat>>)
    requires i < |files| == inDeg.Length == edges.Length && inDeg[i] == 0
    requires forall symbol :: symbol in provider ==> provider[symbol] < |files|
    requires forall symbol :: symbol in files[i].depends ==> symbol in provider
    modifies inDeg, edges
    ensures inDeg[..] == old(inDeg[..])[i := |GraphOf(files, provider)[i]|]
    ensures Joined(old(edges[..]), edges[..], GraphOf(files, provider)[i], i)
  {
    hide NeedsBy, GraphOf, Joined;
    var seen: set<nat> := {};
    var depends := files[i].depends;
    NothingJoined(files, provider, i, edges[..]);
    for k := 0 to |depends|
      invariant seen == NeedsBy(files, provider, i, k)
      invariant inDeg[..] == old(inDeg[..])[i := |seen|]
      invariant Joined(old(edges[..]), edges[..], seen, i)
    {
      var j := provider[depends[k]];
      NeedsByMore(files, provider, i, k);
      if j >= 0 && j != i && j !in seen {
        JoinedMore(old(edges[..]), edges[..], seen, i, j);
        seen := seen + {j};
        AddEdge(inDeg, edges, j, i);
      }
    }
    NeedsByAll(files, provider, i);
  }

  ghost predicate AllUsers(g: Graph, lists: seq<seq<nat>>, upto: nat) {
    upto <= |g| == |lists| && forall j :: 0 <= j < |g| ==> lists[j] == Users(g, j, upto)
  }

  lemma UsersJoin(g: Graph, before: seq<seq<nat>>, after: seq<seq<nat>>, i: nat)
    requires i < |g| && AllUsers(g, before, i) && Joined(before, after, g[i], i)
    ensures AllUsers(g, after, i + 1)
  {
  }

  ghost predicate AllDegrees(g: Graph, inDeg: seq<int>, upto: nat) {
    |g| == |inDeg| && forall i :: 0 <= i < |g| ==> inDeg[i] == if i < upto then |g[i]| else 0
  }

  method BuildGraph(files: seq<File>, provider: map<Symbol, int>) returns (inDeg: array<int>, edges: array<seq<nat>>)
    requires forall symbol :: symbol in provider ==> provider[symbol] < |files|
    requires forall i, symbol :: 0 <= i < |files| && symbol in files[i].depends ==> symbol in provider
    ensures fresh(inDeg) && fresh(edges)
    ensures AllDegrees(GraphOf(files, provider), inDeg[..], |files|) && AllUsers(GraphOf(files, provider), edges[..], |files|)
  {
    var n := |files|;
    ghost var g := GraphOf(files, provider);
    inDeg := new int[n](_ => 0);
    edges := new seq<nat>[n](_ => []);
    assert |g| == n;
    hide GraphOf;
    for i := 0 to n
      invariant AllDegrees(g, inDeg[..], i) && AllUsers(g, edges[..], i)
    {
      hide AllUsers, AllDegrees, Joined;
      ghost var lists, degrees := edges[..], inDeg[..];
      TableSizes(g, lists, degrees, i);
      Connect(files, provider, i, inDeg, edges);
      UsersJoin(g, lists, edges[..], i);
      DegreeEntered(g, degrees, i);
    }
  }

  lemma TableSizes(g: Graph, lists: seq<seq<nat>>, inDeg: seq<int>, upto: nat)
    requires AllUsers(g, lists, upto) && AllDegrees(g, inDeg, upto)
    ensures |lists| == |inDeg| == |g| && (upto < |g| ==> inDeg[upto] == 0)
  {
  }

  lemma DegreeEntered(g: Graph, inDeg: seq<int>, i: nat)
    requires AllDegrees(g, inDeg, i) && i < |g|
    ensures AllDegrees(g, inDeg[i := |g[i]|], i + 1)
  {
  }

  // ---- The sort ----

  /** How many of its needs file i still waits for: `next` is finished too for the files in `visited`. */
  ghost predicate Degrees(g: Graph, finished: set<nat>, next: nat, visited: seq<nat>, inDeg: seq<int>) {
    && |inDeg| == |g|
    && forall i: nat :: i < |g| ==> inDeg[i] == |g[i] - if i in visited then finished + {next} else finished|
  }

  /** A file is queued as soon as it waits for nothing. */
  ghost predicate QueuedIffFree(g: Graph, queue: seq<nat>, inDeg: seq<int>) {
    |inDeg| == |g| && forall i: nat :: i < |g| ==> (i in queue <==> inDeg[i] == 0)
  }

  lemma OrderedMore(g: Graph, queue: seq<nat>, i: nat, k: nat)
    requires Ordered(g, queue) && i < |g| && i !in queue && k <= |queue| && g[i] <= Taken(queue, k)
    ensures Ordered(g, queue + [i])
    ensures forall m: nat :: m <= |queue| ==> Taken(queue + [i], m) == Taken(queue, m)
  {
    var more := queue + [i];
    forall m: nat | m <= |queue| ensures Taken(more, m) == Taken(queue, m) {
      assert forall x :: 0 <= x < m ==> more[x] == queue[x];
    }
  }

  lemma AtHead(g: Graph, queue: seq<nat>, head: nat, lists: seq<seq<nat>>)
    requires Ordered(g, queue) && head < |queue| && AllUsers(g, lists, |g|)
    ensures queue[head] < |g| == |lists| && queue[head] !in Taken(queue, head)
    ensures Taken(queue, head + 1) == Taken(queue, head) + {queue[head]}
    ensures var users := lists[queue[head]];
      && (forall i: nat :: i in users <==> i < |g| && queue[head] in g[i])
      && (forall m :: 0 <= m < |users| ==> users[m] in users && users[m] !in users[..m])
  {
    UsersAre(g, queue[head], |g|);
  }

  lemma StartVisit(g: Graph, finished: set<nat>, next: nat, inDeg: seq<int>)
    requires Degrees(g, finished, 0, [], inDeg)
    ensures Degrees(g, finished, next, [], inDeg)
  {
  }

  lemma VisitDegrees(g: Graph, finished: set<nat>, next: nat, visited: seq<nat>, inDeg: seq<int>, i: nat)
    requires Degrees(g, finished, next, visited, inDeg) && i < |g| && i !in visited && next in g[i] && next !in finished
    ensures Degrees(g, finished, next, visited + [i], inDeg[i := inDeg[i] - 1])
    ensures inDeg[i] >= 1 && (inDeg[i] == 1 ==> g[i] <= finished + {next})
  {
    var need := g[i] - finished;
    assert g[i] - (finished + {next}) == need - {next};
    assert next in need && |need - {next}| == |need| - 1;
    if inDeg[i] == 1 { assert need - {next} == {}; }
  }

  lemma VisitQueue(g: Graph, queue: seq<nat>, inDeg: seq<int>, i: nat)
    requires QueuedIffFree(g, queue, inDeg) && i < |g| && inDeg[i] >= 1
    ensures i !in queue && QueuedIffFree(g, if inDeg[i] == 1 then queue + [i] else queue, inDeg[i := inDeg[i] - 1])
  {
  }

  lemma AllVisited(g: Graph, finished: set<nat>, next: nat, visited: seq<nat>, inDeg: seq<int>, further: nat)
    requires Degrees(g, finished, next, visited, inDeg) && forall i: nat :: i < |g| && next in g[i] ==> i in visited
    ensures Degrees(g, finished + {next}, further, [], inDeg)
  {
    forall i: nat | i < |g| && i !in visited ensures g[i] - finished == g[i] - (finished + {next}) { }
  }

  /** The files that need nothing. */
  method Roots(ghost g: Graph, inDeg: array<int>) returns (queue: seq<nat>)
    requires AllDegrees(g, inDeg[..], |g|)
    ensures Ordered(g, queue) && QueuedIffFree(g, queue, inDeg[..])
  {
    queue := [];
    for i := 0 to inDeg.Length
      invariant Ordered(g, queue)
      invariant forall k :: k in queue ==> k < i
      invariant forall k: nat :: k < i ==> (k in queue <==> inDeg[k] == 0)
    {
      if inDeg[i] == 0 {
        OrderedMore(g, queue, i, 0);
        queue := queue + [i];
      }
    }
    assert forall k :: 0 <= k < inDeg.Length ==> inDeg[k] == inDeg[..][k];
  }

  lemma StartDegrees(g: Graph, queue: seq<nat>, inDeg: seq<int>)
    requires AllDegrees(g, inDeg, |g|)
    ensures |inDeg| == |g| && Degrees(g, Taken(queue, 0), 0, [], inDeg)
  {
    assert Taken(queue, 0) == {};
  }

  lemma OrderedSize(g: Graph, queue: seq<nat>)
    requires Ordered(g, queue)
    ensures |queue| <= |g|
  {
    DistinctSize(queue, |g|);
  }

  /** The queue at the end of the sort. */
  method Drain(ghost g: Graph, inDeg: array<int>, edges: array<seq<nat>>) returns (queue: seq<nat>)
    requires WellFormed(g) && AllDegrees(g, inDeg[..], |g|) && AllUsers(g, edges[..], |g|)
    modifies inDeg
    ensures Ordered(g, queue) && QueuedIffFree(g, queue, inDeg[..])
    ensures Degrees(g, Taken(queue, |queue|), 0, [], inDeg[..])
  {
    hide Degrees, QueuedIffFree, AllUsers, AllDegrees, WellFormed, Ordered, Taken;
    queue := Roots(g, inDeg);
    StartDegrees(g, queue, inDeg[..]);
    var head, n := 0, inDeg.Length;
    while head < |queue|
      invariant head <= |queue| && Ordered(g, queue) && QueuedIffFree(g, queue, inDeg[..])
      invariant Degrees(g, Taken(queue, head), 0, [], inDeg[..])
      decreases n - head
    {
      OrderedSize(g, queue);
      queue := Finish(g, inDeg, edges, queue, head);
      head := head + 1;
    }
  }

  /** Visits the users of queue[head]. */
  method Finish(ghost g: Graph, inDeg: array<int>, edges: array<seq<nat>>, start: seq<nat>, head: nat) returns (queue: seq<nat>)
    requires WellFormed(g) && inDeg.Length == |g| && AllUsers(g, edges[..], |g|) && head < |start|
    requires Ordered(g, start) && QueuedIffFree(g, start, inDeg[..])
    requires Degrees(g, Taken(start, head), 0, [], inDeg[..])
    modifies inDeg
    ensures start <= queue && Ordered(g, queue) && QueuedIffFree(g, queue, inDeg[..])
    ensures Degrees(g, Taken(queue, head + 1), 0, [], inDeg[..])
  {
    hide Ordered, QueuedIffFree, Degrees, Taken, Users, WellFormed, AllUsers;
    queue := start;
    ghost var finished := Taken(queue, head);
    AtHead(g, queue, head, edges[..]);
    var idx := queue[head];
    var users := edges[idx];
    StartVisit(g, finished, idx, inDeg[..]);
    assert users[..0] == [];
    for m := 0 to |users|
      invariant start <= queue && Taken(queue, head + 1) == finished + {idx}
      invariant Ordered(g, queue) && QueuedIffFree(g, queue, inDeg[..])
      invariant Degrees(g, finished, idx, users[..m], inDeg[..])
    {
      var dep := users[m];
      VisitDegrees(g, finished, idx, users[..m], inDeg[..], dep);
      VisitQueue(g, queue, inDeg[..], dep);
      ghost var degrees := inDeg[..];
      inDeg[dep] := inDeg[dep] - 1;
      assert inDeg[..] == degrees[dep := degrees[dep] - 1] && users[..m + 1] == users[..m] + [dep];
      if inDeg[dep] == 0 {
        OrderedMore(g, queue, dep, head + 1);
        queue := queue + [dep];
      }
    }
    assert users[..|users|] == users;
    AllVisited(g, finished, idx, users, inDeg[..], 0);
  }

  // ---- The loader ----

  lemma GraphFits(files: seq<File>, provider: map<Symbol, int>)
    requires forall symbol :: symbol in provider ==> provider[symbol] < |files|
    ensures WellFormed(GraphOf(files, provider)) && |GraphOf(files, provider)| == |files|
  {
  }

  lemma StuckNeedsStuck(g: Graph, queue: seq<nat>, inDeg: seq<int>, stuck: set<nat>, i: nat)
    requires WellFormed(g) && QueuedIffFree(g, queue, inDeg) && Degrees(g, Taken(queue, |queue|), 0, [], inDeg)
    requires stuck == (set i: nat | i < |g| && inDeg[i] != 0) && i in stuck
    ensures g[i] * stuck != {} && inDeg[i] > 0
  {
    var need := g[i] - Taken(queue, |queue|);
    assert |need| > 0;
    var j :| j in need;
    assert forall k :: 0 <= k < |queue| ==> queue[k] in Taken(queue, |queue|);
    assert j in g[i] * stuck;
  }

  /** Exactly the files that never got free reach a cycle. */
  lemma LeftOver(g: Graph, queue: seq<nat>, inDeg: seq<int>)
    requires WellFormed(g) && Ordered(g, queue) && QueuedIffFree(g, queue, inDeg)
    requires Degrees(g, Taken(queue, |queue|), 0, [], inDeg)
    ensures |inDeg| == |g| && (set i: nat | i < |g| && inDeg[i] > 0) == OnOrBehindCycles(g)
    ensures |queue| == |g| <==> OnOrBehindCycles(g) == {}
  {
    hide Ordered, ReachesCycle, Degrees, WellFormed, Taken;
    var stuck := set i: nat | i < |g| && inDeg[i] != 0;
    forall i | i in stuck ensures g[i] * stuck != {} && inDeg[i] > 0 { StuckNeedsStuck(g, queue, inDeg, stuck, i); }
    forall i: nat | i < |g| ensures i in stuck <==> ReachesCycle(g, i) {
      if i in stuck { StuckReaches(g, stuck, i); } else { OrderedAcyclic(g, queue, i); }
    }
    assert stuck == OnOrBehindCycles(g);
    AllQueued(g, queue);
    assert (forall i: nat :: i < |g| ==> i in queue) <==> stuck == {};
  }

  lemma AllQueued(g: Graph, queue: seq<nat>)
    requires Ordered(g, queue)
    ensures |queue| == |g| <==> forall i: nat :: i < |g| ==> i in queue
  {
    DistinctSize(queue, |g|);
    if forall i: nat :: i < |g| ==> i in queue { Covers(queue, |g|); }
  }

  lemma {:induction false} Covers(s: seq<nat>, n: nat)
    requires forall i: nat :: i < n ==> i in s
    ensures |s| >= n
    decreases n
  {
    if n > 0 {
      assert n - 1 in s;
      var p :| 0 <= p < |s| && s[p] == n - 1;
      var rest := s[..p] + s[p + 1..];
      forall i: nat | i < n - 1 ensures i in rest {
        assert i in s;
        var q :| 0 <= q < |s| && s[q] == i;
        assert rest[if q < p then q else q - 1] == i;
      }
      Covers(rest, n - 1);
    }
  }

  /** The members of a set, ascending. */
  ghost predicate Lists(indices: seq<nat>, members: set<nat>) {
    (forall i: nat :: i in indices <==> i in members) && forall a, b :: 0 <= a < b < |indices| ==> indices[a] < indices[b]
  }

  ghost function Unloadables(files: seq<File>, provider: map<Symbol, int>): set<nat> {
    set i: nat | i < |files| && Unloadable(files, provider, i)
  }

  ghost function OnOrBehindCycles(g: Graph): set<nat> { set i: nat | i < |g| && ReachesCycle(g, i) }

  /** Every symbol somebody needs is provided once no file is unloadable. */
  lemma NothingLacks(files: seq<File>, provider: map<Symbol, int>)
    requires Unloadables(files, provider) == {}
    ensures forall i, symbol :: 0 <= i < |files| && symbol in files[i].depends ==> symbol in provider
  {
    forall i, symbol | 0 <= i < |files| && symbol in files[i].depends ensures symbol in provider {
      assert i !in Unloadables(files, provider);
      if symbol !in provider { MarkedUnloadable(files, provider, i, symbol); }
    }
  }

  /** What a reason says once the analysis is over. */
  ghost predicate True(files: seq<File>, provider: map<Symbol, int>, i: nat, reason: Reason) {
    && i < |files| && reason.symbol in files[i].depends
    && match reason
       case Missing(symbol) => symbol !in provider
       case FromBroken(symbol, p) => symbol in provider && provider[symbol] == p && Unloadable(files, provider, p)
  }

  ghost predicate Explained(files: seq<File>, provider: map<Symbol, int>, i: nat, why: seq<Reason>) {
    why != [] && forall m :: 0 <= m < |why| ==> True(files, provider, i, why[m])
  }

  lemma MarkExplained(files: seq<File>, provider: map<Symbol, int>, broken: seq<bool>, reasons: seq<seq<Reason>>, i: nat)
    requires Marked(files, provider, broken, reasons) && i < |files| && broken[i]
    ensures i < |reasons| && Explained(files, provider, i, reasons[i])
  {
    hide Unloadable;
  }

  /** The broken files with their reasons. */
  method Failed(files: seq<File>, ghost provider: map<Symbol, int>, broken: array<bool>, reasons: array<seq<Reason>>)
    returns (failed: seq<nat>, why: seq<seq<Reason>>)
    requires Marked(files, provider, broken[..], reasons[..])
    ensures Lists(failed, set i: nat | i < |files| && broken[i])
    ensures |why| == |failed| && forall k :: 0 <= k < |failed| ==> Explained(files, provider, failed[k], why[k])
  {
    hide Marked, Explained;
    MarksSound(files, provider, broken[..], reasons[..]);
    failed, why := [], [];
    for i := 0 to |files|
      invariant Lists(failed, set k: nat | k < i && broken[k]) && |why| == |failed|
      invariant forall k :: 0 <= k < |failed| ==> failed[k] < i
      invariant forall k :: 0 <= k < |failed| ==> Explained(files, provider, failed[k], why[k])
    {
      if broken[i] {
        MarkExplained(files, provider, broken[..], reasons[..], i);
        failed, why := failed + [i], why + [reasons[i]];
      }
    }
  }

  method Unfinished(inDeg: array<int>) returns (cycle: seq<nat>)
    ensures Lists(cycle, set i: nat | i < inDeg.Length && inDeg[i] > 0)
  {
    cycle := [];
    for i := 0 to inDeg.Length
      invariant Lists(cycle, set k: nat | k < i && inDeg[k] > 0)
      invariant forall k :: 0 <= k < |cycle| ==> cycle[k] < i
    {
      if inDeg[i] > 0 { cycle := cycle + [i]; }
    }
  }

  /** The outcome the provider map calls for: refusal exactly for the unloadable files, then exactly for
      those on or behind a cycle; otherwise every file once, after every file that provides one of its
      dependencies. */
  ghost predicate Answers(files: seq<File>, provider: map<Symbol, int>, r: Result) {
    && (r.Err? && r.error.Unresolvable? <==> Unloadables(files, provider) != {})
    && (r.Err? && r.error.Circular? <==>
          Unloadables(files, provider) == {} && OnOrBehindCycles(GraphOf(files, provider)) != {})
    && match r
       case Err(Unresolvable(failed, reasons)) =>
         && Lists(failed, Unloadables(files, provider)) && |reasons| == |failed|
         && forall k :: 0 <= k < |failed| ==> Explained(files, provider, failed[k], reasons[k])
       case Err(Circular(cycle)) => Lists(cycle, OnOrBehindCycles(GraphOf(files, provider)))
       case Ok(sorted) => |sorted| == |files| && Ordered(GraphOf(files, provider), sorted)
  }

  /** There is only one provider map. */
  lemma ProviderMapUnique(pre: seq<Symbol>, files: seq<File>, a: map<Symbol, int>, b: map<Symbol, int>)
    requires IsProviderMap(pre, files, a) && IsProviderMap(pre, files, b)
    ensures a == b
  {
    forall symbol | symbol in a ensures symbol in b && a[symbol] == b[symbol] {
      assert Provides(pre, files, symbol, a[symbol]) && Provides(pre, files, symbol, b[symbol]);
    }
    assert forall symbol :: symbol in b ==> symbol in a;
  }

  // ---- What a load order is for ----

  /** When the k-th file of the list is loaded, whoever provides the symbol has been: the engine, the file itself,
      or an earlier file. */
  ghost predicate Available(pre: seq<Symbol>, files: seq<File>, s: seq<nat>, k: nat, symbol: Symbol)
    requires k < |s|
  {
    exists who :: Provides(pre, files, symbol, who) && (who == -1 || who == s[k] || exists m :: 0 <= m < k && s[m] == who)
  }

  /** Every file once, with all it depends on available. */
  ghost predicate LoadOrder(pre: seq<Symbol>, files: seq<File>, s: seq<nat>) {
    && |s| == |files| && Distinct(s) && (forall k :: 0 <= k < |s| ==> s[k] < |files|)
    && forall k: nat, symbol :: k < |s| && symbol in files[s[k]].depends ==> Available(pre, files, s, k, symbol)
  }

  lemma OrderLoads(pre: seq<Symbol>, files: seq<File>, provider: map<Symbol, int>, s: seq<nat>)
    requires IsProviderMap(pre, files, provider) && Unloadables(files, provider) == {}
    requires |s| == |files| && Ordered(GraphOf(files, provider), s)
    ensures LoadOrder(pre, files, s)
  {
    NothingLacks(files, provider);
    hide Unloadables;
    forall k: nat, symbol | k < |s| && symbol in files[s[k]].depends ensures Available(pre, files, s, k, symbol) {
      var who := provider[symbol];
      assert Provides(pre, files, symbol, who);
      if who >= 0 && who != s[k] {
        assert who in Sources(files, provider, s[k]);
        assert who in GraphOf(files, provider)[s[k]];
        assert who in Taken(s, k);
      }
    }
  }

  lemma ProviderIs(pre: seq<Symbol>, files: seq<File>, provider: map<Symbol, int>, symbol: Symbol, who: int)
    requires IsProviderMap(pre, files, provider) && Provides(pre, files, symbol, who)
    ensures symbol in provider && provider[symbol] == who
  {
    assert Provided(pre, files, symbol);
    assert Provides(pre, files, symbol, provider[symbol]);
  }

  lemma LoadOrderOrders(pre: seq<Symbol>, files: seq<File>, provider: map<Symbol, int>, s: seq<nat>)
    requires IsProviderMap(pre, files, provider) && LoadOrder(pre, files, s)
    ensures Ordered(GraphOf(files, provider), s) && forall i :: 0 <= i < |files| ==> i in s && !Lacks(files, provider, i)
  {
    var g := GraphOf(files, provider);
    forall k: nat, symbol | k < |s| && symbol in files[s[k]].depends
      ensures symbol in provider && (provider[symbol] >= 0 && provider[symbol] != s[k] ==> provider[symbol] in Taken(s, k))
    {
      var who :| Provides(pre, files, symbol, who) && (who == -1 || who == s[k] || exists m :: 0 <= m < k && s[m] == who);
      ProviderIs(pre, files, provider, symbol, who);
    }
    hide IsProviderMap;
    assert Ordered(g, s) && |s| == |g|;
    AllQueued(g, s);
    hide Ordered, Available;
    forall i: nat | i < |files| ensures i in s && !Lacks(files, provider, i) {
      assert i < |g| && i in s;
      var k :| 0 <= k < |s| && s[k] == i;
    }
  }

  lemma LoadableAnswers(pre: seq<Symbol>, files: seq<File>, provider: map<Symbol, int>, s: seq<nat>)
    requires IsProviderMap(pre, files, provider) && LoadOrder(pre, files, s)
    ensures Unloadables(files, provider) == {} && OnOrBehindCycles(GraphOf(files, provider)) == {}
  {
    LoadOrderOrders(pre, files, provider, s);
    var g := GraphOf(files, provider);
    hide Ordered, Lacks, GraphOf, IsProviderMap, LoadOrder, ReachesCycle;
    forall i: nat | i < |files| ensures !Unloadable(files, provider, i) {
      forall w: seq<nat> | Walk(files, provider, w) && w[0] == i ensures !Lacks(files, provider, w[|w| - 1]) { }
    }
    assert |g| == |files| by { GraphSize(files, provider); }
    forall i: nat | i < |g| ensures !ReachesCycle(g, i) { OrderedAcyclic(g, s, i); }
  }

  lemma GraphSize(files: seq<File>, provider: map<Symbol, int>)
    ensures |GraphOf(files, provider)| == |files|
  {
  }

  /** topoSortWithMeta.  It succeeds iff there is a load order, and then with one. */
  method TopoSort(pre: seq<Symbol>, files: seq<File>) returns (r: Result)
    ensures exists provider :: IsProviderMap(pre, files, provider) && Answers(files, provider, r)
    ensures r.Ok? ==> LoadOrder(pre, files, r.sorted)
    ensures r.Ok? <==> exists s :: LoadOrder(pre, files, s)
  {
    ghost var provider;
    r, provider := Sorted(pre, files);
    hide IsProviderMap, LoadOrder, Unloadables, OnOrBehindCycles, GraphOf, Ordered, Explained;
    if r.Ok? { OrderLoads(pre, files, provider, r.sorted); }
    if s :| LoadOrder(pre, files, s) { LoadableAnswers(pre, files, provider, s); }
  }

  method Sorted(pre: seq<Symbol>, files: seq<File>) returns (r: Result, ghost provider: map<Symbol, int>)
    ensures IsProviderMap(pre, files, provider) && Answers(files, provider, r)
  {
    hide Unloadable, ReachesCycle, Ordered, Degrees, QueuedIffFree, AllUsers, AllDegrees, GraphOf, Explained, Marked;
    var providers := ProviderMap(pre, files);
    provider := providers;
    var broken, reasons := FindBroken(files, providers);
    var failed, why := Failed(files, provider, broken, reasons);
    assert (set i: nat | i < |files| && broken[i]) == Unloadables(files, provider);
    if |failed| > 0 {
      assert failed[0] in Unloadables(files, provider);
      return Err(Unresolvable(failed, why)), provider;
    }
    assert Unloadables(files, provider) == {};
    NothingLacks(files, provider);
    GraphFits(files, provider);
    ghost var g := GraphOf(files, provider);
    var inDeg, edges := BuildGraph(files, providers);
    var sorted := Drain(g, inDeg, edges);
    LeftOver(g, sorted, inDeg[..]);
    if |sorted| != |files| {
      var cycle := Unfinished(inDeg);
      return Err(Circular(cycle)), provider;
    }
    return Ok(sorted), provider;
  }
}
