/** What single steps of the search do for the tree and its totals: expansion expands, nothing is taken back,
    and every leaf value arrives at the root exactly once. */
module SearchTreeGrowth {
  import opened SearchTree
  import opened SearchTreeProof
  import opened SearchTreeTheorems

  lemma RunStep(rollouts: nat, states: seq<Search>, events: seq<Event>, i: nat)
    requires IsRun(rollouts, states, events) && i < |events|
    ensures Enabled(states[i], rollouts, events[i]) && states[i + 1] == Next(states[i], rollouts, events[i])
  {
  }

  // ---- Expansion ----

  /** The k nodes from |pool| on are new: untouched, unexpanded, with this parent. */
  ghost predicate NewNodes(pool: seq<Node>, pool': seq<Node>, k: nat, parent: int) {
    && |pool'| == |pool| + k
    && forall j :: |pool| <= j < |pool| + k ==> pool'[j] == Node(Tally(0, 0, 0), false, [], parent)
  }

  ghost predicate SameBut(pool: seq<Node>, pool': seq<Node>, n: nat) {
    |pool| <= |pool'| && forall m :: 0 <= m < |pool| && m != n ==> pool'[m] == pool[m]
  }

  /** The first expansion of a leaf expands it: its children are exactly the k new nodes, in order.  A later
      one leaves the node as it was.  Either way the rollout starts to back up the given value. */
  lemma ExpandInstalls(rollouts: nat, states: seq<Search>, events: seq<Event>, i: nat, w: nat, value: int, k: nat)
    requires IsRun(rollouts, states, events) && i < |events| && events[i] == Expand(w, value, k)
    ensures w < |states[i].workers| && states[i].workers[w].Checked? && states[i].workers[w].path != []
    ensures var s, t, path := states[i], states[i + 1], states[i].workers[w].path;
      var leaf := path[|path| - 1];
      && leaf < |s.pool| && SameBut(s.pool, t.pool, leaf)
      && (if s.pool[leaf].expanded then t.pool[leaf] == s.pool[leaf] && NewNodes(s.pool, t.pool, k, -1)
          else
            && t.pool[leaf].expanded && t.pool[leaf].tally == s.pool[leaf].tally && t.pool[leaf].parent == s.pool[leaf].parent
            && |t.pool[leaf].children| == k && (forall j :: 0 <= j < k ==> t.pool[leaf].children[j] == |s.pool| + j)
            && NewNodes(s.pool, t.pool, k, leaf))
      && t.workers == s.workers[w := Backup(path, value, 0, AddVisit)] && t.failed == s.failed && t.done == s.done
  {
    RunInv(rollouts, states, events, i);
    RunStep(rollouts, states, events, i);
    hide Paths, Counted, Owned, Listed, IsRun;
  }

  /** Appending under the lock adds the new nodes behind the children that are there. */
  lemma AppendAdds(rollouts: nat, states: seq<Search>, events: seq<Event>, i: nat, w: nat, k: nat)
    requires IsRun(rollouts, states, events) && i < |events| && events[i] == AppendChildren(w, k)
    ensures w < |states[i].workers| && states[i].workers[w].Descend? && states[i].workers[w].path != []
    ensures var s, t, path := states[i], states[i + 1], states[i].workers[w].path;
      var leaf := path[|path| - 1];
      && leaf < |s.pool| && s.pool[leaf].expanded && SameBut(s.pool, t.pool, leaf) && NewNodes(s.pool, t.pool, k, leaf)
      && |t.pool[leaf].children| == |s.pool[leaf].children| + k && s.pool[leaf].children <= t.pool[leaf].children
      && (forall j :: |s.pool[leaf].children| <= j < |t.pool[leaf].children| ==>
            t.pool[leaf].children[j] == |s.pool| + (j - |s.pool[leaf].children|))
      && t.pool[leaf].expanded && t.pool[leaf].tally == s.pool[leaf].tally && t.workers == s.workers
  {
    RunStep(rollouts, states, events, i);
    hide IsRun;
  }

  lemma StepKeepsStructure(s: Search, rollouts: nat, e: Event, n: nat)
    requires Enabled(s, rollouts, e) && n < |s.pool|
    ensures var t := Next(s, rollouts, e);
      n < |t.pool| && (s.pool[n].expanded ==> t.pool[n].expanded) && s.pool[n].children <= t.pool[n].children && t.pool[n].parent == s.pool[n].parent
  {
  }

  /** No node is ever taken back, unexpanded, moved, or loses or reorders children. */
  lemma {:induction false} StructureGrows(rollouts: nat, states: seq<Search>, events: seq<Event>, i: nat, j: nat, n: nat)
    requires IsRun(rollouts, states, events) && i <= j < |states| && n < |states[i].pool|
    ensures n < |states[j].pool| && (states[i].pool[n].expanded ==> states[j].pool[n].expanded)
    ensures states[i].pool[n].children <= states[j].pool[n].children && states[j].pool[n].parent == states[i].pool[n].parent
    decreases j
  {
    hide Next, Enabled;
    if i < j {
      StructureGrows(rollouts, states, events, i, j - 1, n);
      StepKeepsStructure(states[j - 1], rollouts, events[j - 1], n);
    }
  }

  /** After the first expansion at a node it is expanded for good. */
  lemma StaysExpanded(rollouts: nat, states: seq<Search>, events: seq<Event>, i: nat, j: nat, w: nat, value: int, k: nat)
    requires IsRun(rollouts, states, events) && i < j < |states| && events[i] == Expand(w, value, k)
    ensures w < |states[i].workers| && states[i].workers[w].Checked? && states[i].workers[w].path != []
    ensures var leaf := states[i].workers[w].path[|states[i].workers[w].path| - 1];
      leaf < |states[j].pool| && states[j].pool[leaf].expanded
  {
    ExpandInstalls(rollouts, states, events, i, w, value, k);
    StructureGrows(rollouts, states, events, i + 1, j, states[i].workers[w].path[|states[i].workers[w].path| - 1]);
  }

  // ---- Leaf values ----

  /** The value a rollout ends with: of a finished game, or the network's. */
  function LeafValue(e: Event): int {
    match e
    case Terminal(_, value) => value
    case Expand(_, value, _) => value
    case _ => 0
  }

  function LeafValues(events: seq<Event>): int {
    if events == [] then 0 else LeafValues(events[..|events| - 1]) + LeafValue(events[|events| - 1])
  }

  function DoneValues(done: seq<Commit>): int {
    if done == [] then 0 else DoneValues(done[..|done| - 1]) + done[|done| - 1].value
  }

  function Carried(w: Worker): int { if w.Backup? then w.value else 0 }

  function CarriedValues(workers: seq<Worker>): int {
    if workers == [] then 0 else CarriedValues(workers[..|workers| - 1]) + Carried(workers[|workers| - 1])
  }

  lemma {:induction false} CarriedUpdate(workers: seq<Worker>, w: nat, x: Worker)
    requires w < |workers|
    ensures CarriedValues(workers[w := x]) == CarriedValues(workers) - Carried(workers[w]) + Carried(x)
  {
    var last := |workers| - 1;
    if w < last {
      CarriedUpdate(workers[..last], w, x);
      assert workers[w := x][..last] == workers[..last][w := x];
    } else {
      assert workers[w := x][..last] == workers[..last];
    }
  }

  lemma {:induction false} NothingCarried(workers: seq<Worker>)
    requires forall w :: 0 <= w < |workers| ==> workers[w].Idle?
    ensures CarriedValues(workers) == 0
  {
    if workers != [] { NothingCarried(workers[..|workers| - 1]); }
  }

  lemma DoneMore(done: seq<Commit>, c: Commit)
    ensures DoneValues(done + [c]) == DoneValues(done) + c.value
  {
    assert (done + [c])[..|done|] == done;
  }

  lemma StepCarries(s: Search, rollouts: nat, e: Event)
    requires Enabled(s, rollouts, e)
    ensures var t := Next(s, rollouts, e);
      CarriedValues(t.workers) + DoneValues(t.done) == CarriedValues(s.workers) + DoneValues(s.done) + LeafValue(e)
  {
    hide CarriedValues, DoneValues, Bump, Link, Install;
    var t := Next(s, rollouts, e);
    match e
    case StartFails(w) => CarriedUpdate(s.workers, w, Idle);
    case Take(w) => CarriedUpdate(s.workers, w, Taken);
    case Enter(w) => CarriedUpdate(s.workers, w, Descend([0]));
    case Choose(w, slot) => CarriedUpdate(s.workers, w, t.workers[w]);
    case Terminal(w, value) => CarriedUpdate(s.workers, w, t.workers[w]);
    case SendLeaf(w) => CarriedUpdate(s.workers, w, t.workers[w]);
    case Answered(w) => CarriedUpdate(s.workers, w, t.workers[w]);
    case Expand(w, value, k) => CarriedUpdate(s.workers, w, t.workers[w]);
    case GiveUp(w) => CarriedUpdate(s.workers, w, Idle);
    case BackupStep(w) =>
      CarriedUpdate(s.workers, w, t.workers[w]);
      if t.done != s.done { DoneMore(s.done, Commit(s.workers[w].path, s.workers[w].value)); }
    case _ =>
  }

  /** The values of all leaves so far are with the rollouts that back them up or have done so. */
  lemma {:induction false} ValuesConserved(rollouts: nat, states: seq<Search>, events: seq<Event>, i: nat)
    requires IsRun(rollouts, states, events) && i < |states|
    ensures CarriedValues(states[i].workers) + DoneValues(states[i].done) == LeafValues(events[..i])
  {
    hide Next, Enabled;
    if i == 0 {
      NothingCarried(states[0].workers);
    } else {
      ValuesConserved(rollouts, states, events, i - 1);
      StepCarries(states[i - 1], rollouts, events[i - 1]);
      assert events[..i][..i - 1] == events[..i - 1];
    }
  }

  /** The values of the rollouts backed up through node n. */
  ghost function ValuesThrough(done: seq<Commit>, n: nat): int {
    if done == [] then 0
    else ValuesThrough(done[..|done| - 1], n) + if n in done[|done| - 1].path then done[|done| - 1].value else 0
  }

  lemma {:induction false} CommittedWeight(done: seq<Commit>, n: nat)
    ensures Committed(done, n).weight == ValuesThrough(done, n)
  {
    hide On;
    if done != [] {
      CommittedWeight(done[..|done| - 1], n);
      OnIsMember(done[|done| - 1].path, n);
    }
  }

  lemma {:induction false} AllThroughRoot(done: seq<Commit>)
    requires forall i :: 0 <= i < |done| ==> 0 in done[i].path
    ensures ValuesThrough(done, 0) == DoneValues(done)
  {
    if done != [] { AllThroughRoot(done[..|done| - 1]); }
  }

  /** When Search succeeds, a node's accumulated weight is the sum of the values of exactly the rollouts through
      it, and the root's is the sum of all leaf values of the search. */
  lemma WeightIsValues(rollouts: nat, states: seq<Search>, events: seq<Event>, n: nat)
    requires IsRun(rollouts, states, events) && Succeeded(states[|states| - 1], rollouts) && n < |states[|states| - 1].pool|
    ensures var s := states[|states| - 1];
      s.pool[n].tally.weight == ValuesThrough(s.done, n) && (n == 0 ==> s.pool[n].tally.weight == LeafValues(events))
  {
    hide Committed, Inv, Enabled, Next, ValuesThrough;
    var s := states[|states| - 1];
    RunInv(rollouts, states, events, |states| - 1);
    SettledCounts(s, rollouts, n);
    CommittedWeight(s.done, n);
    if n == 0 {
      ValuesConserved(rollouts, states, events, |states| - 1);
      assert events[..|states| - 1] == events;
      NothingCarried(s.workers);
      DoneHoldRoot(s);
      AllThroughRoot(s.done);
    }
  }

  lemma DoneHoldRoot(s: Search)
    requires Inv(s)
    ensures forall i :: 0 <= i < |s.done| ==> 0 in s.done[i].path
  {
    assert forall i :: 0 <= i < |s.done| ==> s.done[i].path[0] == 0;
  }

  // ---- One rollout ----

  /** A descent goes on at the chosen slot's child, which gets the virtual loss. */
  lemma ChooseDescends(rollouts: nat, states: seq<Search>, events: seq<Event>, i: nat, w: nat, slot: nat)
    requires IsRun(rollouts, states, events) && i < |events| && events[i] == Choose(w, slot)
    ensures w < |states[i].workers| && states[i].workers[w].Descend? && states[i].workers[w].path != []
    ensures var s, t, path := states[i], states[i + 1], states[i].workers[w].path;
      var leaf := path[|path| - 1];
      && leaf < |s.pool| && s.pool[leaf].expanded && slot < |s.pool[leaf].children|
      && var child := s.pool[leaf].children[slot];
         && child < |s.pool| && SameBut(s.pool, t.pool, child) && |t.pool| == |s.pool|
         && t.pool[child] == s.pool[child].(tally := s.pool[child].tally.(virtual := s.pool[child].tally.virtual + 1))
         && t.workers == s.workers[w := Descend(path + [child])]
  {
    RunStep(rollouts, states, events, i);
    hide IsRun;
  }

  /** Steps of w's backup, one after the other. */
  ghost predicate BackupSteps(rollouts: nat, w: nat, states: seq<Search>) {
    forall i :: 0 <= i < |states| - 1 ==>
      Enabled(states[i], rollouts, BackupStep(w)) && states[i + 1] == Next(states[i], rollouts, BackupStep(w))
  }

  /** Every node of nodes has one visit and the value more and one virtual loss less. */
  ghost predicate Credited(pool: seq<Node>, nodes: seq<nat>, value: int, pool': seq<Node>) {
    |pool'| == |pool| && forall n :: 0 <= n < |pool| ==>
      pool'[n] == if n in nodes
        then pool[n].(tally := Tally(pool[n].tally.visits + 1, pool[n].tally.weight + value, pool[n].tally.virtual - 1))
        else pool[n]
  }

  /** Three steps credit one node. */
  lemma BackupNode(rollouts: nat, s: Search, w: nat) returns (states: seq<Search>)
    requires w < |s.workers| && s.workers[w].Backup? && s.workers[w].stage == AddVisit
    requires var b := s.workers[w]; b.at < |b.path| && b.path[b.at] < |s.pool|
    ensures |states| == 4 && states[0] == s && BackupSteps(rollouts, w, states)
    ensures var b, t := s.workers[w], states[3];
      && Credited(s.pool, [b.path[b.at]], b.value, t.pool)
      && if b.at + 1 < |b.path| then t == s.(pool := t.pool, workers := s.workers[w := b.(at := b.at + 1)])
         else t == s.(pool := t.pool, workers := s.workers[w := SearchTree.Idle], done := s.done + [Commit(b.path, b.value)])
  {
    var s1 := Next(s, rollouts, BackupStep(w));
    var s2 := Next(s1, rollouts, BackupStep(w));
    var s3 := Next(s2, rollouts, BackupStep(w));
    states := [s, s1, s2, s3];
  }

  lemma JoinSteps(rollouts: nat, w: nat, a: seq<Search>, b: seq<Search>)
    requires a != [] && b != [] && a[|a| - 1] == b[0] && BackupSteps(rollouts, w, a) && BackupSteps(rollouts, w, b)
    ensures BackupSteps(rollouts, w, a + b[1..])
  {
    hide Enabled, Next;
    var all := a + b[1..];
    forall i | 0 <= i < |all| - 1
      ensures Enabled(all[i], rollouts, BackupStep(w)) && all[i + 1] == Next(all[i], rollouts, BackupStep(w))
    {
      if i >= |a| - 1 {
        var k := i - (|a| - 1);
        assert all[i] == b[k] && all[i + 1] == b[k + 1];
      }
    }
  }

  lemma {:induction false} BackupFrom(rollouts: nat, s: Search, w: nat) returns (states: seq<Search>)
    requires w < |s.workers| && s.workers[w].Backup? && s.workers[w].stage == AddVisit && s.workers[w].at < |s.workers[w].path|
    requires forall i :: 0 <= i < |s.workers[w].path| ==> s.workers[w].path[i] < |s.pool|
    requires forall i, j :: 0 <= i < j < |s.workers[w].path| ==> s.workers[w].path[i] < s.workers[w].path[j]
    ensures var b := s.workers[w];
      && |states| == 3 * (|b.path| - b.at) + 1 && states[0] == s && BackupSteps(rollouts, w, states)
      && var t := states[|states| - 1];
         Credited(s.pool, b.path[b.at..], b.value, t.pool)
         && t == s.(pool := t.pool, workers := s.workers[w := SearchTree.Idle], done := s.done + [Commit(b.path, b.value)])
    decreases |s.workers[w].path| - s.workers[w].at
  {
    hide BackupSteps;
    var b := s.workers[w];
    states := BackupNode(rollouts, s, w);
    var t := states[3];
    if b.at + 1 < |b.path| {
      var rest := BackupFrom(rollouts, t, w);
      JoinSteps(rollouts, w, states, rest);
      CreditMore(s.pool, b.path, b.at, b.value, t.pool, rest[|rest| - 1].pool);
      states := states + rest[1..];
      assert states[|states| - 1] == rest[|rest| - 1];
    } else {
      assert b.path[b.at..] == [b.path[b.at]];
    }
  }

  lemma CreditMore(pool: seq<Node>, path: seq<nat>, at: nat, value: int, mid: seq<Node>, pool': seq<Node>)
    requires at + 1 < |path| && Credited(pool, [path[at]], value, mid) && Credited(mid, path[at + 1..], value, pool')
    requires forall i, j :: 0 <= i < j < |path| ==> path[i] < path[j]
    ensures Credited(pool, path[at..], value, pool')
  {
    assert path[at..] == [path[at]] + path[at + 1..];
    assert path[at] !in path[at + 1..];
  }

  /** Whenever a leaf's value is there, the worker's own next steps, three for each node of its path, add one
      visit and the value to exactly the nodes of the path, take back their virtual loss, and record the rollout. */
  lemma BackupCompletes(rollouts: nat, states: seq<Search>, events: seq<Event>, i: nat, w: nat) returns (more: seq<Search>)
    requires IsRun(rollouts, states, events) && i < |states| && w < |states[i].workers|
    requires states[i].workers[w].Backup? && states[i].workers[w].at == 0 && states[i].workers[w].stage == AddVisit
    ensures var s, b := states[i], states[i].workers[w];
      && |more| == 3 * |b.path| + 1 && more[0] == s && BackupSteps(rollouts, w, more)
      && var t := more[|more| - 1];
         Credited(s.pool, b.path, b.value, t.pool)
         && t == s.(pool := t.pool, workers := s.workers[w := SearchTree.Idle], done := s.done + [Commit(b.path, b.value)])
  {
    hide IsRun, BackupSteps, Credited;
    RunInv(rollouts, states, events, i);
    var s := states[i];
    var path := s.workers[w].path;
    RootFirst(s, w);
    assert path[0..] == path;
    more := BackupFrom(rollouts, s, w);
  }

  lemma RootFirst(s: Search, w: nat)
    requires Inv(s) && w < |s.workers| && s.workers[w].Backup?
    ensures s.workers[w].path != [] && forall i :: 0 <= i < |s.workers[w].path| ==> s.workers[w].path[i] < |s.pool|
    ensures forall i, j :: 0 <= i < j < |s.workers[w].path| ==> s.workers[w].path[i] < s.workers[w].path[j]
  {
    var path := s.workers[w].path;
    assert OnPath(s.workers[w]);
    hide Counted, Progress, Tree;
    forall i, j | 0 <= i < j < |path| ensures path[i] < path[j] { PathGrows(s.pool, path, i, j); }
  }
}
