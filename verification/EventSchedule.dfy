/** Which calls an event schedules, and what happens to them while hooks change the game under way
    (buff_schedule.go, buff_round.go, game_counter.go FireEventHooks). */
module EventSchedule {
  import opened HookSchedule
  import opened RoundSchedule

  const ANY := -1

  datatype Buff = Buff(id: nat, counter: int, player: int, character: int, summon: bool, independent: bool, value: int)

  /** `counter` is what the hook's OrderCounter selects for this event, `counters` its OrderIDs. */
  datatype EventHook = EventHook(id: nat, priority: int, ordered: bool, counter: int, counters: seq<int>, target: bool, player: int, character: int)

  // ---- Collecting ----

  /** scheduleHooks takes the instances of the selected counter that are not being spawned. */
  predicate Selects(h: EventHook, b: Buff) { b.counter == h.counter && !(b.independent && b.value <= 0) }

  /** scheduleRoundHooks takes the instances of the hook's counters whose owner matches. */
  predicate SelectsRound(h: EventHook, b: Buff) {
    var expected := if h.target && h.player >= 0 then 1 - h.player else h.player;
    (expected == ANY || expected == b.player) && b.counter in h.counters
  }

  function BuffCall(h: EventHook, b: Buff, rank: nat, pos: nat): Call {
    Call(h.id, h.priority, b.id, rank, b.player, b.character, b.summon, pos)
  }

  function PlainCall(h: EventHook, player: int, pos: nat): Call {
    Call(h.id, h.priority, 0, -1, player, h.character, false, pos)
  }

  /** Calls so far, extended by hook h for the first n buffs. */
  function WithBuffs(h: EventHook, buffs: seq<Buff>, n: nat, selects: (EventHook, Buff) -> bool, calls: seq<Call>): seq<Call>
    requires n <= |buffs|
  {
    if n == 0 then calls else
      var before := WithBuffs(h, buffs, n - 1, selects, calls);
      before + if selects(h, buffs[n - 1]) then [BuffCall(h, buffs[n - 1], n - 1, |before|)] else []
  }

  /** Calls so far, extended by hook h once per player. */
  function WithPlayers(h: EventHook, players: seq<int>, calls: seq<Call>): seq<Call> {
    if players == [] then calls else
      var before := WithPlayers(h, players[..|players| - 1], calls);
      before + [PlainCall(h, players[|players| - 1], |before|)]
  }

  /** The players an unordered hook is called for. */
  function PlayersOf(h: EventHook, order: seq<int>): seq<int> { if h.player != ANY then [h.player] else order }

  function Collect(hooks: seq<EventHook>, buffs: seq<Buff>, order: seq<int>, selects: (EventHook, Buff) -> bool): seq<Call> {
    if hooks == [] then [] else
      var h := hooks[|hooks| - 1];
      var before := Collect(hooks[..|hooks| - 1], buffs, order, selects);
      if h.ordered then WithBuffs(h, buffs, |buffs|, selects, before) else WithPlayers(h, PlayersOf(h, order), before)
  }

  method CollectRound(hooks: seq<EventHook>, buffs: seq<Buff>, order: seq<int>) returns (calls: seq<Call>)
    ensures calls == Collect(hooks, buffs, order, SelectsRound)
  {
    calls := [];
    for i := 0 to |hooks|
      invariant calls == Collect(hooks[..i], buffs, order, SelectsRound)
    {
      var h := hooks[i];
      ghost var before := calls;
      assert hooks[..i + 1][..i] == hooks[..i];
      if !h.ordered {
        var players := if h.player != ANY then [h.player] else order;
        for k := 0 to |players|
          invariant calls == WithPlayers(h, players[..k], before)
        {
          assert players[..k + 1][..k] == players[..k];
          calls := calls + [PlainCall(h, players[k], |calls|)];
        }
        assert players[..|players|] == players;
      } else {
        for rank := 0 to |buffs|
          invariant calls == WithBuffs(h, buffs, rank, SelectsRound, before)
        {
          var b := buffs[rank];
          var expected := h.player;
          if h.target && expected >= 0 { expected := 1 - expected; }
          if expected != ANY && expected != b.player { continue; }
          var found := false;
          for k := 0 to |h.counters|
            invariant !found && forall m :: 0 <= m < k ==> h.counters[m] != b.counter
          {
            if h.counters[k] == b.counter { found := true; break; }
          }
          if found { calls := calls + [BuffCall(h, b, rank, |calls|)]; }
        }
      }
    }
    assert hooks[..|hooks|] == hooks;
  }

  // ---- Each pair once ----

  ghost predicate Unique(ids: seq<nat>) { forall i, j :: 0 <= i < j < |ids| ==> ids[i] != ids[j] }

  function HookIds(hooks: seq<EventHook>): seq<nat> { seq(|hooks|, i requires 0 <= i < |hooks| => hooks[i].id) }

  function BuffIds(buffs: seq<Buff>): seq<nat> { seq(|buffs|, i requires 0 <= i < |buffs| => buffs[i].id) }

  /** A call's place is recorded, it is for a listed hook, and for no instance or one in the list. */
  ghost predicate Sound(calls: seq<Call>, hooks: seq<EventHook>, buffs: seq<Buff>) {
    && (forall i :: 0 <= i < |calls| ==> calls[i].pos == i)
    && (forall i :: 0 <= i < |calls| ==> calls[i].hook in HookIds(hooks))
    && forall i :: 0 <= i < |calls| ==> calls[i].instance == 0 || calls[i].instance in BuffIds(buffs)
  }

  /** No two calls for the same hook and instance; for plain calls, for the same hook and player. */
  ghost predicate Once(calls: seq<Call>) {
    forall i, j :: 0 <= i < j < |calls| ==> Apart(calls[i], calls[j])
  }

  ghost predicate Apart(a: Call, b: Call) {
    a.hook != b.hook || a.instance != b.instance || (a.instance == 0 && a.player != b.player)
  }

  /** What adding one hook's calls keeps. */
  ghost predicate Extends(calls: seq<Call>, longer: seq<Call>, h: EventHook) {
    && calls <= longer
    && forall i :: |calls| <= i < |longer| ==> longer[i].pos == i && longer[i].hook == h.id
  }

  lemma {:induction false} WithBuffsOnce(h: EventHook, buffs: seq<Buff>, n: nat, selects: (EventHook, Buff) -> bool, calls: seq<Call>)
    requires n <= |buffs| && Unique(BuffIds(buffs)) && 0 !in BuffIds(buffs)
    requires Once(calls) && forall i :: 0 <= i < |calls| ==> calls[i].hook != h.id
    ensures var longer := WithBuffs(h, buffs, n, selects, calls);
      && Extends(calls, longer, h) && Once(longer)
      && forall i :: |calls| <= i < |longer| ==> 0 <= longer[i].rank < n && longer[i].instance == BuffIds(buffs)[longer[i].rank]
  {
    if n > 0 {
      WithBuffsOnce(h, buffs, n - 1, selects, calls);
      assert BuffIds(buffs)[n - 1] == buffs[n - 1].id;
    }
  }

  lemma {:induction false} WithPlayersOnce(h: EventHook, players: seq<int>, calls: seq<Call>)
    requires forall i, j :: 0 <= i < j < |players| ==> players[i] != players[j]
    requires Once(calls) && forall i :: 0 <= i < |calls| ==> calls[i].hook != h.id
    ensures var longer := WithPlayers(h, players, calls);
      && Extends(calls, longer, h) && Once(longer)
      && forall i :: |calls| <= i < |longer| ==> longer[i].instance == 0 && longer[i].player in players
  {
    if players != [] { WithPlayersOnce(h, players[..|players| - 1], calls); }
  }

  lemma ExtendSound(calls: seq<Call>, longer: seq<Call>, front: seq<EventHook>, h: EventHook, buffs: seq<Buff>)
    requires Sound(calls, front, buffs) && Extends(calls, longer, h)
    requires forall i :: |calls| <= i < |longer| ==> longer[i].instance == 0 || longer[i].instance in BuffIds(buffs)
    ensures Sound(longer, front + [h], buffs)
  {
    var hooks := front + [h];
    assert forall i :: 0 <= i < |front| ==> HookIds(hooks)[i] == HookIds(front)[i];
    assert HookIds(hooks)[|front|] == h.id;
  }

  /** One more hook's calls. */
  lemma HookOnce(front: seq<EventHook>, h: EventHook, buffs: seq<Buff>, order: seq<int>, selects: (EventHook, Buff) -> bool, calls: seq<Call>)
    requires Unique(BuffIds(buffs)) && 0 !in BuffIds(buffs) && h.id !in HookIds(front)
    requires forall i, j :: 0 <= i < j < |order| ==> order[i] != order[j]
    requires Sound(calls, front, buffs) && Once(calls)
    ensures var longer := if h.ordered then WithBuffs(h, buffs, |buffs|, selects, calls) else WithPlayers(h, PlayersOf(h, order), calls);
      Sound(longer, front + [h], buffs) && Once(longer)
  {
    hide Once, WithBuffs, WithPlayers, Unique;
    if h.ordered {
      WithBuffsOnce(h, buffs, |buffs|, selects, calls);
      ExtendSound(calls, WithBuffs(h, buffs, |buffs|, selects, calls), front, h, buffs);
    } else {
      WithPlayersOnce(h, PlayersOf(h, order), calls);
      ExtendSound(calls, WithPlayers(h, PlayersOf(h, order), calls), front, h, buffs);
    }
  }

  lemma {:induction false} CollectOnce(hooks: seq<EventHook>, buffs: seq<Buff>, order: seq<int>, selects: (EventHook, Buff) -> bool)
    requires Unique(HookIds(hooks)) && Unique(BuffIds(buffs)) && 0 !in BuffIds(buffs)
    requires forall i, j :: 0 <= i < j < |order| ==> order[i] != order[j]
    ensures Sound(Collect(hooks, buffs, order, selects), hooks, buffs) && Once(Collect(hooks, buffs, order, selects))
  {
    if hooks != [] {
      var k := |hooks| - 1;
      var h, front := hooks[k], hooks[..k];
      FrontUnique(hooks);
      assert hooks == front + [h];
      hide Once, Sound, Unique, WithBuffs, WithPlayers;
      CollectOnce(front, buffs, order, selects);
      HookOnce(front, h, buffs, order, selects, Collect(front, buffs, order, selects));
    }
  }

  lemma FrontUnique(hooks: seq<EventHook>)
    requires Unique(HookIds(hooks)) && hooks != []
    ensures Unique(HookIds(hooks[..|hooks| - 1])) && hooks[|hooks| - 1].id !in HookIds(hooks[..|hooks| - 1])
  {
    var k := |hooks| - 1;
    assert forall i :: 0 <= i < k ==> HookIds(hooks[..k])[i] == HookIds(hooks)[i];
    assert HookIds(hooks)[k] == hooks[k].id;
  }

  /** A stage's or event's hooks and instances carry identities that do not repeat. */
  ghost predicate Distinguished(hooks: seq<EventHook>, buffs: seq<Buff>) {
    Unique(HookIds(hooks)) && Unique(BuffIds(buffs)) && 0 !in BuffIds(buffs)
  }

  // ---- Which calls there are, hook by hook ----

  ghost predicate ForBuff(c: Call, h: EventHook, b: Buff, rank: nat) {
    && c.hook == h.id && c.priority == h.priority && c.instance == b.id && c.rank == rank
    && c.player == b.player && c.character == b.character && c.summon == b.summon
  }

  ghost predicate ForPlayer(c: Call, h: EventHook, player: int) {
    && c.hook == h.id && c.priority == h.priority && c.instance == 0 && c.rank == -1
    && c.player == player && c.character == h.character && !c.summon
  }

  ghost predicate Serves(c: Call, h: EventHook, buffs: seq<Buff>, players: seq<int>, wants: (EventHook, Buff) -> bool) {
    if h.ordered then exists r: nat :: r < |buffs| && wants(h, buffs[r]) && ForBuff(c, h, buffs[r], r)
    else exists p :: p in players && ForPlayer(c, h, p)
  }

  /** Every call serves a hook; an ordered hook has one for every instance it wants, an unordered hook one for
      every player it is called for. */
  ghost predicate CallsAre(hooks: seq<EventHook>, buffs: seq<Buff>, players: EventHook -> seq<int>, wants: (EventHook, Buff) -> bool, calls: seq<Call>) {
    && (forall c :: c in calls ==> exists h :: h in hooks && Serves(c, h, buffs, players(h), wants))
    && (forall h, r: nat :: h in hooks && h.ordered && r < |buffs| && wants(h, buffs[r]) ==> exists c :: c in calls && ForBuff(c, h, buffs[r], r))
    && forall h, p :: h in hooks && !h.ordered && p in players(h) ==> exists c :: c in calls && ForPlayer(c, h, p)
  }

  /** An event's hook goes to the instances of its counter, except those still being spawned. */
  ghost predicate EventWants(h: EventHook, b: Buff) { h.counter == b.counter && (b.independent ==> b.value >= 1) }

  /** A round hook goes to the instances of its counters that its owner has, or, if it is for the other side,
      that the opponent has; there is no player 2. */
  ghost predicate RoundWants(h: EventHook, b: Buff) {
    b.counter in h.counters &&
      match h.player
      case -1 => true
      case 0 => b.player == (if h.target then 1 else 0)
      case 1 => b.player == (if h.target then 0 else 1)
      case _ => SelectsRound(h, b)
  }

  ghost predicate EventCalls(hooks: seq<EventHook>, buffs: seq<Buff>, calls: seq<Call>) {
    && CallsAre(hooks, buffs, (h: EventHook) => [h.player], EventWants, calls)
    && forall i, j :: 0 <= i < j < |calls| ==> Apart(calls[i], calls[j])
  }

  ghost predicate RoundCalls(hooks: seq<EventHook>, buffs: seq<Buff>, order: seq<int>, calls: seq<Call>) {
    && CallsAre(hooks, buffs, (h: EventHook) => if h.player == -1 then order else [h.player], RoundWants, calls)
    && forall i, j :: 0 <= i < j < |calls| ==> Apart(calls[i], calls[j])
  }

  lemma {:induction false} WithBuffsAre(h: EventHook, buffs: seq<Buff>, n: nat, selects: (EventHook, Buff) -> bool, calls: seq<Call>)
    requires n <= |buffs| && h.ordered
    ensures var longer := WithBuffs(h, buffs, n, selects, calls);
      && (forall c :: c in longer ==> c in calls || Serves(c, h, buffs, [], selects))
      && (forall c :: c in calls ==> c in longer)
      && forall r: nat :: r < n && selects(h, buffs[r]) ==> exists c :: c in longer && ForBuff(c, h, buffs[r], r)
  {
    if n > 0 {
      WithBuffsAre(h, buffs, n - 1, selects, calls);
      var before := WithBuffs(h, buffs, n - 1, selects, calls);
      var c := BuffCall(h, buffs[n - 1], n - 1, |before|);
      assert ForBuff(c, h, buffs[n - 1], n - 1);
      forall r: nat | r < n && selects(h, buffs[r]) ensures exists c :: c in WithBuffs(h, buffs, n, selects, calls) && ForBuff(c, h, buffs[r], r) {
        if r == n - 1 { assert c in WithBuffs(h, buffs, n, selects, calls); }
        else {
          var d :| d in before && ForBuff(d, h, buffs[r], r);
          assert d in WithBuffs(h, buffs, n, selects, calls);
        }
      }
    }
  }

  lemma {:induction false} WithPlayersAre(h: EventHook, players: seq<int>, calls: seq<Call>)
    ensures var longer := WithPlayers(h, players, calls);
      && (forall c :: c in longer ==> c in calls || exists p :: p in players && ForPlayer(c, h, p))
      && (forall c :: c in calls ==> c in longer)
      && forall p :: p in players ==> exists c :: c in longer && ForPlayer(c, h, p)
  {
    if players != [] {
      var k := |players| - 1;
      WithPlayersAre(h, players[..k], calls);
      var before := WithPlayers(h, players[..k], calls);
      var c := PlainCall(h, players[k], |before|);
      var longer := WithPlayers(h, players, calls);
      assert ForPlayer(c, h, players[k]) && c in longer;
      assert forall d :: d in before ==> d in longer;
      assert players == players[..k] + [players[k]];
    }
  }

  /** `longer` has the calls so far and those of h. */
  ghost predicate Adds(h: EventHook, buffs: seq<Buff>, players: seq<int>, wants: (EventHook, Buff) -> bool, calls: seq<Call>, longer: seq<Call>) {
    && (forall c :: c in longer ==> c in calls || Serves(c, h, buffs, players, wants))
    && (forall c :: c in calls ==> c in longer)
    && (h.ordered ==> forall r: nat :: r < |buffs| && wants(h, buffs[r]) ==> exists c :: c in longer && ForBuff(c, h, buffs[r], r))
    && (!h.ordered ==> forall p :: p in players ==> exists c :: c in longer && ForPlayer(c, h, p))
  }

  lemma AddsMore(front: seq<EventHook>, h: EventHook, buffs: seq<Buff>, players: EventHook -> seq<int>, wants: (EventHook, Buff) -> bool,
                 calls: seq<Call>, longer: seq<Call>)
    requires CallsAre(front, buffs, players, wants, calls) && Adds(h, buffs, players(h), wants, calls, longer)
    ensures CallsAre(front + [h], buffs, players, wants, longer)
  {
    hide ForBuff, ForPlayer, Serves;
    var hooks := front + [h];
    assert forall g :: g in hooks <==> g in front || g == h;
    forall c | c in longer ensures exists g :: g in hooks && Serves(c, g, buffs, players(g), wants) {
      if c in calls {
        var g :| g in front && Serves(c, g, buffs, players(g), wants);
        assert g in hooks;
      } else { assert h in hooks; }
    }
    forall g, r: nat | g in hooks && g.ordered && r < |buffs| && wants(g, buffs[r]) ensures exists c :: c in longer && ForBuff(c, g, buffs[r], r) {
      if g in front {
        var c :| c in calls && ForBuff(c, g, buffs[r], r);
        assert c in longer;
      }
    }
    forall g, p | g in hooks && !g.ordered && p in players(g) ensures exists c :: c in longer && ForPlayer(c, g, p) {
      if g in front {
        var c :| c in calls && ForPlayer(c, g, p);
        assert c in longer;
      }
    }
  }

  lemma HookAdds(h: EventHook, buffs: seq<Buff>, players: seq<int>, selects: (EventHook, Buff) -> bool, calls: seq<Call>)
    ensures Adds(h, buffs, players, selects, calls, if h.ordered then WithBuffs(h, buffs, |buffs|, selects, calls) else WithPlayers(h, players, calls))
  {
    hide WithBuffs, WithPlayers, ForBuff, ForPlayer;
    if h.ordered { WithBuffsAre(h, buffs, |buffs|, selects, calls); } else { WithPlayersAre(h, players, calls); }
  }

  lemma {:induction false} CollectAre(hooks: seq<EventHook>, buffs: seq<Buff>, order: seq<int>, selects: (EventHook, Buff) -> bool)
    ensures CallsAre(hooks, buffs, (h: EventHook) => PlayersOf(h, order), selects, Collect(hooks, buffs, order, selects))
  {
    hide CallsAre, Adds, WithBuffs, WithPlayers;
    if hooks != [] {
      var k := |hooks| - 1;
      CollectAre(hooks[..k], buffs, order, selects);
      HookAdds(hooks[k], buffs, PlayersOf(hooks[k], order), selects, Collect(hooks[..k], buffs, order, selects));
      AddsMore(hooks[..k], hooks[k], buffs, (h: EventHook) => PlayersOf(h, order), selects,
        Collect(hooks[..k], buffs, order, selects), Collect(hooks, buffs, order, selects));
      assert hooks == hooks[..k] + [hooks[k]];
    } else { NoCallsAre(buffs, (h: EventHook) => PlayersOf(h, order), selects); }
  }

  lemma NoCallsAre(buffs: seq<Buff>, players: EventHook -> seq<int>, wants: (EventHook, Buff) -> bool)
    ensures CallsAre([], buffs, players, wants, [])
  {
  }

  lemma SameCallsAre(hooks: seq<EventHook>, buffs: seq<Buff>, players: EventHook -> seq<int>, wants: (EventHook, Buff) -> bool, calls: seq<Call>, sorted: seq<Call>)
    requires CallsAre(hooks, buffs, players, wants, calls) && multiset(calls) == multiset(sorted)
    ensures CallsAre(hooks, buffs, players, wants, sorted)
  {
    hide ForBuff, ForPlayer, Serves;
    assert forall c :: c in calls <==> c in multiset(calls);
    assert forall c :: c in sorted <==> c in multiset(sorted);
  }

  /** The same calls under equal tests. */
  lemma SameTests(hooks: seq<EventHook>, buffs: seq<Buff>, players: EventHook -> seq<int>, wants: (EventHook, Buff) -> bool,
                  others: EventHook -> seq<int>, wish: (EventHook, Buff) -> bool, calls: seq<Call>)
    requires CallsAre(hooks, buffs, players, wants, calls)
    requires (forall h, b :: wants(h, b) == wish(h, b)) && forall h :: players(h) == others(h)
    ensures CallsAre(hooks, buffs, others, wish, calls)
  {
    hide ForBuff, ForPlayer, Serves;
    forall c | c in calls ensures exists h :: h in hooks && Serves(c, h, buffs, others(h), wish) {
      var h :| h in hooks && Serves(c, h, buffs, players(h), wants);
      SameServed(c, h, buffs, players(h), wants, wish);
    }
  }

  lemma SameServed(c: Call, h: EventHook, buffs: seq<Buff>, players: seq<int>, wants: (EventHook, Buff) -> bool, wish: (EventHook, Buff) -> bool)
    requires Serves(c, h, buffs, players, wants) && forall h, b :: wants(h, b) == wish(h, b)
    ensures Serves(c, h, buffs, players, wish)
  {
  }

  lemma SortedApart(collected: seq<Call>, calls: seq<Call>)
    requires multiset(calls) == multiset(collected) && Once(collected) && forall k :: 0 <= k < |collected| ==> collected[k].pos == k
    ensures forall i, j :: 0 <= i < j < |calls| ==> Apart(calls[i], calls[j])
  {
    hide Apart, Once;
    forall i, j | 0 <= i < j < |calls| ensures Apart(calls[i], calls[j]) { PairsApart(calls, collected, i, j); }
  }

  lemma EventCallsHold(hooks: seq<EventHook>, buffs: seq<Buff>, calls: seq<Call>)
    requires Distinguished(hooks, buffs) && multiset(calls) == multiset(Collect(hooks, buffs, [ANY], Selects))
    ensures EventCalls(hooks, buffs, calls)
  {
    hide CallsAre, Collect, Once, Apart, Unique;
    var collected := Collect(hooks, buffs, [ANY], Selects);
    CollectOnce(hooks, buffs, [ANY], Selects);
    CollectAre(hooks, buffs, [ANY], Selects);
    SameCallsAre(hooks, buffs, (h: EventHook) => PlayersOf(h, [ANY]), Selects, collected, calls);
    SameTests(hooks, buffs, (h: EventHook) => PlayersOf(h, [ANY]), Selects, (h: EventHook) => [h.player], EventWants, calls);
    SortedApart(collected, calls);
  }

  lemma RoundCallsHold(hooks: seq<EventHook>, buffs: seq<Buff>, order: seq<int>, calls: seq<Call>)
    requires Distinguished(hooks, buffs) && forall i, j :: 0 <= i < j < |order| ==> order[i] != order[j]
    requires multiset(calls) == multiset(Collect(hooks, buffs, order, SelectsRound))
    ensures RoundCalls(hooks, buffs, order, calls)
  {
    hide CallsAre, Collect, Once, Apart, Unique;
    var collected := Collect(hooks, buffs, order, SelectsRound);
    CollectOnce(hooks, buffs, order, SelectsRound);
    CollectAre(hooks, buffs, order, SelectsRound);
    SameCallsAre(hooks, buffs, (h: EventHook) => PlayersOf(h, order), SelectsRound, collected, calls);
    SameTests(hooks, buffs, (h: EventHook) => PlayersOf(h, order), SelectsRound,
      (h: EventHook) => if h.player == -1 then order else [h.player], RoundWants, calls);
    SortedApart(collected, calls);
  }

  /** scheduleHooks: by priority, then by creation of the governing instance, then as listed. */
  method ScheduleHooks(hooks: seq<EventHook>, buffs: seq<Buff>) returns (calls: seq<Call>)
    requires Distinguished(hooks, buffs)
    ensures multiset(calls) == multiset(Collect(hooks, buffs, [ANY], Selects)) && EventCalls(hooks, buffs, calls) && EventOrder(calls)
    ensures forall i, j :: 0 <= i < j < |calls| ==> Before(calls[i], calls[j])
  {
    hide EventCalls, EventOrder;
    calls := [];
    for i := 0 to |hooks|
      invariant calls == Collect(hooks[..i], buffs, [ANY], Selects)
    {
      var h := hooks[i];
      ghost var before := calls;
      assert hooks[..i + 1][..i] == hooks[..i];
      if !h.ordered {
        PlayersOnce(h, before);
        calls := calls + [PlainCall(h, h.player, |calls|)];
        continue;
      }
      for rank := 0 to |buffs|
        invariant calls == WithBuffs(h, buffs, rank, Selects, before)
      {
        var b := buffs[rank];
        if b.independent && b.value <= 0 { continue; }
        if b.counter == h.counter { calls := calls + [BuffCall(h, b, rank, |calls|)]; }
      }
    }
    assert hooks[..|hooks|] == hooks;
    CollectOnce(hooks, buffs, [ANY], Selects);
    calls := StableSort(calls, PriorityThenRank, Collected);
    AllBefore(calls);
    EventCallsHold(hooks, buffs, calls);
    BeforeIsOrder(calls);
  }

  /** Higher priority first, then the older instance, then as collected. */
  ghost predicate EventOrder(calls: seq<Call>) {
    forall i, j :: 0 <= i < j < |calls| ==>
      && calls[i].priority >= calls[j].priority
      && (calls[i].priority == calls[j].priority ==> calls[i].rank <= calls[j].rank)
      && (calls[i].priority == calls[j].priority && calls[i].rank == calls[j].rank ==> calls[i].pos < calls[j].pos)
  }

  lemma BeforeIsOrder(calls: seq<Call>)
    requires forall i, j :: 0 <= i < j < |calls| ==> Before(calls[i], calls[j])
    ensures EventOrder(calls)
  {
  }

  lemma PlayersOnce(h: EventHook, calls: seq<Call>)
    ensures WithPlayers(h, PlayersOf(h, [ANY]), calls) == calls + [PlainCall(h, h.player, |calls|)]
  {
    assert PlayersOf(h, [ANY]) == [h.player];
    assert [h.player][..0] == [];
    assert WithPlayers(h, [], calls) == calls;
  }

  /** scheduleRoundHooks. */
  method ScheduleRoundHooks(hooks: seq<EventHook>, buffs: seq<Buff>, order: seq<int>) returns (calls: seq<Call>)
    requires Distinguished(hooks, buffs) && forall i, j :: 0 <= i < j < |order| ==> order[i] != order[j]
    ensures IsRoundSchedule(Collect(hooks, buffs, order, SelectsRound), order, calls)
    ensures RoundCalls(hooks, buffs, order, calls) && RoundLaw(order, calls)
  {
    hide RoundCalls, RoundLaw, IsRoundSchedule, Unique;
    var collected := CollectRound(hooks, buffs, order);
    CollectOnce(hooks, buffs, order, SelectsRound);
    calls := ScheduleRound(collected, order);
    RoundCallsHold(hooks, buffs, order, calls);
  }

  // ---- Application identities ----

  datatype Option<T> = None | Some(value: T)

  /** ApplicationKey; None is the panic. */
  function ApplicationKey(instance: nat, hook: int): (key: Option<int>)
    ensures key.Some? && instance > 0 ==> key.value < 0
  {
    if instance == 0 then Some(hook)
    else if instance > 0x7ffffffe || hook < 0 || hook > 0xffffffff then None
    else Some(-(instance * 0x1_0000_0000 + hook) - 1)
  }

  /** Keys of different applications differ, from each other and from plain hook ids, and fit 64 bits. */
  lemma KeysDiffer(b: nat, h: nat, c: nat, k: nat)
    requires ApplicationKey(b, h).Some? && ApplicationKey(c, k).Some? && (b != c || h != k)
    ensures ApplicationKey(b, h).value != ApplicationKey(c, k).value
    ensures b > 0 ==> -0x8000_0000_0000_0000 <= ApplicationKey(b, h).value
  {
    if b != 0 && c != 0 && b != c {
      assert (b - c) * 0x1_0000_0000 >= 0x1_0000_0000 || (b - c) * 0x1_0000_0000 <= -0x1_0000_0000;
    }
  }

  /** What MarkApplied adds: the plain hook id and the application's key. */
  function Marks(instance: nat, hook: int): set<int> {
    if hook < 0 then {} else
      var key := ApplicationKey(instance, hook);
      {hook} + if key.Some? then {key.value} else {}
  }

  // ---- Firing ----

  type Rest(!new)   // everything else a hook can see or change

  /** The instance and counter an event frame is bound to. */
  datatype Frame = Frame(instance: nat, counter: int)

  const UNBOUND := Frame(0, 0)

  /** What a running event can see change: live instances with their counters, the last id given out,
      enabled hooks, whether the game ended, the event's value, the applied modifiers, and the rest.  All
      events of an action share one set of applied modifiers.  `ran` is history: the applications, as
      (instance, hook), whose body has run. */
  datatype World = World(live: map<nat, int>, serial: nat, enabled: set<nat>, registered: nat, over: bool, value: int,
                         applied: set<int>, rest: Rest, ran: set<(nat, int)>)

  /** Whatever a hook does, ids are never given out twice, an instance keeps its counter, and a removed
      hook is not enabled again. */
  ghost predicate Evolves(w: World, v: World) {
    && w.serial <= v.serial && w.registered <= v.registered
    && (forall id :: id in v.live ==> (id in w.live && v.live[id] == w.live[id]) || w.serial < id <= v.serial)
    && forall h :: h in v.enabled && h < w.registered ==> h in w.enabled
  }

  ghost predicate IdsInUse(w: World) { forall id :: id in w.live ==> 0 < id <= w.serial }

  predicate Ready(w: World, c: Call) { c.hook in w.enabled && (c.instance == 0 || c.instance in w.live) }

  /** The context under which a hook body runs: itself, its instance, the actor, and the event frame. */
  datatype Scope = Scope(hook: int, instance: nat, player: int, character: int, frame: Frame)

  /** A hook body changes the world as it likes, firing other events included, and may mark its own modifier
      as applied. */
  datatype Outcome = Outcome(world: World, marks: bool)

  type Body = (World, Scope) -> Outcome

  ghost predicate Lawful(body: Body) { forall w, s :: Evolves(w, body(w, s).world) }

  /** The effect of a body under a scope. */
  function Run(body: Body, w: World, s: Scope): World {
    var o := body(w.(ran := w.ran + {(s.instance, s.hook)}), s);
    o.world.(applied := o.world.applied + if o.marks then Marks(s.instance, s.hook) else {})
  }

  /** The frame a call's body sees: bound to the call's instance, otherwise the current one. */
  function Bound(w: World, c: Call, top: Option<Frame>): Frame {
    if top.None? then UNBOUND
    else if c.instance != 0 && c.instance in w.live then Frame(c.instance, w.live[c.instance]) else top.value
  }

  /** What a call does at its turn, if it fires. */
  type Turn = (World, Call) -> World

  function EventTurn(body: Body, player: int, character: int, top: Option<Frame>): Turn {
    (w: World, c: Call) => Run(body, w, Scope(c.hook, c.instance, player, character, Bound(w, c, top)))
  }

  /** In a round stage each call is its own actor, in a frame of its own. */
  function RoundTurn(body: Body): Turn {
    (w: World, c: Call) => Run(body, w, Scope(c.hook, c.instance, c.player, c.character, Bound(w, c, Some(UNBOUND))))
  }

  ghost predicate LawfulTurn(turn: Turn) { forall w, c :: Evolves(w, turn(w, c)) }

  lemma TurnsAreLawful(body: Body, player: int, character: int, top: Option<Frame>)
    requires Lawful(body)
    ensures LawfulTurn(EventTurn(body, player, character, top)) && LawfulTurn(RoundTurn(body))
  {
    hide Evolves, Run, Lawful;
    forall w: World, s: Scope ensures Evolves(w, Run(body, w, s)) { RunEvolves(body, w, s); }
  }

  lemma RunEvolves(body: Body, w: World, s: Scope)
    requires Lawful(body)
    ensures Evolves(w, Run(body, w, s))
  {
    var v := w.(ran := w.ran + {(s.instance, s.hook)});
    assert Evolves(v, body(v, s).world);
  }

  // ---- Applied modifiers ----

  /** Every applied modifier is the mark of an application that has run. */
  ghost predicate Explained(w: World) {
    forall key :: key in w.applied ==> exists a :: a in w.ran && key in Marks(a.0, a.1)
  }

  /** A body that marks nothing but its own modifier, except through the bodies of the events it fires, which
      do the same. */
  ghost predicate Honest(body: Body) {
    forall w, s :: Explained(w) ==> Explained(body(w, s).world) && w.ran <= body(w, s).world.ran
  }

  ghost predicate HonestTurn(turn: Turn) {
    forall w, c :: Explained(w) ==> Explained(turn(w, c)) && w.ran <= turn(w, c).ran
  }

  lemma RunExplained(body: Body, w: World, s: Scope)
    requires Honest(body) && Explained(w)
    ensures Explained(Run(body, w, s)) && w.ran <= Run(body, w, s).ran
  {
    hide Marks;
    var v := w.(ran := w.ran + {(s.instance, s.hook)});
    forall key | key in v.applied ensures exists a :: a in v.ran && key in Marks(a.0, a.1) {
      var a :| a in w.ran && key in Marks(a.0, a.1);
      assert a in v.ran;
    }
    var o := body(v, s);
    assert Explained(o.world) && (s.instance, s.hook) in o.world.ran;
  }

  lemma TurnsAreHonest(body: Body, player: int, character: int, top: Option<Frame>)
    requires Honest(body)
    ensures HonestTurn(EventTurn(body, player, character, top)) && HonestTurn(RoundTurn(body))
  {
    hide Explained, Run, Honest;
    forall w: World, s: Scope | Explained(w) ensures Explained(Run(body, w, s)) && w.ran <= Run(body, w, s).ran {
      RunExplained(body, w, s);
    }
  }

  // ---- What firing does, call by call ----

  /** The call's own context: for a call on an instance, the frame holds the instance and its counter. */
  ghost predicate ScopeFor(w: World, c: Call, player: int, character: int, top: Option<Frame>, s: Scope) {
    && s.hook == c.hook && s.instance == c.instance && s.player == player && s.character == character
    && match top
       case None => s.frame == Frame(0, 0)
       case Some(frame) =>
         && (c.instance == 0 ==> s.frame == frame)
         && (c.instance in w.live && c.instance > 0 ==> s.frame == Frame(c.instance, w.live[c.instance]))
  }

  /** v is what the body makes of w, with the marks of the call's own modifier if the body asks for them. */
  ghost predicate RunLaw(w: World, c: Call, body: Body, s: Scope, v: World) {
    var o := body(w.(ran := w.ran + {(c.instance, c.hook)}), s);
    && v == o.world.(applied := v.applied)
    && o.world.applied <= v.applied
    && (!o.marks ==> v.applied == o.world.applied)
    && (o.marks ==> c.hook in v.applied && forall key :: ApplicationKey(c.instance, c.hook) == Some(key) ==> key in v.applied)
    && forall key :: key in v.applied && key !in o.world.applied ==> key == c.hook || ApplicationKey(c.instance, c.hook) == Some(key)
  }

  /** A call whose hook is disabled or whose instance is gone does nothing; any other runs its body. */
  ghost predicate TurnLaw(w: World, c: Call, body: Body, player: int, character: int, top: Option<Frame>, v: World) {
    && (c.hook !in w.enabled || (c.instance > 0 && c.instance !in w.live) ==> v == w)
    && (c.hook in w.enabled && (c.instance > 0 ==> c.instance in w.live) ==>
          exists s :: ScopeFor(w, c, player, character, top, s) && RunLaw(w, c, body, s, v))
  }

  lemma AfterIsLaw(w: World, c: Call, body: Body, player: int, character: int, top: Option<Frame>)
    ensures TurnLaw(w, c, body, player, character, top, After(w, c, EventTurn(body, player, character, top)))
    ensures c.player == player && c.character == character && top == Some(UNBOUND) ==>
      TurnLaw(w, c, body, player, character, top, After(w, c, RoundTurn(body)))
  {
    var s := Scope(c.hook, c.instance, player, character, Bound(w, c, top));
    RunIsLaw(w, c, body, s);
    hide RunLaw, Run;
    if Ready(w, c) { assert ScopeFor(w, c, player, character, top, s); }
  }

  lemma RunIsLaw(w: World, c: Call, body: Body, s: Scope)
    requires s.hook == c.hook && s.instance == c.instance
    ensures RunLaw(w, c, body, s, Run(body, w, s))
  {
  }

  /** A run over the first |worlds| - 1 calls: each has the effect of its turn, those that could fire are the
      ones listed, and a needed value was there at every turn. */
  ghost predicate FiringLaw(calls: seq<Call>, needsValue: bool, body: Body, actor: Call -> (int, int), top: Option<Frame>,
                            fired: seq<nat>, worlds: seq<World>) {
    && 0 < |worlds| <= |calls| + 1
    && (forall k: nat :: k < |worlds| - 1 ==>
          && TurnLaw(worlds[k], calls[k], body, actor(calls[k]).0, actor(calls[k]).1, top, worlds[k + 1])
          && (needsValue ==> worlds[k].value > 0))
    && (forall k: nat :: k in fired <==>
          k < |worlds| - 1 && calls[k].hook in worlds[k].enabled && (calls[k].instance > 0 ==> calls[k].instance in worlds[k].live))
    && forall i, j :: 0 <= i < j < |fired| ==> fired[i] < fired[j]
  }

  function OneActor(player: int, character: int): Call -> (int, int) { (c: Call) => (player, character) }

  lemma EventFiringHolds(calls: seq<Call>, needsValue: bool, body: Body, player: int, character: int, top: Option<Frame>, w: World,
                         fired: seq<nat>, worlds: seq<World>)
    requires Steps(calls, needsValue, EventTurn(body, player, character, top), w, fired, worlds)
    ensures FiringLaw(calls, needsValue, body, OneActor(player, character), top, fired, worlds)
  {
    hide TurnLaw, EventTurn, After;
    forall k: nat | k < |worlds| - 1 ensures TurnLaw(worlds[k], calls[k], body, player, character, top, worlds[k + 1]) {
      AfterIsLaw(worlds[k], calls[k], body, player, character, top);
    }
  }

  lemma RoundFiringHolds(calls: seq<Call>, body: Body, w: World, fired: seq<nat>, worlds: seq<World>)
    requires Steps(calls, false, RoundTurn(body), w, fired, worlds)
    ensures FiringLaw(calls, false, body, (c: Call) => (c.player, c.character), Some(Frame(0, 0)), fired, worlds)
  {
    hide TurnLaw, RoundTurn, After;
    forall k: nat | k < |worlds| - 1
      ensures TurnLaw(worlds[k], calls[k], body, calls[k].player, calls[k].character, Some(Frame(0, 0)), worlds[k + 1])
    {
      AfterIsLaw(worlds[k], calls[k], body, calls[k].player, calls[k].character, Some(UNBOUND));
    }
  }

  class Firing {
    var world: World
    var currentHook: int
    var currentBuff: nat
    var actorPlayer: int
    var actorCharacter: int
    var stack: seq<Frame>

    constructor (w: World)
      ensures world == w && currentHook == -1 && currentBuff == 0 && stack == []
    {
      world, currentHook, currentBuff, stack := w, -1, 0, [];
    }

    function Top(): Option<Frame>
      reads this
    {
      if stack == [] then None else Some(stack[|stack| - 1])
    }

    method MarkApplied()
      modifies this`world
      ensures world == old(world).(applied := old(world).applied + Marks(currentBuff, currentHook))
    {
      if currentHook < 0 { return; }
      var key := ApplicationKey(currentBuff, currentHook);
      world := world.(applied := world.applied + {currentHook} + if key.Some? then {key.value} else {});
    }

    /** Binds the context and the current frame to the call, runs the body, and puts both back. */
    method InvokeBuffHook(call: Call, body: Body)
      modifies this`world, this`currentHook, this`currentBuff, this`stack
      ensures currentHook == old(currentHook) && currentBuff == old(currentBuff) && stack == old(stack)
      ensures world == After(old(world), call, EventTurn(body, actorPlayer, actorCharacter, old(Top())))
      ensures TurnLaw(old(world), call, body, actorPlayer, actorCharacter, old(Top()), world)
    {
      AfterIsLaw(world, call, body, actorPlayer, actorCharacter, Top());
      hide TurnLaw;
      if !Ready(world, call) { return; }
      var oldHook, oldBuff := currentHook, currentBuff;
      currentHook, currentBuff := call.hook, call.instance;
      var index := |stack| - 1;
      var oldFrame := UNBOUND;
      if index >= 0 && call.instance != 0 {
        oldFrame := stack[index];
        stack := stack[index := Frame(call.instance, world.live[call.instance])];
      }
      var frame := if index >= 0 then stack[index] else UNBOUND;
      world := world.(ran := world.ran + {(call.instance, call.hook)});
      var o := body(world, Scope(currentHook, currentBuff, actorPlayer, actorCharacter, frame));
      world := o.world;
      if o.marks { MarkApplied(); }
      if index >= 0 && call.instance != 0 { stack := stack[index := oldFrame]; }
      currentHook, currentBuff := oldHook, oldBuff;
    }

    /** The loop of FireEventHooks over the scheduled calls.  `needsValue`: a damage-reduction, shield or immunity event, which stops at value 0.  `fired` lists
        the indices of the calls that ran; `worlds[k]` is the world in which call k had its turn. */
    method FireCalls(calls: seq<Call>, needsValue: bool, body: Body) returns (ghost fired: seq<nat>, ghost worlds: seq<World>)
      modifies this`world, this`currentHook, this`currentBuff, this`stack
      ensures currentHook == old(currentHook) && currentBuff == old(currentBuff) && stack == old(stack)
      ensures Steps(calls, needsValue, EventTurn(body, actorPlayer, actorCharacter, old(Top())), old(world), fired, worlds)
      ensures worlds != [] && world == worlds[|worlds| - 1]
      ensures |worlds| == |calls| + 1 || world.over || (needsValue && world.value <= 0)
      ensures forall k :: 0 < k < |worlds| - 1 ==> !worlds[k].over
    {
      hide Steps, After, Ready, EventTurn, TurnLaw;
      ghost var turn := EventTurn(body, actorPlayer, actorCharacter, Top());
      fired, worlds := [], [world];
      NoSteps(calls, needsValue, turn, world);
      for k := 0 to |calls|
        invariant currentHook == old(currentHook) && currentBuff == old(currentBuff) && stack == old(stack)
        invariant |worlds| == k + 1 && world == worlds[k] && Steps(calls, needsValue, turn, old(world), fired, worlds)
        invariant forall m :: 0 < m <= k ==> !worlds[m].over
      {
        if needsValue && world.value <= 0 { return; }
        StepsMore(calls, needsValue, turn, old(world), fired, worlds);
        fired := if Ready(world, calls[k]) then fired + [k] else fired;
        InvokeBuffHook(calls[k], body);
        worlds := worlds + [world];
        if world.over { return; }
      }
    }

    /** fireRoundBuff: the call's owner acts, in a frame pushed for it. */
    method FireRoundBuff(call: Call, body: Body)
      modifies this
      ensures currentHook == old(currentHook) && currentBuff == old(currentBuff) && stack == old(stack)
      ensures actorPlayer == old(actorPlayer) && actorCharacter == old(actorCharacter)
      ensures world == After(old(world), call, RoundTurn(body))
      ensures TurnLaw(old(world), call, body, call.player, call.character, Some(Frame(0, 0)), world)
    {
      var oldPlayer, oldCharacter := actorPlayer, actorCharacter;
      actorPlayer, actorCharacter := call.player, call.character;
      stack := stack + [UNBOUND];
      InvokeBuffHook(call, body);
      stack := stack[..|stack| - 1];
      actorPlayer, actorCharacter := oldPlayer, oldCharacter;
    }

    /** The same for a round stage, each call under its own actor. */
    method FireRoundCalls(calls: seq<Call>, body: Body) returns (ghost fired: seq<nat>, ghost worlds: seq<World>)
      modifies this
      ensures currentHook == old(currentHook) && currentBuff == old(currentBuff) && stack == old(stack)
      ensures actorPlayer == old(actorPlayer) && actorCharacter == old(actorCharacter)
      ensures Steps(calls, false, RoundTurn(body), old(world), fired, worlds) && worlds != [] && world == worlds[|worlds| - 1]
      ensures |worlds| == |calls| + 1 || world.over
      ensures forall k :: 0 <= k < |fired| && fired[k] < |worlds| - 2 ==> !worlds[fired[k] + 1].over
    {
      hide Steps, RoundTurn, TurnLaw;
      fired, worlds := [], [world];
      NoSteps(calls, false, RoundTurn(body), world);
      for k := 0 to |calls|
        invariant currentHook == old(currentHook) && currentBuff == old(currentBuff) && stack == old(stack)
        invariant actorPlayer == old(actorPlayer) && actorCharacter == old(actorCharacter)
        invariant |worlds| == k + 1 && world == worlds[k] && Steps(calls, false, RoundTurn(body), old(world), fired, worlds)
        invariant forall m :: 0 <= m < |fired| ==> fired[m] < k && !worlds[fired[m] + 1].over
      {
        StepsMore(calls, false, RoundTurn(body), old(world), fired, worlds);
        if !Ready(world, calls[k]) {
          worlds := worlds + [world];
          continue;
        }
        fired := fired + [k];
        FireRoundBuff(calls[k], body);
        worlds := worlds + [world];
        if world.over { return; }
      }
    }

    /** FireEventHooks: the event's hooks are scheduled for the instances in play, and fired. */
    method FireEventHooks(hooks: seq<EventHook>, buffs: seq<Buff>, needsValue: bool, body: Body)
      returns (ghost calls: seq<Call>, ghost fired: seq<nat>, ghost worlds: seq<World>)
      requires Distinguished(hooks, buffs) && InPlay(buffs, world)
      modifies this`world, this`currentHook, this`currentBuff, this`stack
      ensures currentHook == old(currentHook) && currentBuff == old(currentBuff) && stack == old(stack)
      ensures multiset(calls) == multiset(Collect(hooks, buffs, [ANY], Selects))
      ensures forall i, j :: 0 <= i < j < |calls| ==> Before(calls[i], calls[j])
      ensures Steps(calls, needsValue, EventTurn(body, actorPlayer, actorCharacter, old(Top())), old(world), fired, worlds)
      ensures worlds != [] && world == worlds[|worlds| - 1]
      ensures |worlds| == |calls| + 1 || world.over || (needsValue && world.value <= 0)
      ensures EventCalls(hooks, buffs, calls) && EventOrder(calls) && worlds[0] == old(world)
      ensures FiringLaw(calls, needsValue, body, OneActor(actorPlayer, actorCharacter), old(Top()), fired, worlds)
      ensures forall k :: 0 < k < |worlds| - 1 ==> !worlds[k].over
      ensures Lawful(body) ==> forall i: nat :: i < |fired| ==> Captured(buffs, calls, old(world), fired, worlds, i)
      ensures Honest(body) && Explained(old(world)) ==> Explained(world) && old(world).ran <= world.ran
    {
      hide Steps, Before, Captured, Lawful, Honest, Explained, EventTurn, Distinguished, InPlay, EventCalls, EventOrder, FiringLaw;
      var scheduled := ScheduleHooks(hooks, buffs);
      calls := scheduled;
      ghost var turn := EventTurn(body, actorPlayer, actorCharacter, Top());
      fired, worlds := FireCalls(scheduled, needsValue, body);
      StepsStart(calls, needsValue, turn, old(world), fired, worlds);
      EventFiringHolds(calls, needsValue, body, actorPlayer, actorCharacter, old(Top()), old(world), fired, worlds);
      if Lawful(body) {
        TurnsAreLawful(body, actorPlayer, actorCharacter, old(Top()));
        AllCaptured(hooks, buffs, [ANY], Selects, calls, needsValue, turn, old(world), fired, worlds);
      }
      if Honest(body) && Explained(old(world)) {
        TurnsAreHonest(body, actorPlayer, actorCharacter, old(Top()));
        WorldsExplained(calls, needsValue, turn, old(world), fired, worlds, |worlds| - 1);
      }
    }

    /** FirePerPlayerHooks: the same for a round stage. */
    method FirePerPlayerHooks(hooks: seq<EventHook>, buffs: seq<Buff>, order: seq<int>, body: Body)
      returns (ghost calls: seq<Call>, ghost fired: seq<nat>, ghost worlds: seq<World>)
      requires Distinguished(hooks, buffs) && InPlay(buffs, world) && forall i, j :: 0 <= i < j < |order| ==> order[i] != order[j]
      modifies this
      ensures currentHook == old(currentHook) && currentBuff == old(currentBuff) && stack == old(stack)
      ensures actorPlayer == old(actorPlayer) && actorCharacter == old(actorCharacter)
      ensures IsRoundSchedule(Collect(hooks, buffs, order, SelectsRound), order, calls)
      ensures Steps(calls, false, RoundTurn(body), old(world), fired, worlds) && worlds != [] && world == worlds[|worlds| - 1]
      ensures |worlds| == |calls| + 1 || world.over
      ensures RoundCalls(hooks, buffs, order, calls) && RoundLaw(order, calls) && worlds[0] == old(world)
      ensures FiringLaw(calls, false, body, (c: Call) => (c.player, c.character), Some(Frame(0, 0)), fired, worlds)
      ensures forall k :: 0 <= k < |fired| && fired[k] < |worlds| - 2 ==> !worlds[fired[k] + 1].over
      ensures Lawful(body) ==> forall i: nat :: i < |fired| ==> Captured(buffs, calls, old(world), fired, worlds, i)
      ensures Honest(body) && Explained(old(world)) ==> Explained(world) && old(world).ran <= world.ran
    {
      hide Steps, IsRoundSchedule, Captured, Lawful, Honest, Explained, RoundTurn, Distinguished, InPlay, RoundCalls, RoundLaw, FiringLaw;
      var scheduled := ScheduleRoundHooks(hooks, buffs, order);
      calls := scheduled;
      fired, worlds := FireRoundCalls(scheduled, body);
      StepsStart(calls, false, RoundTurn(body), old(world), fired, worlds);
      RoundFiringHolds(calls, body, old(world), fired, worlds);
      if Lawful(body) {
        TurnsAreLawful(body, 0, 0, None);
        ScheduleKeepsCalls(Collect(hooks, buffs, order, SelectsRound), order, calls);
        AllCaptured(hooks, buffs, order, SelectsRound, calls, false, RoundTurn(body), old(world), fired, worlds);
      }
      if Honest(body) && Explained(old(world)) {
        TurnsAreHonest(body, 0, 0, None);
        WorldsExplained(calls, false, RoundTurn(body), old(world), fired, worlds, |worlds| - 1);
      }
    }
  }

  /** A call's effect at its turn. */
  function After(w: World, call: Call, turn: Turn): World {
    if Ready(w, call) then turn(w, call) else w
  }

  lemma StepsStart(calls: seq<Call>, needsValue: bool, turn: Turn, w: World, fired: seq<nat>, worlds: seq<World>)
    requires Steps(calls, needsValue, turn, w, fired, worlds)
    ensures worlds != [] && worlds[0] == w
  {
  }

  lemma NoSteps(calls: seq<Call>, needsValue: bool, turn: Turn, w: World)
    ensures Steps(calls, needsValue, turn, w, [], [w])
  {
  }

  lemma TraceMore(calls: seq<Call>, needsValue: bool, turn: Turn, w: World, worlds: seq<World>)
    requires Trace(calls, needsValue, turn, w, worlds) && |worlds| <= |calls|
    requires !(needsValue && worlds[|worlds| - 1].value <= 0)
    ensures Trace(calls, needsValue, turn, w, worlds + [After(worlds[|worlds| - 1], calls[|worlds| - 1], turn)])
  {
    hide After;
  }

  lemma FiredMore(calls: seq<Call>, fired: seq<nat>, worlds: seq<World>, next: World)
    requires 0 < |worlds| <= |calls| && FiredAre(calls, fired, worlds)
    ensures var k := |worlds| - 1; FiredAre(calls, if Ready(worlds[k], calls[k]) then fired + [k] else fired, worlds + [next])
  {
    hide Ready;
    var k := |worlds| - 1;
    forall m | 0 <= m < |fired| ensures fired[m] < k { assert fired[m] in fired; }
    assert forall m :: 0 <= m <= k ==> (worlds + [next])[m] == worlds[m];
  }

  lemma StepsMore(calls: seq<Call>, needsValue: bool, turn: Turn, w: World, fired: seq<nat>, worlds: seq<World>)
    requires Steps(calls, needsValue, turn, w, fired, worlds) && 0 < |worlds| <= |calls|
    requires !(needsValue && worlds[|worlds| - 1].value <= 0)
    ensures var k := |worlds| - 1;
      Steps(calls, needsValue, turn, w, if Ready(worlds[k], calls[k]) then fired + [k] else fired, worlds + [After(worlds[k], calls[k], turn)])
  {
    hide After, Ready, Trace, FiredAre;
    TraceMore(calls, needsValue, turn, w, worlds);
    FiredMore(calls, fired, worlds, After(worlds[|worlds| - 1], calls[|worlds| - 1], turn));
  }

  /** The worlds in which the calls have their turns. */
  ghost predicate Trace(calls: seq<Call>, needsValue: bool, turn: Turn, w: World, worlds: seq<World>) {
    && 0 < |worlds| <= |calls| + 1 && worlds[0] == w
    && (forall k: nat :: k < |worlds| - 1 ==> worlds[k + 1] == After(worlds[k], calls[k], turn))
    && forall k: nat :: k < |worlds| - 1 ==> !(needsValue && worlds[k].value <= 0)
  }

  /** Exactly the calls that were ready at their turn have fired, in order. */
  ghost predicate FiredAre(calls: seq<Call>, fired: seq<nat>, worlds: seq<World>) {
    && |worlds| <= |calls| + 1
    && (forall k: nat :: k in fired <==> k < |worlds| - 1 && Ready(worlds[k], calls[k]))
    && forall i, j :: 0 <= i < j < |fired| ==> fired[i] < fired[j]
  }

  /** A run of the loop over the calls. */
  ghost predicate Steps(calls: seq<Call>, needsValue: bool, turn: Turn, w: World, fired: seq<nat>, worlds: seq<World>) {
    Trace(calls, needsValue, turn, w, worlds) && FiredAre(calls, fired, worlds)
  }

  lemma EvolvesTransitive(u: World, v: World, w: World)
    requires Evolves(u, v) && Evolves(v, w)
    ensures Evolves(u, w)
  {
  }

  lemma {:induction false} WorldsEvolve(calls: seq<Call>, needsValue: bool, turn: Turn, w: World, fired: seq<nat>, worlds: seq<World>, i: nat, k: nat)
    requires LawfulTurn(turn) && Steps(calls, needsValue, turn, w, fired, worlds) && i <= k < |worlds|
    ensures Evolves(worlds[i], worlds[k])
    decreases k - i
  {
    if i < k {
      WorldsEvolve(calls, needsValue, turn, w, fired, worlds, i, k - 1);
      assert Evolves(worlds[k - 1], worlds[k]);
      EvolvesTransitive(worlds[i], worlds[k - 1], worlds[k]);
    }
  }

  /** The instances of the schedule are in play, and no id is given out beyond the last one. */
  ghost predicate InPlay(buffs: seq<Buff>, w: World) { IdsInUse(w) && forall b :: b in BuffIds(buffs) ==> b in w.live }

  /** The i-th call that fired: no other that fired later is for the same hook and instance (or player, for a
      plain hook); it fired for an instance that was in play at event entry and was still the same one at its
      turn; and its hook was enabled throughout. */
  ghost predicate Captured(buffs: seq<Buff>, calls: seq<Call>, w: World, fired: seq<nat>, worlds: seq<World>, i: nat) {
    && i < |fired| && fired[i] < |worlds| - 1 && fired[i] < |calls|
    && (forall j :: i < j < |fired| ==> fired[j] < |calls| && Apart(calls[fired[i]], calls[fired[j]]))
    && var c := calls[fired[i]];
       && (c.instance != 0 ==>
             && c.instance in BuffIds(buffs) && c.instance <= w.serial && c.instance in w.live
             && forall k :: 0 <= k <= fired[i] ==> c.instance in worlds[k].live && worlds[k].live[c.instance] == w.live[c.instance])
       && forall k :: 0 <= k <= fired[i] && c.hook < w.registered ==> c.hook in worlds[k].enabled
  }

  /** Whatever the hooks spawn, remove or replace while an event's schedule runs: a (hook, instance) pair, or
      for plain hooks a (hook, player) pair, fires at most once; it fires for an instance that was in play at
      event entry and is still the same one at its turn; an instance that has gone by then, or appears later,
      never fires. */
  lemma OnlyCapturedFire(hooks: seq<EventHook>, buffs: seq<Buff>, order: seq<int>, selects: (EventHook, Buff) -> bool, calls: seq<Call>,
                         needsValue: bool, turn: Turn, w: World, fired: seq<nat>, worlds: seq<World>, i: nat)
    requires LawfulTurn(turn) && Steps(calls, needsValue, turn, w, fired, worlds) && i < |fired|
    requires Unique(HookIds(hooks)) && Unique(BuffIds(buffs)) && forall i, j :: 0 <= i < j < |order| ==> order[i] != order[j]
    requires InPlay(buffs, w) && multiset(calls) == multiset(Collect(hooks, buffs, order, selects))
    ensures Captured(buffs, calls, w, fired, worlds, i)
  {
    hide Steps, Apart;
    var collected := Collect(hooks, buffs, order, selects);
    FiredFacts(calls, needsValue, turn, w, fired, worlds, i);
    CollectOnce(hooks, buffs, order, selects);
    var c := calls[fired[i]];
    hide Collect;
    assert c in multiset(collected);
    assert c.instance != 0 ==> c.instance in w.live;
    forall k | 0 <= k <= fired[i]
      ensures (c.instance != 0 ==> c.instance in worlds[k].live && worlds[k].live[c.instance] == w.live[c.instance]) && (c.hook < w.registered ==> c.hook in worlds[k].enabled)
    {
      WorldsEvolve(calls, needsValue, turn, w, fired, worlds, 0, k);
      WorldsEvolve(calls, needsValue, turn, w, fired, worlds, k, fired[i]);
    }
    forall j | i < j < |fired| ensures fired[j] < |calls| && Apart(c, calls[fired[j]]) {
      FiredFacts(calls, needsValue, turn, w, fired, worlds, j);
      PairsApart(calls, collected, fired[i], fired[j]);
    }
  }

  lemma AllCaptured(hooks: seq<EventHook>, buffs: seq<Buff>, order: seq<int>, selects: (EventHook, Buff) -> bool, calls: seq<Call>,
                    needsValue: bool, turn: Turn, w: World, fired: seq<nat>, worlds: seq<World>)
    requires LawfulTurn(turn) && Steps(calls, needsValue, turn, w, fired, worlds)
    requires Distinguished(hooks, buffs) && forall i, j :: 0 <= i < j < |order| ==> order[i] != order[j]
    requires InPlay(buffs, w) && multiset(calls) == multiset(Collect(hooks, buffs, order, selects))
    ensures forall i: nat :: i < |fired| ==> Captured(buffs, calls, w, fired, worlds, i)
  {
    hide LawfulTurn, Steps, InPlay, Captured, Collect, Unique;
    forall i: nat | i < |fired| ensures Captured(buffs, calls, w, fired, worlds, i) {
      OnlyCapturedFire(hooks, buffs, order, selects, calls, needsValue, turn, w, fired, worlds, i);
    }
  }

  /** Scheduling a round stage neither loses nor adds a call. */
  lemma ScheduleKeepsCalls(collected: seq<Call>, order: seq<int>, calls: seq<Call>)
    requires IsRoundSchedule(collected, order, calls)
    ensures multiset(calls) == multiset(collected)
  {
    var fifo :| Fifo(collected, fifo) && Scheduled(order, fifo, calls);
  }

  /** Whatever fires keeps every applied modifier explained. */
  lemma {:induction false} WorldsExplained(calls: seq<Call>, needsValue: bool, turn: Turn, w: World, fired: seq<nat>, worlds: seq<World>, k: nat)
    requires HonestTurn(turn) && Explained(w) && Steps(calls, needsValue, turn, w, fired, worlds) && k < |worlds|
    ensures Explained(worlds[k]) && w.ran <= worlds[k].ran
    decreases k
  {
    hide Explained;
    if k > 0 {
      WorldsExplained(calls, needsValue, turn, w, fired, worlds, k - 1);
      assert worlds[k] == After(worlds[k - 1], calls[k - 1], turn);
    }
  }

  lemma FiredFacts(calls: seq<Call>, needsValue: bool, turn: Turn, w: World, fired: seq<nat>, worlds: seq<World>, i: nat)
    requires Steps(calls, needsValue, turn, w, fired, worlds) && i < |fired|
    ensures worlds != [] && worlds[0] == w
    ensures fired[i] < |worlds| - 1 && fired[i] < |calls| && Ready(worlds[fired[i]], calls[fired[i]])
    ensures forall j :: i < j < |fired| ==> fired[i] < fired[j]
  {
    assert fired[i] in fired;
  }

  lemma {:induction false} OccursTwice(calls: seq<Call>, i: nat, j: nat)
    requires i < j < |calls| && calls[i] == calls[j]
    ensures multiset(calls)[calls[i]] >= 2
  {
    assert calls == calls[..j] + calls[j..];
    assert calls[i] in calls[..j] && calls[i] in calls[j..];
    assert multiset(calls[..j])[calls[i]] >= 1 && multiset(calls[j..])[calls[i]] >= 1;
  }

  lemma {:induction false} OccursOnce(calls: seq<Call>, c: Call)
    requires forall i :: 0 <= i < |calls| ==> calls[i].pos == i
    ensures multiset(calls)[c] <= 1
  {
    if calls != [] {
      var front := calls[..|calls| - 1];
      OccursOnce(front, c);
      assert calls == front + [calls[|calls| - 1]];
      if calls[|calls| - 1] == c { assert c !in front; }
    }
  }

  /** Two calls of a schedule come from two places of the collected list, where no pair occurs twice. */
  lemma PairsApart(calls: seq<Call>, collected: seq<Call>, i: nat, j: nat)
    requires multiset(calls) == multiset(collected) && Once(collected)
    requires (forall k :: 0 <= k < |collected| ==> collected[k].pos == k) && i < j < |calls|
    ensures Apart(calls[i], calls[j])
  {
    assert calls[i] in multiset(collected) && calls[j] in multiset(collected);
    var a :| 0 <= a < |collected| && collected[a] == calls[i];
    var b :| 0 <= b < |collected| && collected[b] == calls[j];
    if a == b {
      OccursOnce(collected, calls[i]);
      OccursTwice(calls, i, j);
    }
  }

  /** A modifier counts as applied by hook h for instance b only if h's body has run for b: no other
      application, however deeply nested, can put that key there. */
  lemma AppliedByItself(w: World, b: nat, h: nat)
    requires Explained(w) && b > 0 && ApplicationKey(b, h).Some? && ApplicationKey(b, h).value in w.applied
    ensures (b, h) in w.ran
  {
    hide Marks, ApplicationKey;
    var key := ApplicationKey(b, h).value;
    var a :| a in w.ran && key in Marks(a.0, a.1);
    MarkIs(a.0, a.1, key);
    if a != (b, h) && ApplicationKey(a.0, a.1).Some? { KeysDiffer(b, h, a.0, a.1); }
  }

  lemma MarkIs(instance: nat, hook: int, key: int)
    requires key in Marks(instance, hook)
    ensures key == hook >= 0 || (hook >= 0 && ApplicationKey(instance, hook) == Some(key))
  {
  }

  /** A key that appears during a call is the call's own, or an event that its body fired has put it there. */
  lemma AppearsDuring(w: World, c: Call, body: Body, player: int, character: int, top: Option<Frame>, b: nat, h: nat)
    requires ApplicationKey(b, h).Some? && ApplicationKey(b, h).value !in w.applied && b > 0
    requires ApplicationKey(b, h).value in After(w, c, EventTurn(body, player, character, top)).applied
    ensures var s := Scope(c.hook, c.instance, player, character, Bound(w, c, top));
      || (c.instance == b && c.hook == h && body(w.(ran := w.ran + {(b, h)}), s).marks)
      || ApplicationKey(b, h).value in body(w.(ran := w.ran + {(c.instance, c.hook)}), s).world.applied
  {
    hide Marks, ApplicationKey, Bound;
    var key := ApplicationKey(b, h).value;
    var s := Scope(c.hook, c.instance, player, character, Bound(w, c, top));
    var o := body(w.(ran := w.ran + {(c.instance, c.hook)}), s);
    if key !in o.world.applied {
      MarkIs(c.instance, c.hook, key);
      if c.instance != b || c.hook != h { KeysDiffer(b, h, c.instance, c.hook); }
    }
  }

  /** The second case exists: a body that fires another event's call, whose body marks itself. */
  lemma NestedMarks(w: World, c: Call, d: Call) returns (body: Body)
    requires Ready(w, c) && Ready(w, d) && d.instance > 0 && ApplicationKey(d.instance, d.hook).Some?
    requires ApplicationKey(d.instance, d.hook).value !in w.applied
    ensures ApplicationKey(d.instance, d.hook).value in After(w, c, EventTurn(body, 0, 0, None)).applied
  {
    var inner: Body := (v, s) => Outcome(v, true);
    body := (v: World, s: Scope) => Outcome(Run(inner, v, Scope(d.hook, d.instance, 0, 0, UNBOUND)), false);
  }
}
