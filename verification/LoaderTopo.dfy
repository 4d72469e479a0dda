/** Load order of DSL files: interp/loader_topo.go, from the symbols each file provides and depends on. */
module LoaderTopo {

  type Symbol(==, !new)

  datatype File = File(declares: seq<Symbol>, depends: seq<Symbol>)

  datatype Reason = Missing(symbol: Symbol) | FromBroken(symbol: Symbol, file: nat)

  datatype LoadError = Unresolvable(failed: seq<nat>, reasons: seq<seq<Reason>>) | Circular(cycle: seq<nat>)

  datatype Result = Ok(sorted: seq<nat>) | Err(error: LoadError)

  // ---- Providers ----

  /** Who declares a symbol: the last file that declares it, -1 when only the engine does. */
  ghost predicate Provides(pre: seq<Symbol>, files: seq<File>, symbol: Symbol, who: int) {
    && -1 <= who < |files|
    && (if who == -1 then symbol in pre else symbol in files[who].declares)
    && forall i :: who < i < |files| ==> symbol !in files[i].declares
  }

  ghost predicate Provided(pre: seq<Symbol>, files: seq<File>, symbol: Symbol) {
    symbol in pre || exists i :: 0 <= i < |files| && symbol in files[i].declares
  }

  ghost predicate IsProviderMap(pre: seq<Symbol>, files: seq<File>, provider: map<Symbol, int>) {
    && (forall symbol :: symbol in provider <==> Provided(pre, files, symbol))
    && forall symbol :: symbol in provider ==> Provides(pre, files, symbol, provider[symbol])
  }

  method ProviderMap(pre: seq<Symbol>, files: seq<File>) returns (provider: map<Symbol, int>)
    ensures IsProviderMap(pre, files, provider)
  {
    provider := map[];
    for k := 0 to |pre|
      invariant forall symbol :: symbol in provider <==> symbol in pre[..k]
      invariant forall symbol :: symbol in provider ==> provider[symbol] == -1
    {
      provider := provider[pre[k] := -1];
    }
    assert IsProviderMap(pre, files[..0], provider);
    for i := 0 to |files|
      invariant IsProviderMap(pre, files[..i], provider)
    {
      ghost var before := provider;
      var symbols := files[i].declares;
      for k := 0 to |symbols|
        invariant forall symbol :: symbol in provider <==> symbol in before || symbol in symbols[..k]
        invariant forall symbol :: symbol in provider ==> provider[symbol] == if symbol in symbols[..k] then i else before[symbol]
      {
        provider := provider[symbols[k] := i];
      }
      assert symbols[..|symbols|] == symbols;
      MapStep(pre, files, i, before, provider);
    }
    assert files[..|files|] == files;
  }

  lemma MapStep(pre: seq<Symbol>, files: seq<File>, i: nat, before: map<Symbol, int>, after: map<Symbol, int>)
    requires i < |files| && IsProviderMap(pre, files[..i], before)
    requires forall symbol :: symbol in after <==> symbol in before || symbol in files[i].declares
    requires forall symbol :: symbol in after ==> after[symbol] == if symbol in files[i].declares then i else before[symbol]
    ensures IsProviderMap(pre, files[..i + 1], after)
  {
    var prior, grown := files[..i], files[..i + 1];
    assert grown == prior + [files[i]];
    forall symbol ensures symbol in after <==> Provided(pre, grown, symbol) {
      if symbol in files[i].declares { assert symbol in grown[i].declares; }
      if Provided(pre, prior, symbol) && symbol !in pre {
        var m :| 0 <= m < i && symbol in prior[m].declares;
        assert symbol in grown[m].declares;
      }
    }
    forall symbol | symbol in after ensures Provides(pre, grown, symbol, after[symbol]) {
      if symbol !in files[i].declares {
        assert Provides(pre, prior, symbol, before[symbol]);
        assert forall m :: 0 <= m < i ==> grown[m] == prior[m];
      }
    }
  }

  // ---- Graphs ----

  /** The provider files of file i. */
  function Sources(files: seq<File>, provider: map<Symbol, int>, i: nat): set<nat>
    requires i < |files|
  {
    set symbol | symbol in files[i].depends && symbol in provider && provider[symbol] >= 0 :: provider[symbol]
  }

  /** A walk from file to provider file. */
  ghost predicate Walk(files: seq<File>, provider: map<Symbol, int>, w: seq<nat>) {
    && w != [] && (forall k :: 0 <= k < |w| ==> 0 <= w[k] < |files|)
    && forall k :: 0 <= k < |w| - 1 ==> w[k + 1] in Sources(files, provider, w[k])
  }

  predicate Lacks(files: seq<File>, provider: map<Symbol, int>, i: nat)
    requires i < |files|
  {
    exists symbol :: symbol in files[i].depends && symbol !in provider
  }

  /** A chain of provider files leads from file i to one with a dependency nobody declares. */
  ghost predicate Unloadable(files: seq<File>, provider: map<Symbol, int>, i: nat) {
    exists w: seq<nat> :: Walk(files, provider, w) && w[0] == i && Lacks(files, provider, w[|w| - 1])
  }

  // ---- Broken files ----

  /** Nothing is wrong with file i as far as the marks tell. */
  ghost predicate Clean(files: seq<File>, provider: map<Symbol, int>, broken: seq<bool>, i: nat)
    requires i < |files| == |broken|
  {
    forall symbol :: symbol in files[i].depends ==>
      symbol in provider && !(0 <= provider[symbol] < |files| && broken[provider[symbol]])
  }

  predicate Justified(files: seq<File>, provider: map<Symbol, int>, broken: seq<bool>, i: nat, reason: Reason)
    requires i < |files| == |broken|
  {
    && reason.symbol in files[i].depends
    && match reason
       case Missing(symbol) => symbol !in provider
       case FromBroken(symbol, p) => symbol in provider && provider[symbol] == p && p < |broken| && broken[p]
  }

  lemma MarkedUnloadable(files: seq<File>, provider: map<Symbol, int>, i: nat, symbol: Symbol)
    requires i < |files| && symbol in files[i].depends
    requires symbol !in provider || (provider[symbol] >= 0 && Unloadable(files, provider, provider[symbol]))
    ensures Unloadable(files, provider, i)
  {
    if symbol !in provider {
      assert Walk(files, provider, [i]);
    } else {
      var w: seq<nat> :| Walk(files, provider, w) && w[0] == provider[symbol] && Lacks(files, provider, w[|w| - 1]);
      var longer := [i] + w;
      forall k | 0 <= k < |longer| - 1 ensures longer[k + 1] in Sources(files, provider, longer[k]) {
        if k > 0 { assert longer[k] == w[k - 1]; }
      }
      assert Walk(files, provider, longer) && longer[|longer| - 1] == w[|w| - 1];
    }
  }

  /** When every unmarked file is clean, every chain to a missing symbol starts at a marked file. */
  lemma {:induction false} CleanLoads(files: seq<File>, provider: map<Symbol, int>, broken: seq<bool>, w: seq<nat>)
    requires |files| == |broken| && Walk(files, provider, w) && Lacks(files, provider, w[|w| - 1])
    requires forall i :: 0 <= i < |files| ==> broken[i] || Clean(files, provider, broken, i)
    ensures broken[w[0]]
    decreases |w|
  {
    if |w| > 1 {
      var rest := w[1..];
      assert forall k :: 0 <= k < |rest| ==> rest[k] == w[k + 1];
      CleanLoads(files, provider, broken, rest);
      var symbol :| symbol in files[w[0]].depends && symbol in provider && provider[symbol] == w[1];
    }
  }

  function Unmarked(broken: seq<bool>): nat {
    if broken == [] then 0 else Unmarked(broken[1..]) + if broken[0] then 0 else 1
  }

  lemma {:induction false} Mark(broken: seq<bool>, i: nat)
    requires i < |broken| && !broken[i]
    ensures Unmarked(broken[i := true]) == Unmarked(broken) - 1
  {
    if i > 0 {
      Mark(broken[1..], i - 1);
      assert broken[i := true][1..] == broken[1..][i - 1 := true];
    } else {
      assert broken[0 := true][1..] == broken[1..];
    }
  }

  /** One look at an unmarked file: its reasons, one per troubled symbol. */
  method Inspect(files: seq<File>, provider: map<Symbol, int>, broken: array<bool>, i: nat) returns (why: seq<Reason>)
    requires i < |files| == broken.Length && !broken[i]
    requires forall symbol :: symbol in provider ==> provider[symbol] < |files|
    requires forall k: nat :: k < |files| && broken[k] ==> Unloadable(files, provider, k)
    modifies broken
    ensures broken[..] == old(broken[..])[i := why != []]
    ensures forall k: nat :: k < |files| && broken[k] ==> Unloadable(files, provider, k)
    ensures why == [] <==> Clean(files, provider, old(broken[..]), i)
    ensures forall k :: 0 <= k < |why| ==> Justified(files, provider, broken[..], i, why[k])
  {
    why := [];
    var seen: set<Symbol> := {};
    var depends := files[i].depends;
    for k := 0 to |depends|
      invariant broken[..] == old(broken[..])[i := why != []]
      invariant forall symbol :: symbol in seen <==> symbol in depends[..k]
      invariant forall m: nat :: m < |files| && broken[m] ==> Unloadable(files, provider, m)
      invariant why == [] <==> forall symbol :: symbol in depends[..k] ==>
        symbol in provider && !(0 <= provider[symbol] < |files| && old(broken[..])[provider[symbol]])
      invariant forall m :: 0 <= m < |why| ==> Justified(files, provider, broken[..], i, why[m])
    {
      var symbol := depends[k];
      assert depends[..k + 1] == depends[..k] + [symbol];
      if symbol in seen { continue; }
      seen := seen + {symbol};
      if symbol !in provider {
        why := why + [Missing(symbol)];
      } else if provider[symbol] >= 0 && broken[provider[symbol]] {
        why := why + [FromBroken(symbol, provider[symbol])];
      } else {
        continue;
      }
      MarkedUnloadable(files, provider, i, symbol);
      broken[i] := true;
    }
    assert depends[..|depends|] == depends;
  }

  /** Marks are right, and each comes with true reasons. */
  ghost predicate Marked(files: seq<File>, provider: map<Symbol, int>, broken: seq<bool>, reasons: seq<seq<Reason>>) {
    && |broken| == |reasons| == |files|
    && (forall i: nat :: i < |files| && broken[i] ==> Unloadable(files, provider, i))
    && (forall i: nat :: i < |files| ==> (broken[i] <==> reasons[i] != []))
    && forall i: nat, k :: i < |files| && 0 <= k < |reasons[i]| ==> Justified(files, provider, broken, i, reasons[i][k])
  }

  lemma MarkedMore(files: seq<File>, provider: map<Symbol, int>, broken: seq<bool>, reasons: seq<seq<Reason>>, i: nat,
                   broken': seq<bool>, why: seq<Reason>)
    requires Marked(files, provider, broken, reasons) && i < |files| && !broken[i] && broken' == broken[i := why != []]
    requires forall k: nat :: k < |files| && broken'[k] ==> Unloadable(files, provider, k)
    requires forall k :: 0 <= k < |why| ==> Justified(files, provider, broken', i, why[k])
    ensures Marked(files, provider, broken', reasons[i := why])
  {
  }

  lemma MarksSound(files: seq<File>, provider: map<Symbol, int>, broken: seq<bool>, reasons: seq<seq<Reason>>)
    requires Marked(files, provider, broken, reasons)
    ensures |broken| == |reasons| == |files|
    ensures forall k: nat :: k < |files| && broken[k] ==> Unloadable(files, provider, k)
  {
  }

  /** One pass over all files. */
  method Pass(files: seq<File>, provider: map<Symbol, int>, broken: array<bool>, reasons: array<seq<Reason>>) returns (changed: bool)
    requires forall symbol :: symbol in provider ==> provider[symbol] < |files|
    requires Marked(files, provider, broken[..], reasons[..])
    modifies broken, reasons
    ensures Marked(files, provider, broken[..], reasons[..])
    ensures changed ==> Unmarked(broken[..]) < Unmarked(old(broken[..]))
    ensures !changed ==> broken[..] == old(broken[..])
    ensures !changed ==> forall i: nat :: i < |files| ==> broken[i] || Clean(files, provider, broken[..], i)
  {
    hide Marked, Clean;
    var n := |files|;
    MarksSound(files, provider, broken[..], reasons[..]);
    changed := false;
    for i := 0 to n
      invariant broken.Length == reasons.Length == n && Marked(files, provider, broken[..], reasons[..])
      invariant changed ==> Unmarked(broken[..]) < Unmarked(old(broken[..]))
      invariant !changed ==> broken[..] == old(broken[..])
      invariant !changed ==> forall k: nat :: k < i ==> broken[k] || Clean(files, provider, broken[..], k)
    {
      if broken[i] { continue; }
      ghost var marks, texts := broken[..], reasons[..];
      MarksSound(files, provider, marks, texts);
      var why := Inspect(files, provider, broken, i);
      reasons[i] := why;
      assert reasons[..] == texts[i := why];
      MarkedMore(files, provider, marks, texts, i, broken[..], why);
      if why != [] {
        changed := true;
        Mark(marks, i);
      } else {
        assert broken[..] == marks;
      }
    }
  }

  method FindBroken(files: seq<File>, provider: map<Symbol, int>) returns (broken: array<bool>, reasons: array<seq<Reason>>)
    requires forall symbol :: symbol in provider ==> provider[symbol] < |files|
    ensures fresh(broken) && fresh(reasons) && broken.Length == |files| && Marked(files, provider, broken[..], reasons[..])
    ensures forall i: nat :: i < |files| ==> (broken[i] <==> Unloadable(files, provider, i))
  {
    broken := new bool[|files|](_ => false);
    reasons := new seq<Reason>[|files|](_ => []);
    var changed := true;
    while changed
      invariant Marked(files, provider, broken[..], reasons[..])
      invariant !changed ==> forall i: nat :: i < |files| ==> broken[i] || Clean(files, provider, broken[..], i)
      decreases Unmarked(broken[..]), if changed then 1 else 0
    {
      changed := Pass(files, provider, broken, reasons);
    }
    forall i: nat | i < |files| && Unloadable(files, provider, i) ensures broken[i] {
      var w: seq<nat> :| Walk(files, provider, w) && w[0] == i && Lacks(files, provider, w[|w| - 1]);
      CleanLoads(files, provider, broken[..], w);
    }
  }
}
