/**
 Scheduling of passes: dependencies first, analyses cached, and the cache dropped by
 every transform that changes the program. What passes do is a parameter: whether an
 execution changes the program.
*/
module PassManagers {
  import Collections

  datatype Pass = Pass(isAnalysis: bool, dependencies: seq<string>)

  type Passes = map<string, Pass>

  const VERIFIER := "verifyinputconnections"

  /** Dependencies have a smaller rank than the passes that declare them. */
  ghost predicate Ranked(passes: Passes, rank: map<string, nat>) {
    && passes.Keys <= rank.Keys
    && forall p, i :: p in passes && 0 <= i < |passes[p].dependencies| && passes[p].dependencies[i] in passes ==>
         rank[passes[p].dependencies[i]] < rank[p]
  }

  /** `p` declares `d`, or something that depends on `d`. */
  ghost predicate DependsOn(passes: Passes, rank: map<string, nat>, p: string, d: string)
    requires Ranked(passes, rank) && p in passes
    decreases rank[p]
  {
    exists i :: 0 <= i < |passes[p].dependencies| && passes[p].dependencies[i] in passes &&
      (passes[p].dependencies[i] == d
        || (rank[passes[p].dependencies[i]] < rank[p] && DependsOn(passes, rank, passes[p].dependencies[i], d)))
  }

  /** A pass is loaded, and all it depends on, directly or not, are loaded analyses. */
  ghost predicate Loadable(passes: Passes, rank: map<string, nat>, p: string)
    requires Ranked(passes, rank)
    decreases if p in passes then rank[p] else 0, 1
  {
    p in passes && forall i :: 0 <= i < |passes[p].dependencies| ==>
      LoadableAnalysis(passes, rank, p, passes[p].dependencies[i])
  }

  ghost predicate LoadableAnalysis(passes: Passes, rank: map<string, nat>, p: string, d: string)
    requires Ranked(passes, rank) && p in passes && d in passes[p].dependencies
    decreases rank[p], 0
  {
    d in passes && passes[d].isAnalysis && Loadable(passes, rank, d)
  }

  /** A pass that was executed, the version of the program it saw, and the version each result was computed on. */
  datatype Execution = Execution(name: string, version: nat, results: map<string, nat>)

  predicate IsCached(cache: map<string, bool>, name: string) {
    name in cache && cache[name]
  }

  /** A result is computed on the current version if it is cached, and then so are those it was computed from. */
  ghost predicate Current(passes: Passes, cache: map<string, bool>, results: map<string, nat>, version: nat) {
    forall a :: IsCached(cache, a) ==>
      && a in passes && passes[a].isAnalysis
      && a in results && results[a] == version
      && forall i :: 0 <= i < |passes[a].dependencies| ==> IsCached(cache, passes[a].dependencies[i])
  }

  lemma {:induction false} AllDependenciesCurrent(passes: Passes, rank: map<string, nat>, cache: map<string, bool>,
      results: map<string, nat>, version: nat, p: string, d: string)
    requires Ranked(passes, rank) && Current(passes, cache, results, version)
    requires p in passes && (forall i :: 0 <= i < |passes[p].dependencies| ==>
      IsCached(cache, passes[p].dependencies[i]))
    requires DependsOn(passes, rank, p, d)
    ensures d in results && results[d] == version
    decreases rank[p]
  {
    var i :| 0 <= i < |passes[p].dependencies| && passes[p].dependencies[i] in passes &&
      (passes[p].dependencies[i] == d
        || (rank[passes[p].dependencies[i]] < rank[p] && DependsOn(passes, rank, passes[p].dependencies[i], d)));
    var m := passes[p].dependencies[i];
    assert IsCached(cache, m);
    if m != d {
      AllDependenciesCurrent(passes, rank, cache, results, version, m, d);
    }
  }

  /** Every dependency had a result for the version the pass saw. */
  ghost predicate WellFounded(passes: Passes, rank: map<string, nat>, e: Execution)
    requires Ranked(passes, rank)
  {
    e.name in passes && forall d :: DependsOn(passes, rank, e.name, d) ==> d in e.results && e.results[d] == e.version
  }

  // ----- the stack of passes to run -----

  /** `d` is on the stack at `from` or above. */
  predicate Above(work: seq<string>, from: nat, d: string) {
    exists j :: from <= j < |work| && work[j] == d
  }

  /** Every dependency of an entry from `from` on is cached or further up the stack. */
  ghost predicate Supported(passes: Passes, cache: map<string, bool>, work: seq<string>, from: nat) {
    forall i, k :: from <= i < |work| && work[i] in passes && 0 <= k < |passes[work[i]].dependencies| ==>
      IsCached(cache, passes[work[i]].dependencies[k]) || Above(work, i + 1, passes[work[i]].dependencies[k])
  }

  /** The entries from `from` on are analyses that `pass` depends on. */
  ghost predicate Dependencies(passes: Passes, rank: map<string, nat>, pass: string, work: seq<string>, from: nat)
    requires Ranked(passes, rank) && pass in passes
  {
    forall i :: from <= i < |work| ==>
      work[i] in passes && passes[work[i]].isAnalysis && DependsOn(passes, rank, pass, work[i])
  }

  ghost predicate Loaded(passes: Passes, work: seq<string>) {
    && (forall i :: 0 <= i < |work| ==> work[i] in passes)
    && (forall i :: 1 <= i < |work| ==> passes[work[i]].isAnalysis)
  }

  // ----- the order in which passes are run -----

  function Backwards(s: seq<string>): (r: seq<string>)
    ensures |r| == |s|
  {
    seq(|s|, i requires 0 <= i < |s| => s[|s| - 1 - i])
  }

  /** What `p` asks for: all that its dependencies ask for, in the order it declares them, and then itself. */
  ghost function RunOrder(passes: Passes, rank: map<string, nat>, p: string): (r: seq<string>)
    requires Ranked(passes, rank) && p in passes
    ensures r != [] && r[|r| - 1] == p
    decreases rank[p], |passes[p].dependencies| + 1
  {
    DependencyOrder(passes, rank, p, |passes[p].dependencies|) + [p]
  }

  ghost function DependencyOrder(passes: Passes, rank: map<string, nat>, p: string, k: nat): seq<string>
    requires Ranked(passes, rank) && p in passes && k <= |passes[p].dependencies|
    decreases rank[p], k
  {
    if k == 0 then []
    else
      var d := passes[p].dependencies[k - 1];
      DependencyOrder(passes, rank, p, k - 1) + if d in passes then RunOrder(passes, rank, d) else []
  }

  /** What is on the stack for `p` once its dependencies from `k` on are pushed. */
  ghost predicate Stacked(passes: Passes, rank: map<string, nat>, p: string, k: nat, pushed: seq<string>)
    requires Ranked(passes, rank) && p in passes && k <= |passes[p].dependencies|
  {
    DependencyOrder(passes, rank, p, k) + Backwards(pushed) == RunOrder(passes, rank, p)
  }

  lemma StackedEnds(passes: Passes, rank: map<string, nat>, p: string)
    requires Ranked(passes, rank) && p in passes
    ensures Stacked(passes, rank, p, |passes[p].dependencies|, [p])
    ensures forall pushed :: Stacked(passes, rank, p, 0, pushed) ==> Backwards(pushed) == RunOrder(passes, rank, p)
  {
    assert Backwards([p]) == [p];
    forall pushed | Stacked(passes, rank, p, 0, pushed) ensures Backwards(pushed) == RunOrder(passes, rank, p) {
      assert DependencyOrder(passes, rank, p, 0) + Backwards(pushed) == Backwards(pushed);
    }
  }

  lemma BackwardsConcat(a: seq<string>, b: seq<string>)
    ensures Backwards(a + b) == Backwards(b) + Backwards(a)
  {
  }

  lemma StackedMore(passes: Passes, rank: map<string, nat>, p: string, k: nat, before: seq<string>,
      after: seq<string>, from: nat)
    requires Ranked(passes, rank) && p in passes && k < |passes[p].dependencies|
    requires from <= |before| <= |after| && after[..|before|] == before
    requires var d := passes[p].dependencies[k];
      d in passes && Backwards(after[|before|..]) == RunOrder(passes, rank, d)
    requires Stacked(passes, rank, p, k + 1, before[from..])
    ensures Stacked(passes, rank, p, k, after[from..])
  {
    hide RunOrder, Ranked, Backwards;
    var d := passes[p].dependencies[k];
    var a, b := before[from..], after[|before|..];
    assert after[from..] == a + b by {
      assert after == before + b;
    }
    BackwardsConcat(a, b);
    var front, own := DependencyOrder(passes, rank, p, k), RunOrder(passes, rank, d);
    assert DependencyOrder(passes, rank, p, k + 1) == front + own;
    assert (front + own) + Backwards(a) == front + (own + Backwards(a));
  }

  /** The place at which an entry occurs first. */
  ghost function FirstPlace(order: seq<string>, x: string): (i: nat)
    requires x in order
    ensures i < |order| && order[i] == x && x !in order[..i]
  {
    if order[0] == x then 0
    else
      var i := FirstPlace(order[1..], x);
      assert order[..1 + i] == [order[0]] + order[1..][..i];
      1 + i
  }

  /** Every execution is of an entry, and the entries are taken in the order in which they occur first. */
  ghost predicate InTurn(order: seq<string>, executed: seq<string>) {
    && (forall k :: 0 <= k < |executed| ==> executed[k] in order)
    && forall k, l :: 0 <= k < l < |executed| ==> FirstPlace(order, executed[k]) < FirstPlace(order, executed[l])
  }

  /** Those executed are among the first `done` entries, in turn, and all these are cached. */
  ghost predicate Turns(order: seq<string>, done: nat, executed: seq<string>, cache: map<string, bool>) {
    && done <= |order| && InTurn(order, executed)
    && (forall k :: 0 <= k < |executed| ==> executed[k] in order[..done])
    && forall q :: 0 <= q < done ==> IsCached(cache, order[q])
  }

  /** The executions are in turn, but for the verifier at the end. */
  ghost predicate TurnsTaken(order: seq<string>, executed: seq<string>) {
    || InTurn(order, executed)
    || (executed != [] && executed[|executed| - 1] == VERIFIER && InTurn(order, executed[..|executed| - 1]))
  }

  lemma NextInTurn(order: seq<string>, done: nat, executed: seq<string>, cache: map<string, bool>)
    requires Turns(order, done, executed, cache) && done < |order| && !IsCached(cache, order[done])
    ensures InTurn(order, executed + [order[done]])
    ensures forall x :: x in executed + [order[done]] ==> x in order[..done + 1]
  {
    hide FirstPlace;
    var x, more := order[done], executed + [order[done]];
    FirstPlaceAt(order, x, done);
    forall k | 0 <= k < |executed| ensures executed[k] in order && FirstPlace(order, executed[k]) < done {
      FirstPlaceBefore(order, executed[k], done);
    }
    forall y | y in more ensures y in order[..done + 1] {
      assert y in executed ==> y in order[..done];
      assert order[..done + 1] == order[..done] + [x];
    }
  }

  lemma {:induction false} FirstPlaceAt(order: seq<string>, x: string, i: nat)
    requires i < |order| && order[i] == x && forall q :: 0 <= q < i ==> order[q] != x
    ensures x in order && FirstPlace(order, x) == i
  {
    if i > 0 {
      FirstPlaceAt(order[1..], x, i - 1);
    }
  }

  lemma {:induction false} FirstPlaceBefore(order: seq<string>, x: string, n: nat)
    requires n <= |order| && x in order[..n]
    ensures x in order && FirstPlace(order, x) < n
  {
    if order[0] != x {
      assert order[..n] == [order[0]] + order[1..][..n - 1];
      FirstPlaceBefore(order[1..], x, n - 1);
    }
  }

  // ----- what was executed, and what for -----

  /** The passes among the given ones that are transforms, in the same order and as often. */
  ghost function Transforms(passes: Passes, names: seq<string>): seq<string> {
    if names == [] then []
    else
      var last := names[|names| - 1];
      Transforms(passes, names[..|names| - 1]) + if last in passes && !passes[last].isAnalysis then [last] else []
  }

  /** A log, of which `start` executions took place before the cache was as given. */
  datatype History = History(changes: (string, nat) -> bool, cache: map<string, bool>, start: nat, log: seq<string>)
  {
    /** No execution from `i` on and before `n` changed the program. */
    ghost predicate Unchanged(i: nat, n: nat)
      requires n <= |log|
    {
      forall k :: i <= k < n ==> !changes(log[k], k)
    }

    /** At `n` there is a result of `a` for the program as it is: cached at the start, or computed since. */
    ghost predicate Available(n: nat, a: string)
      requires n <= |log|
    {
      || (a in cache && cache[a] && Unchanged(start, n))
      || exists k: nat :: start <= k < n && log[k] == a && Unchanged(k, n)
    }

    /** All that a pass depends on, directly, is available at `n`. */
    ghost predicate Ready(passes: Passes, n: nat, pass: string)
      requires n <= |log| && pass in passes
    {
      forall k :: 0 <= k < |passes[pass].dependencies| ==> Available(n, passes[pass].dependencies[k])
    }

    /** The execution at `i` is that of an analysis that `pass` is or depends on, and that was not available. */
    ghost predicate Needed(passes: Passes, rank: map<string, nat>, pass: string, i: nat)
      requires Ranked(passes, rank) && pass in passes && i < |log|
    {
      && log[i] in passes && passes[log[i]].isAnalysis && !changes(log[i], i)
      && (log[i] == pass || DependsOn(passes, rank, pass, log[i]))
      && !Available(i, log[i]) && Ready(passes, i, log[i])
    }

    ghost predicate AllNeeded(passes: Passes, rank: map<string, nat>, pass: string, i: nat, n: nat)
      requires Ranked(passes, rank) && pass in passes && n <= |log|
    {
      forall k :: i <= k < n ==> Needed(passes, rank, pass, k)
    }

    /** The executions from `i` on and before `n` are those for a transform, which is the one at `t`. */
    ghost predicate Transformed(passes: Passes, rank: map<string, nat>, pass: string, i: nat, t: nat, n: nat)
      requires Ranked(passes, rank) && pass in passes && i <= t < n <= |log|
    {
      && AllNeeded(passes, rank, pass, i, t) && log[t] == pass && Ready(passes, t, pass)
      && if changes(pass, t) then n == t + 2 && log[t + 1] == VERIFIER else n == t + 1
    }

    /** The executions from `i` on and before `n` are those that a requested pass asks for. */
    ghost predicate Served(passes: Passes, rank: map<string, nat>, pass: string, i: nat, n: nat)
      requires Ranked(passes, rank) && pass in passes && i <= n <= |log|
    {
      if passes[pass].isAnalysis then
        AllNeeded(passes, rank, pass, i, n) && Available(n, pass)
      else
        exists t :: i <= t < n && Transformed(passes, rank, pass, i, t, n)
    }
  }

  /** Exactly the analyses that are available are cached. */
  ghost predicate CacheKnown(passes: Passes, h: History, cache: map<string, bool>) {
    forall a :: IsCached(cache, a) <==> a in passes && passes[a].isAnalysis && h.Available(|h.log|, a)
  }

  /** What running an entry of the stack does to the log and the cache. */
  ghost predicate EntryRun(passes: Passes, changes: (string, nat) -> bool, name: string, log: seq<string>,
      cache: map<string, bool>, laterLog: seq<string>, laterCache: map<string, bool>)
    requires name in passes
  {
    if passes[name].isAnalysis then
      if name in cache && cache[name] then laterLog == log && laterCache == cache
      else !changes(name, |log|) && laterLog == log + [name] && laterCache == cache[name := true]
    else if changes(name, |log|) then
      laterLog == log + [name, VERIFIER] && forall a :: IsCached(laterCache, a) <==> a == VERIFIER
    else
      laterLog == log + [name] && laterCache == cache
  }

  lemma LaterAvailable(h: History, later: History, n: nat, a: string)
    requires n <= |h.log| <= |later.log| && later == h.(log := later.log) && later.log[..|h.log|] == h.log
    ensures h.Available(n, a) <==> later.Available(n, a)
    ensures forall i: nat :: h.Unchanged(i, n) <==> later.Unchanged(i, n)
  {
    assert forall k :: 0 <= k < n ==> h.log[k] == later.log[k];
  }

  lemma LaterNeeded(passes: Passes, rank: map<string, nat>, h: History, later: History, pass: string, i: nat, n: nat)
    requires Ranked(passes, rank) && pass in passes && n <= |h.log| <= |later.log|
    requires later == h.(log := later.log) && later.log[..|h.log|] == h.log
    ensures h.AllNeeded(passes, rank, pass, i, n) ==> later.AllNeeded(passes, rank, pass, i, n)
  {
    if h.AllNeeded(passes, rank, pass, i, n) {
      forall k | i <= k < n ensures later.Needed(passes, rank, pass, k) {
        assert h.Needed(passes, rank, pass, k) && h.log[k] == later.log[k];
        forall a ensures h.Available(k, a) <==> later.Available(k, a) {
          LaterAvailable(h, later, k, a);
        }
      }
    }
  }

  /** An execution that changes nothing leaves available what was, and adds its own result. */
  lemma OneMoreAvailable(h: History, later: History, name: string, a: string)
    requires later == h.(log := h.log + [name]) && !h.changes(name, |h.log|) && h.start <= |h.log|
    ensures later.Available(|later.log|, a) <==> a == name || h.Available(|h.log|, a)
  {
    var n := |h.log|;
    assert forall k :: 0 <= k < n ==> h.log[k] == later.log[k];
    forall i: nat ensures i <= n ==> (later.Unchanged(i, n + 1) <==> h.Unchanged(i, n)) {
    }
    assert later.log[n] == name && later.Unchanged(n, n + 1);
  }

  /** After an execution that changes the program, only what is executed next is available. */
  lemma OnlyNextAvailable(h: History, later: History, name: string, next: string, a: string)
    requires later == h.(log := h.log + [name, next]) && h.start <= |h.log|
    requires h.changes(name, |h.log|) && !h.changes(next, |h.log| + 1)
    ensures later.Available(|later.log|, a) <==> a == next
  {
    var n := |h.log|;
    assert later.log[n] == name && later.log[n + 1] == next;
    var end := |later.log|;
    assert forall i: nat :: i <= n ==> !later.Unchanged(i, end);
    assert later.Unchanged(n + 1, end);
  }

  /** Running an entry keeps the cache what is available. */
  lemma EntryCache(passes: Passes, name: string, h: History, cache: map<string, bool>, later: History,
      laterCache: map<string, bool>)
    requires name in passes && later == h.(log := later.log)
    requires EntryRun(passes, h.changes, name, h.log, cache, later.log, laterCache)
    requires h.start <= |h.log| && CacheKnown(passes, h, cache)
    requires VERIFIER in passes && passes[VERIFIER].isAnalysis && forall n :: !h.changes(VERIFIER, n)
    ensures CacheKnown(passes, later, laterCache)
  {
    var n := |h.log|;
    forall a ensures IsCached(laterCache, a) <==>
      a in passes && passes[a].isAnalysis && later.Available(|later.log|, a)
    {
      assert IsCached(cache, a) <==> a in passes && passes[a].isAnalysis && h.Available(n, a);
      if !passes[name].isAnalysis && h.changes(name, n) {
        OnlyNextAvailable(h, later, name, VERIFIER, a);
      } else if later.log == h.log + [name] {
        OneMoreAvailable(h, later, name, a);
      } else {
        assert later == h;
      }
    }
  }

  /** Nothing was executed yet: what is cached is available. */
  lemma NothingExecuted(passes: Passes, h: History)
    requires h.start == |h.log| && forall a :: IsCached(h.cache, a) ==> a in passes && passes[a].isAnalysis
    ensures CacheKnown(passes, h, h.cache)
  {
  }

  /** An entry of the stack for `pass`, run while all before it was needed for `pass`. */
  lemma EntryServes(passes: Passes, rank: map<string, nat>, name: string, h: History, cache: map<string, bool>,
      later: History, laterCache: map<string, bool>, pass: string, from: nat)
    requires Ranked(passes, rank) && name in passes && later == h.(log := later.log)
    requires EntryRun(passes, h.changes, name, h.log, cache, later.log, laterCache)
    requires h.start <= |h.log| && CacheKnown(passes, h, cache) && CacheKnown(passes, later, laterCache)
    requires pass in passes && (name == pass || (passes[name].isAnalysis && DependsOn(passes, rank, pass, name)))
    requires forall k :: 0 <= k < |passes[name].dependencies| ==> IsCached(cache, passes[name].dependencies[k])
    requires from <= |h.log| && h.AllNeeded(passes, rank, pass, from, |h.log|)
    requires forall n :: !h.changes(VERIFIER, n)
    ensures |h.log| <= |later.log|
    ensures passes[name].isAnalysis ==> later.AllNeeded(passes, rank, pass, from, |later.log|)
    ensures name == pass ==> later.Served(passes, rank, pass, from, |later.log|)
    ensures (exists i: nat :: from <= i < |later.log| && later.changes(later.log[i], i)) <==>
              !passes[name].isAnalysis && h.changes(name, |h.log|)
  {
    var n := |h.log|;
    assert later.log[..n] == h.log;
    LaterNeeded(passes, rank, h, later, pass, from, n);
    forall k | from <= k < n ensures !later.changes(later.log[k], k) {
      assert later.Needed(passes, rank, pass, k);
    }
    forall a ensures h.Available(n, a) <==> later.Available(n, a) {
      LaterAvailable(h, later, n, a);
    }
    assert later.Ready(passes, n, name);
    if passes[name].isAnalysis {
      if !IsCached(cache, name) {
        assert later.log[n] == name;
        assert later.Needed(passes, rank, pass, n);
      }
    } else {
      assert later.log[n] == name;
      assert later.Transformed(passes, rank, pass, from, n, |later.log|);
    }
  }

  /** What is left of the stack is what is still to come. */
  ghost predicate Remaining(order: seq<string>, work: seq<string>) {
    |work| <= |order| && Backwards(work) == order[|order| - |work|..]
  }

  lemma RemainingNext(order: seq<string>, work: seq<string>)
    requires Remaining(order, work) && work != []
    ensures order[|order| - |work|] == work[|work| - 1] && Remaining(order, work[..|work| - 1])
  {
    var done := |order| - |work|;
    assert Backwards(work) == [work[|work| - 1]] + Backwards(work[..|work| - 1]);
    assert order[done..] == [order[done]] + order[done + 1..];
  }

  lemma CachedAnalyses(passes: Passes, h: History, cache: map<string, bool>)
    requires CacheKnown(passes, h, cache)
    ensures forall a :: IsCached(cache, a) ==> a in passes && passes[a].isAnalysis
  {
  }

  /** Running the next entry. */
  lemma EntryTurn(passes: Passes, changes: (string, nat) -> bool, log: seq<string>, cache: map<string, bool>,
      laterLog: seq<string>, laterCache: map<string, bool>, order: seq<string>, done: nat, from: nat)
    requires done < |order| && order[done] in passes && from <= |log|
    requires EntryRun(passes, changes, order[done], log, cache, laterLog, laterCache)
    requires Turns(order, done, log[from..], cache)
    requires forall a :: IsCached(cache, a) ==> a in passes && passes[a].isAnalysis
    ensures passes[order[done]].isAnalysis ==> Turns(order, done + 1, laterLog[from..], laterCache)
    ensures |log| <= |laterLog| && TurnsTaken(order, laterLog[from..])
  {
    hide InTurn;
    var name, executed := order[done], log[from..];
    if IsCached(cache, name) {
      forall k | 0 <= k < |executed| ensures executed[k] in order[..done + 1] {
        assert executed[k] in order[..done];
      }
    } else {
      NextInTurn(order, done, executed, cache);
      assert (log + [name])[from..] == executed + [name];
      if laterLog != log + [name] {
        assert laterLog[from..] == executed + [name] + [VERIFIER];
        assert laterLog[from..][..|laterLog[from..]| - 1] == executed + [name];
      }
    }
  }

  /** The log after the start in consecutive parts, one for each requested pass. */
  ghost predicate Cut(passes: Passes, rank: map<string, nat>, h: History, names: seq<string>, cuts: seq<nat>)
    requires Ranked(passes, rank)
  {
    && |cuts| == |names| + 1 && cuts[0] == h.start && cuts[|names|] == |h.log|
    && forall j :: 0 <= j < |names| ==> Part(passes, rank, h, names, cuts, j)
  }

  ghost predicate Part(passes: Passes, rank: map<string, nat>, h: History, names: seq<string>, cuts: seq<nat>, j: nat)
    requires Ranked(passes, rank) && j < |names| < |cuts|
  {
    && names[j] in passes && cuts[j] <= cuts[j + 1] <= |h.log|
    && h.Served(passes, rank, names[j], cuts[j], cuts[j + 1])
    && TurnsTaken(RunOrder(passes, rank, names[j]), h.log[cuts[j]..cuts[j + 1]])
  }

  lemma LaterServed(passes: Passes, rank: map<string, nat>, h: History, later: History, pass: string, i: nat, n: nat)
    requires Ranked(passes, rank) && pass in passes && i <= n <= |h.log| <= |later.log|
    requires later == h.(log := later.log) && later.log[..|h.log|] == h.log
    requires h.Served(passes, rank, pass, i, n)
    ensures later.Served(passes, rank, pass, i, n)
  {
    if passes[pass].isAnalysis {
      LaterNeeded(passes, rank, h, later, pass, i, n);
      LaterAvailable(h, later, n, pass);
    } else {
      var t :| i <= t < n && h.Transformed(passes, rank, pass, i, t, n);
      LaterNeeded(passes, rank, h, later, pass, i, t);
      forall a ensures h.Available(t, a) <==> later.Available(t, a) {
        LaterAvailable(h, later, t, a);
      }
      assert forall k :: 0 <= k < n ==> h.log[k] == later.log[k];
      assert later.Transformed(passes, rank, pass, i, t, n);
    }
  }

  lemma {:induction false} TransformsAppend(passes: Passes, a: seq<string>, b: seq<string>)
    ensures Transforms(passes, a + b) == Transforms(passes, a) + Transforms(passes, b)
    decreases |b|
  {
    if b == [] {
      assert a + b == a;
    } else {
      TransformsAppend(passes, a, b[..|b| - 1]);
      assert (a + b)[..|a + b| - 1] == a + b[..|b| - 1];
    }
  }

  lemma {:induction false} NoTransforms(passes: Passes, s: seq<string>)
    requires forall k :: 0 <= k < |s| ==> s[k] in passes && passes[s[k]].isAnalysis
    ensures Transforms(passes, s) == []
    decreases |s|
  {
    if s != [] {
      NoTransforms(passes, s[..|s| - 1]);
    }
  }

  /** A transform among analyses. */
  lemma OneTransform(passes: Passes, a: seq<string>, x: string, b: seq<string>)
    requires forall k :: 0 <= k < |a| ==> a[k] in passes && passes[a[k]].isAnalysis
    requires forall k :: 0 <= k < |b| ==> b[k] in passes && passes[b[k]].isAnalysis
    ensures Transforms(passes, a + ([x] + b)) == Transforms(passes, [x])
  {
    hide Transforms;
    NoTransforms(passes, a);
    NoTransforms(passes, b);
    TransformsAppend(passes, [x], b);
    TransformsAppend(passes, a, [x] + b);
  }

  /** The transforms executed for a pass: itself, once, or none if it is an analysis. */
  lemma ServedTransforms(passes: Passes, rank: map<string, nat>, h: History, pass: string, i: nat, n: nat)
    requires Ranked(passes, rank) && pass in passes && i <= n <= |h.log| && h.Served(passes, rank, pass, i, n)
    requires VERIFIER in passes && passes[VERIFIER].isAnalysis
    ensures Transforms(passes, h.log[i..n]) == Transforms(passes, [pass])
  {
    hide History.Ready, History.Available, DependsOn, Transforms;
    var s := h.log[i..n];
    if passes[pass].isAnalysis {
      forall k | 0 <= k < |s| ensures s[k] in passes && passes[s[k]].isAnalysis {
        assert h.Needed(passes, rank, pass, i + k);
      }
      NoTransforms(passes, s);
      NoTransforms(passes, [pass]);
    } else {
      var t :| i <= t < n && h.Transformed(passes, rank, pass, i, t, n);
      var a, b := h.log[i..t], h.log[t + 1..n];
      forall k | 0 <= k < |a| ensures a[k] in passes && passes[a[k]].isAnalysis {
        assert h.Needed(passes, rank, pass, i + k);
      }
      OneTransform(passes, a, pass, b);
      assert s == a + ([pass] + b);
    }
  }

  lemma SamePart(log: seq<string>, later: seq<string>, i: nat, n: nat)
    requires i <= n <= |log| <= |later| && later[..|log|] == log
    ensures later[i..n] == log[i..n]
  {
    assert forall k :: 0 <= k < |log| ==> later[k] == later[..|log|][k];
  }

  /** The executions for `pass` from `from` on, while `work` is left of the stack. */
  ghost predicate Serving(passes: Passes, rank: map<string, nat>, h: History, pass: string, from: nat,
      work: seq<string>, cache: map<string, bool>)
    requires Ranked(passes, rank) && pass in passes
  {
    var order := RunOrder(passes, rank, pass);
    && h.start <= from <= |h.log| && CacheKnown(passes, h, cache) && Remaining(order, work)
    && if work == [] then
         h.Served(passes, rank, pass, from, |h.log|) && TurnsTaken(order, h.log[from..])
       else
         && Dependencies(passes, rank, pass, work, 1) && work[0] == pass
         && h.AllNeeded(passes, rank, pass, from, |h.log|)
         && Turns(order, |order| - |work|, h.log[from..], cache)
  }

  lemma ServingStart(passes: Passes, rank: map<string, nat>, h: History, pass: string, work: seq<string>,
      cache: map<string, bool>)
    requires Ranked(passes, rank) && pass in passes && work != [] && work[0] == pass
    requires Dependencies(passes, rank, pass, work, 1) && Backwards(work[0..]) == RunOrder(passes, rank, pass)
    requires h.start <= |h.log| && CacheKnown(passes, h, cache)
    ensures Serving(passes, rank, h, pass, |h.log|, work, cache)
  {
    hide RunOrder, Dependencies, CacheKnown, Backwards;
    assert work[0..] == work;
  }

  lemma ServingNext(passes: Passes, rank: map<string, nat>, h: History, later: History, pass: string, from: nat,
      work: seq<string>, cache: map<string, bool>, laterCache: map<string, bool>)
    requires Ranked(passes, rank) && pass in passes && work != []
    requires Serving(passes, rank, h, pass, from, work, cache)
    requires VERIFIER in passes && passes[VERIFIER].isAnalysis && forall n :: !h.changes(VERIFIER, n)
    requires var name := work[|work| - 1];
      && name in passes && later == h.(log := later.log)
      && EntryRun(passes, h.changes, name, h.log, cache, later.log, laterCache)
      && forall k :: 0 <= k < |passes[name].dependencies| ==> IsCached(cache, passes[name].dependencies[k])
    ensures Serving(passes, rank, later, pass, from, work[..|work| - 1], laterCache)
    ensures (exists i: nat :: from <= i < |later.log| && later.changes(later.log[i], i)) <==>
              !passes[work[|work| - 1]].isAnalysis && h.changes(work[|work| - 1], |h.log|)
  {
    hide DependsOn, CacheKnown, RunOrder, Turns, TurnsTaken, Remaining, EntryRun, History.Served, History.AllNeeded;
    var name, order := work[|work| - 1], RunOrder(passes, rank, pass);
    assert |work| <= |order| && forall a :: IsCached(cache, a) ==> a in passes && passes[a].isAnalysis by {
      CachedAnalyses(passes, h, cache);
      RemainingShort(order, work);
    }
    RemainingNext(order, work);
    EntryCache(passes, name, h, cache, later, laterCache);
    EntryServes(passes, rank, name, h, cache, later, laterCache, pass, from);
    EntryTurn(passes, h.changes, h.log, cache, later.log, laterCache, order, |order| - |work|, from);
  }

  lemma ServingEnd(passes: Passes, rank: map<string, nat>, h: History, pass: string, from: nat,
      cache: map<string, bool>)
    requires Ranked(passes, rank) && pass in passes && Serving(passes, rank, h, pass, from, [], cache)
    ensures from <= |h.log| && h.Served(passes, rank, pass, from, |h.log|) && CacheKnown(passes, h, cache)
    ensures TurnsTaken(RunOrder(passes, rank, pass), h.log[from..])
  {
  }

  lemma RemainingShort(order: seq<string>, work: seq<string>)
    requires Remaining(order, work)
    ensures |work| <= |order|
  {
  }

  /** What one more requested pass adds to the log. */
  lemma OneMorePart(passes: Passes, rank: map<string, nat>, h: History, later: History, names: seq<string>, i: nat,
      cuts: seq<nat>)
    requires Ranked(passes, rank) && i < |names| && Cut(passes, rank, h, names[..i], cuts)
    requires later == h.(log := later.log) && |h.log| <= |later.log| && later.log[..|h.log|] == h.log
    requires names[i] in passes && later.Served(passes, rank, names[i], |h.log|, |later.log|)
    requires TurnsTaken(RunOrder(passes, rank, names[i]), later.log[|h.log|..])
    ensures Cut(passes, rank, later, names[..i + 1], cuts + [|later.log|])
  {
    hide History.Served, TurnsTaken, RunOrder;
    var front, names1, cuts1 := names[..i], names[..i + 1], cuts + [|later.log|];
    forall j | 0 <= j < |names1| ensures Part(passes, rank, later, names1, cuts1, j) {
      if j < i {
        assert Part(passes, rank, h, front, cuts, j);
        LaterServed(passes, rank, h, later, names[j], cuts[j], cuts[j + 1]);
        SamePart(h.log, later.log, cuts[j], cuts[j + 1]);
      } else {
        assert later.log[|h.log|..] == later.log[|h.log|..|later.log|];
      }
    }
  }

  lemma OneMoreRequested(passes: Passes, rank: map<string, nat>, h: History, later: History, names: seq<string>,
      i: nat)
    requires Ranked(passes, rank) && i < |names| && h.start <= |h.log|
    requires later == h.(log := later.log) && |h.log| <= |later.log| && later.log[..|h.log|] == h.log
    requires names[i] in passes && later.Served(passes, rank, names[i], |h.log|, |later.log|)
    requires VERIFIER in passes && passes[VERIFIER].isAnalysis
    requires Transforms(passes, h.log[h.start..]) == Transforms(passes, names[..i])
    ensures Transforms(passes, later.log[h.start..]) == Transforms(passes, names[..i + 1])
  {
    hide History.Served, Transforms;
    var added := later.log[|h.log|..];
    assert added == later.log[|h.log|..|later.log|];
    ServedTransforms(passes, rank, later, names[i], |h.log|, |later.log|);
    TransformsAppend(passes, h.log[h.start..], added);
    TransformsAppend(passes, names[..i], [names[i]]);
    assert later.log[h.start..] == h.log[h.start..] + added;
    assert names[..i + 1] == names[..i] + [names[i]];
  }

  class PassManager {
    const passMap: Passes
    const changes: (string, nat) -> bool  // whether the execution of a pass at a place in the log changes the program
    ghost const rank: map<string, nat>
    var analysisPasses: map<string, bool>
    var passLog: seq<string>
    ghost var version: nat
    ghost var results: map<string, nat>
    ghost var executions: seq<Execution>

    constructor (passMap: Passes, changes: (string, nat) -> bool, ghost rank: map<string, nat>)
      requires Ranked(passMap, rank)
      requires VERIFIER in passMap && passMap[VERIFIER] == Pass(true, []) && forall n :: !changes(VERIFIER, n)
      ensures Valid() && this.passMap == passMap && this.changes == changes
      ensures analysisPasses == map[] && passLog == [] && executions == []
    {
      this.passMap, this.changes, this.rank := passMap, changes, rank;
      analysisPasses, passLog := map[], [];
      version, results, executions := 0, map[], [];
    }

    ghost predicate Valid()
      reads this
    {
      && Ranked(passMap, rank)
      && VERIFIER in passMap && passMap[VERIFIER] == Pass(true, []) && (forall n :: !changes(VERIFIER, n))
      && Current(passMap, analysisPasses, results, version)
      && |executions| == |passLog|
      && forall i :: 0 <= i < |executions| ==>
        executions[i].name == passLog[i] && WellFounded(passMap, rank, executions[i])
    }

    /** Pushes a pass and then its dependencies, the first of them last. */
    method PushAllDependencies(pass: string, work: seq<string>) returns (ok: bool, more: seq<string>)
      requires Ranked(passMap, rank)
      ensures ok <==> Loadable(passMap, rank, pass)
      ensures ok ==> pass in passMap && |more| > |work| && more[..|work|] == work && more[|work|] == pass
      ensures ok ==> Dependencies(passMap, rank, pass, more, |work| + 1)
      ensures ok ==> Supported(passMap, map[], more, |work|)
      ensures ok ==> Backwards(more[|work|..]) == RunOrder(passMap, rank, pass)
      decreases if pass in passMap then rank[pass] + 1 else 0
    {
      hide Stacked, RunOrder, DependencyOrder, Backwards, DependsOn;
      more := work;
      if pass !in passMap {
        return false, more;
      }
      StackedEnds(passMap, rank, pass);
      more := work + [pass];
      assert more[|work|..] == [pass];
      var dependencies := passMap[pass].dependencies;
      var k := |dependencies|;
      while k > 0
        invariant 0 <= k <= |dependencies|
        invariant |more| > |work| && more[..|work|] == work && more[|work|] == pass
        invariant Dependencies(passMap, rank, pass, more, |work| + 1)
        invariant Supported(passMap, map[], more, |work| + 1)
        invariant Stacked(passMap, rank, pass, k, more[|work|..])
        invariant forall j :: k <= j < |dependencies| ==> Above(more, |work| + 1, dependencies[j])
        invariant forall j :: k <= j < |dependencies| ==> LoadableAnalysis(passMap, rank, pass, dependencies[j])
      {
        k := k - 1;
        var d := dependencies[k];
        assert Loadable(passMap, rank, pass) ==> LoadableAnalysis(passMap, rank, pass, d);
        if d !in passMap || !passMap[d].isAnalysis {
          return false, more;
        }
        ghost var before := more;
        ok, more := PushAllDependencies(d, more);
        if !ok {
          return;
        }
        PushedOn(passMap, before, more, |work| + 1);
        DependenciesOn(passMap, rank, pass, k, before, more, |work| + 1);
        StackedMore(passMap, rank, pass, k, before, more, |work|);
      }
      assert Supported(passMap, map[], more, |work|);
      return true, more;
    }

    /** Executes a pass. */
    method RunPass(name: string) returns (modified: bool)
      requires name in passMap && Ranked(passMap, rank)
      modifies this`passLog, this`version, this`results, this`executions
      ensures modified == changes(name, |old(passLog)|)
      ensures passLog == old(passLog) + [name]
      ensures executions == old(executions) + [Execution(name, old(version), old(results))]
      ensures version == old(version) + if modified then 1 else 0
      ensures results == old(results)[name := old(version)]
    {
      modified := changes(name, |passLog|);
      executions := executions + [Execution(name, version, results)];
      results := results[name := version];
      version := version + if modified then 1 else 0;
      passLog := passLog + [name];
    }

    /** Marks every cached analysis as stale. */
    method InvalidateAll()
      modifies this`analysisPasses
      ensures forall a :: !IsCached(analysisPasses, a)
    {
      analysisPasses := map a | a in analysisPasses :: false;
    }

    /** All that a pass depends on, directly, is cached. */
    ghost predicate Prepared(name: string)
      reads this`analysisPasses
      requires name in passMap
    {
      forall i :: 0 <= i < |passMap[name].dependencies| ==> IsCached(analysisPasses, passMap[name].dependencies[i])
    }

    /** Runs an analysis that is not cached, and caches it; an analysis must not change the program. */
    method RunAnalysis(name: string) returns (ok: bool)
      requires Valid() && name in passMap && passMap[name].isAnalysis && Prepared(name)
      modifies this`analysisPasses, this`passLog, this`version, this`results, this`executions
      ensures ok <==> !changes(name, |old(passLog)|)
      ensures passLog == old(passLog) + [name]
      ensures ok ==> Valid() && version == old(version)
      ensures ok ==> analysisPasses == old(analysisPasses)[name := true]
      ensures old(executions) <= executions
    {
      ExecutionReady(name);
      var modified := RunPass(name);
      if modified {
        return false;
      }
      analysisPasses := analysisPasses[name := true];
      return true;
    }

    /** Runs a transform; if it changed the program, the cache is dropped and the verifier run. */
    method RunTransform(name: string) returns (modified: bool)
      requires Valid() && name in passMap && !passMap[name].isAnalysis && Prepared(name)
      modifies this`analysisPasses, this`passLog, this`version, this`results, this`executions
      ensures Valid() && old(executions) < executions
      ensures modified == changes(name, |old(passLog)|)
      ensures passLog == old(passLog) + [name] + if modified then [VERIFIER] else []
      ensures version == old(version) + if modified then 1 else 0
      ensures modified ==> forall a :: IsCached(analysisPasses, a) <==> a == VERIFIER
      ensures !modified ==> analysisPasses == old(analysisPasses)
    {
      hide DependsOn, Ranked, WellFounded;
      ExecutionReady(name);
      assert !IsCached(analysisPasses, name);
      modified := RunPass(name);
      if modified {
        InvalidateAll();
        VerifierReady();
        var again := RunPass(VERIFIER);
        ghost var dropped := analysisPasses;
        analysisPasses := analysisPasses[VERIFIER := true];
        forall a ensures IsCached(analysisPasses, a) <==> a == VERIFIER {
          assert !IsCached(dropped, a);
        }
      }
    }

    /** No analysis among the executions from `from` on has changed the program. */
    ghost predicate AnalysesKept(from: nat)
      reads this`passLog
    {
      forall i :: from <= i < |passLog| && passLog[i] in passMap && passMap[passLog[i]].isAnalysis ==>
        !changes(passLog[i], i)
    }

    /** What the stack of the passes to run keeps true while it is worked off. */
    ghost predicate Workable(work: seq<string>)
      reads this`analysisPasses
    {
      Loaded(passMap, work) && Supported(passMap, analysisPasses, work, 0)
    }

    /** The log, with what was cached when it had `start` entries. */
    ghost function Since(cache: map<string, bool>, start: nat): History
      reads this`passLog
    {
      History(changes, cache, start, passLog)
    }

    /**
     Runs passes in order, each after its dependencies. Every execution, also of the
     verifier, finds results computed on the current program for all it depends on.
     The executions between two of the `cuts` are those that one requested pass asks for.
    */
    method Run(passes: seq<string>) returns (ok: bool, ret: bool, ghost cuts: seq<nat>)
      requires Valid()
      modifies this`analysisPasses, this`passLog, this`version, this`results, this`executions
      ensures Ranked(passMap, rank) && old(passLog) <= passLog
      ensures var loadable := forall i :: 0 <= i < |passes| ==> Loadable(passMap, rank, passes[i]);
        ok <==> loadable && AnalysesKept(|old(passLog)|)
      ensures ok ==> Valid() && old(executions) <= executions
      ensures ok ==> (ret <==> version > old(version))
      ensures ok ==> (ret <==> exists i: nat :: |old(passLog)| <= i < |passLog| && changes(passLog[i], i))
      ensures ok ==> Cut(passMap, rank, Since(old(analysisPasses), |old(passLog)|), passes, cuts)
      ensures ok ==> CacheKnown(passMap, Since(old(analysisPasses), |old(passLog)|), analysisPasses)
      ensures ok ==> Transforms(passMap, passLog[|old(passLog)|..]) == Transforms(passMap, passes)
    {
      hide DependsOn, Loadable, Current, CacheKnown, Cut, Transforms, TurnsTaken, RunOrder, History.Served;
      ghost var cache, start := analysisPasses, |passLog|;
      ret, cuts := false, [start];
      NothingYet(cache, start);
      var i := 0;
      while i < |passes|
        invariant 0 <= i <= |passes| && Valid() && old(executions) <= executions && version >= old(version)
        invariant ret <==> version > old(version)
        invariant old(passLog) <= passLog && AnalysesKept(start)
        invariant forall j :: 0 <= j < i ==> Loadable(passMap, rank, passes[j])
        invariant ret <==> exists k: nat :: start <= k < |passLog| && changes(passLog[k], k)
        invariant Cut(passMap, rank, Since(cache, start), passes[..i], cuts)
        invariant CacheKnown(passMap, Since(cache, start), analysisPasses)
        invariant Transforms(passMap, passLog[start..]) == Transforms(passMap, passes[..i])
      {
        ghost var before := Since(cache, start);
        var modified;
        ok, modified := RunOne(passes[i], cache, start);
        if !ok {
          return;
        }
        ret := ret || modified;
        OneMorePart(passMap, rank, before, Since(cache, start), passes, i, cuts);
        OneMoreRequested(passMap, rank, before, Since(cache, start), passes, i);
        cuts := cuts + [|passLog|];
        i := i + 1;
      }
      assert passes[..|passes|] == passes;
      return true, ret, cuts;
    }

    method RunOne(pass: string, ghost cache: map<string, bool>, ghost start: nat) returns (ok: bool, ret: bool)
      requires Valid() && start <= |passLog| && CacheKnown(passMap, Since(cache, start), analysisPasses)
      modifies this`analysisPasses, this`passLog, this`version, this`results, this`executions
      ensures Ranked(passMap, rank) && old(passLog) <= passLog
      ensures ok <==> Loadable(passMap, rank, pass) && AnalysesKept(|old(passLog)|)
      ensures ok ==> Valid() && old(executions) <= executions
      ensures ok ==> version == old(version) + if ret then 1 else 0
      ensures ok ==> pass in passMap && Since(cache, start).Served(passMap, rank, pass, |old(passLog)|, |passLog|)
      ensures ok ==> TurnsTaken(RunOrder(passMap, rank, pass), passLog[|old(passLog)|..])
      ensures ok ==> CacheKnown(passMap, Since(cache, start), analysisPasses)
      ensures ok ==> (ret <==> exists i: nat :: |old(passLog)| <= i < |passLog| && changes(passLog[i], i))
    {
      hide DependsOn, Loadable, LoadableAnalysis, Current, CacheKnown, History.Served, RunOrder, TurnsTaken, Backwards,
        EntryRun, Serving;
      ret := false;
      var work: seq<string>;
      ok, work := PushAllDependencies(pass, []);
      if !ok {
        return;
      }
      ghost var from := |passLog|;
      ServingStart(passMap, rank, Since(cache, start), pass, work, analysisPasses);
      while work != []
        invariant Valid() && old(executions) <= executions && Workable(work)
        invariant old(passLog) <= passLog && AnalysesKept(from)
        invariant Serving(passMap, rank, Since(cache, start), pass, from, work, analysisPasses)
        invariant work != [] ==> work[0] == pass && !ret && version == old(version)
        invariant work == [] ==> version == old(version) + if ret then 1 else 0
        invariant work == [] ==> (ret <==> exists i: nat :: from <= i < |passLog| && changes(passLog[i], i))
        decreases |work|
      {
        ghost var before, stack, cached := Since(cache, start), work, analysisPasses;
        var pname := work[|work| - 1];
        work := work[..|work| - 1];
        var modified;
        ok, modified := RunEntry(pname);
        if !ok {
          return;
        }
        ServingNext(passMap, rank, before, Since(cache, start), pass, from, stack, cached, analysisPasses);
        ret := ret || modified;
      }
      ServingEnd(passMap, rank, Since(cache, start), pass, from, analysisPasses);
      return true, ret;
    }

    /** Runs an entry of the stack; a cached analysis is not run again. */
    method RunEntry(pname: string) returns (ok: bool, modified: bool)
      requires Valid() && pname in passMap && Prepared(pname)
      modifies this`analysisPasses, this`passLog, this`version, this`results, this`executions
      ensures Ranked(passMap, rank) && old(passLog) <= passLog && old(executions) <= executions
      ensures ok <==> AnalysesKept(|old(passLog)|)
      ensures ok ==> Valid() && version == old(version) + if modified then 1 else 0
      ensures ok ==> EntryRun(passMap, changes, pname, old(passLog), old(analysisPasses), passLog, analysisPasses)
      ensures ok ==> (modified <==> !passMap[pname].isAnalysis && changes(pname, |old(passLog)|))
      ensures ok && passMap[pname].isAnalysis ==> IsCached(analysisPasses, pname)
      ensures ok && passMap[pname].isAnalysis ==>
        forall a :: IsCached(old(analysisPasses), a) ==> IsCached(analysisPasses, a)
    {
      var anal := passMap[pname].isAnalysis;
      if anal && IsCached(analysisPasses, pname) {
        return true, false;
      } else if anal {
        ok := RunAnalysis(pname);
        assert passLog[|old(passLog)|] == pname;
        return ok, false;
      } else {
        modified := RunTransform(pname);
        return true, modified;
      }
    }

    lemma NothingYet(cache: map<string, bool>, start: nat)
      requires Valid() && cache == analysisPasses && start == |passLog|
      ensures CacheKnown(passMap, Since(cache, start), analysisPasses)
      ensures Cut(passMap, rank, Since(cache, start), [], [start])
      ensures Transforms(passMap, passLog[start..]) == Transforms(passMap, [])
    {
      NothingExecuted(passMap, Since(cache, start));
    }

    lemma ExecutionReady(name: string)
      requires Valid() && name in passMap && Prepared(name)
      ensures WellFounded(passMap, rank, Execution(name, version, results))
    {
      forall d | DependsOn(passMap, rank, name, d) ensures d in results && results[d] == version {
        AllDependenciesCurrent(passMap, rank, analysisPasses, results, version, name, d);
      }
    }

    /** The verifier depends on nothing. */
    lemma VerifierReady()
      requires Ranked(passMap, rank) && VERIFIER in passMap && passMap[VERIFIER].dependencies == []
      ensures WellFounded(passMap, rank, Execution(VERIFIER, version, results))
    {
    }
  }

  /** Pushing further entries keeps what is supported. */
  lemma PushedOn(passes: Passes, before: seq<string>, after: seq<string>, from: nat)
    requires from <= |before| < |after| && after[..|before|] == before
    requires Supported(passes, map[], before, from) && Supported(passes, map[], after, |before|)
    ensures Supported(passes, map[], after, from)
    ensures forall d :: Above(before, from, d) ==> Above(after, from, d)
    ensures Above(after, from, after[|before|])
  {
    forall i | 0 <= i < |before| ensures after[i] == before[i] {
      assert after[..|before|][i] == before[i];
    }
    forall i: nat, d | Above(before, i, d) ensures Above(after, i, d) {
      var j :| i <= j < |before| && before[j] == d;
      assert after[j] == d;
    }
  }

  /** What a dependency depends on, the pass depends on. */
  lemma DependenciesOn(passes: Passes, rank: map<string, nat>, pass: string, k: nat, before: seq<string>,
      after: seq<string>, from: nat)
    requires Ranked(passes, rank) && pass in passes && k < |passes[pass].dependencies|
    requires var d := passes[pass].dependencies[k];
      && d in passes && passes[d].isAnalysis && |before| < |after| && after[|before|] == d
      && Dependencies(passes, rank, d, after, |before| + 1)
    requires after[..|before|] == before && Dependencies(passes, rank, pass, before, from)
    ensures Dependencies(passes, rank, pass, after, from)
  {
    forall i | from <= i < |after|
      ensures after[i] in passes && passes[after[i]].isAnalysis && DependsOn(passes, rank, pass, after[i])
    {
      if i < |before| {
        assert after[i] == after[..|before|][i] == before[i];
      }
    }
  }
}
