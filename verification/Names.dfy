/**
 The order in which a map keyed by names is walked: character by character, a prefix
 before what it is a prefix of.
*/
module Names {
  import Collections

  predicate Before(s: string, t: string) {
    t != [] && (s == [] || s[0] < t[0] || (s[0] == t[0] && Before(s[1..], t[1..])))
  }

  /** The first place in which two names differ: where the one ends, or has the smaller character. */
  predicate DifferAt(s: string, t: string, k: nat) {
    k <= |s| && k < |t| && s[..k] == t[..k] && (k == |s| || s[k] < t[k])
  }

  lemma {:induction false} FirstDifference(s: string, t: string)
    ensures Before(s, t) <==> exists k: nat :: DifferAt(s, t, k)
  {
    forall k: nat | 0 < k && DifferAt(s, t, k) ensures s != [] && s[0] == t[0] {
      assert s[..k][0] == t[..k][0];
    }
    if s != [] && t != [] && s[0] == t[0] {
      var s1, t1 := s[1..], t[1..];
      FirstDifference(s1, t1);
      if Before(s1, t1) {
        var k: nat :| DifferAt(s1, t1, k);
        assert s[..k + 1] == [s[0]] + s1[..k] && t[..k + 1] == [t[0]] + t1[..k];
        assert DifferAt(s, t, k + 1);
      }
      if k: nat :| DifferAt(s, t, k) {
        assert s1[..k - 1] == s[..k][1..] && t1[..k - 1] == t[..k][1..];
        assert DifferAt(s1, t1, k - 1);
      }
    } else if Before(s, t) {
      assert DifferAt(s, t, 0);
    }
  }

  lemma {:induction false} Trichotomy(s: string, t: string)
    ensures s == t ==> !Before(s, t) && !Before(t, s)
    ensures s != t ==> (Before(s, t) <==> !Before(t, s))
  {
    if s != [] && t != [] && s[0] == t[0] {
      Trichotomy(s[1..], t[1..]);
      assert s == [s[0]] + s[1..] && t == [t[0]] + t[1..];
    }
  }

  lemma {:induction false} Transitive(r: string, s: string, t: string)
    requires Before(r, s) && Before(s, t)
    ensures Before(r, t)
  {
    if r != [] && r[0] == s[0] == t[0] {
      Transitive(r[1..], s[1..], t[1..]);
    }
  }

  /** The first of some names comes before all others. */
  predicate IsFirst(names: set<string>, n: string) {
    n in names && forall m :: m in names ==> m == n || Before(n, m)
  }

  lemma {:induction false} HasFirst(names: set<string>)
    requires names != {}
    ensures exists n :: IsFirst(names, n)
    decreases |names|
  {
    var x := Collections.Pick(names);
    var rest := names - {x};
    if rest == {} {
      assert names == {x};
      assert IsFirst(names, x);
    } else {
      Collections.OneFewer(names, x);
      HasFirst(rest);
      var n :| IsFirst(rest, n);
      Trichotomy(n, x);
      var first := if Before(n, x) then n else x;
      forall m | m in names ensures m == first || Before(first, m) {
        if m in rest && m != n && first == x {
          Transitive(x, n, m);
        }
      }
      assert IsFirst(names, first);
    }
  }

  /** Names in the order of the map, each once. */
  predicate Ascending(names: seq<string>) {
    forall i, j :: 0 <= i < j < |names| ==> Before(names[i], names[j])
  }

  /** All of `names` come before all of `rest`. */
  predicate AllBefore(names: seq<string>, rest: set<string>) {
    forall i, m :: 0 <= i < |names| && m in rest ==> Before(names[i], m)
  }

  lemma AscendingMore(names: seq<string>, rest: set<string>, n: string)
    requires Ascending(names) && AllBefore(names, rest) && IsFirst(rest, n)
    ensures Ascending(names + [n]) && AllBefore(names + [n], rest - {n})
  {
  }

  /** An ascending list is determined by what it lists. */
  lemma {:induction false} AscendingUnique(s: seq<string>, t: seq<string>)
    requires Ascending(s) && Ascending(t)
    requires forall n :: n in s <==> n in t
    ensures s == t
  {
    assert s != [] ==> s[0] in s && s[0] in t;
    assert t != [] ==> t[0] in t && t[0] in s;
    if s != [] && t != [] {
      FirstIsLeast(s, t[0]);
      FirstIsLeast(t, s[0]);
      Trichotomy(s[0], t[0]);
      forall n ensures n in s[1..] <==> n in t[1..] {
        RestOf(s, n);
        RestOf(t, n);
      }
      AscendingUnique(s[1..], t[1..]);
    }
  }

  lemma FirstIsLeast(s: seq<string>, n: string)
    requires Ascending(s) && n in s
    ensures n == s[0] || Before(s[0], n)
  {
  }

  lemma RestOf(s: seq<string>, n: string)
    requires Ascending(s) && s != []
    ensures n in s[1..] <==> n in s && n != s[0]
  {
    Trichotomy(s[0], s[0]);
    if n in s && n != s[0] {
      var i :| 0 <= i < |s| && s[i] == n;
      assert s[1..][i - 1] == n;
    }
    if n in s[1..] {
      var i :| 0 <= i < |s[1..]| && s[1..][i] == n;
      assert s[i + 1] == n;
    }
  }

  // ----- the names in order -----

  ghost function First(names: set<string>): (n: string)
    requires names != {}
    ensures IsFirst(names, n)
  {
    HasFirst(names);
    var n :| IsFirst(names, n);
    n
  }

  /** The names in the order of the map. */
  ghost function Sorted(names: set<string>): (r: seq<string>)
    ensures Ascending(r) && forall n :: n in r <==> n in names
    decreases |names|
  {
    if names == {} then []
    else
      var n := First(names);
      Collections.OneFewer(names, n);
      var rest := Sorted(names - {n});
      SortedStep(names, n, rest);
      [n] + rest
  }

  lemma SortedStep(names: set<string>, n: string, rest: seq<string>)
    requires IsFirst(names, n) && Ascending(rest) && forall m :: m in rest <==> m in names - {n}
    ensures Ascending([n] + rest) && forall m :: m in [n] + rest <==> m in names
  {
    forall j | 0 <= j < |rest| ensures Before(n, rest[j]) {
      assert rest[j] in rest;
    }
  }

  /** Taking the first name off. */
  lemma SortedFirst(names: set<string>, n: string)
    requires IsFirst(names, n)
    ensures Sorted(names) == [n] + Sorted(names - {n})
  {
    SortedStep(names, n, Sorted(names - {n}));
    AscendingUnique(Sorted(names), [n] + Sorted(names - {n}));
  }

  /** The names without `n`. */
  function Omit(names: seq<string>, n: string): seq<string> {
    if names == [] then []
    else if names[0] == n then Omit(names[1..], n)
    else [names[0]] + Omit(names[1..], n)
  }

  lemma {:induction false} OmitIn(names: seq<string>, n: string)
    ensures forall m :: m in Omit(names, n) <==> m in names && m != n
  {
    if names != [] {
      OmitIn(names[1..], n);
      assert names == [names[0]] + names[1..];
    }
  }

  lemma {:induction false} OmitAbsent(names: seq<string>, n: string)
    requires n !in names
    ensures Omit(names, n) == names
  {
    if names != [] {
      assert names[0] in names && forall m :: m in names[1..] ==> m in names;
      OmitAbsent(names[1..], n);
    }
  }

  lemma {:induction false} OmitConcat(names: seq<string>, more: seq<string>, n: string)
    ensures Omit(names + more, n) == Omit(names, n) + Omit(more, n)
  {
    if names == [] {
      assert names + more == more;
    } else {
      OmitConcat(names[1..], more, n);
      var all, rest, tail := names + more, Omit(names[1..], n), Omit(more, n);
      assert all[0] == names[0] && all[1..] == names[1..] + more;
      assert [names[0]] + (rest + tail) == [names[0]] + rest + tail;
    }
  }

  /** Where a name is there once, leaving it out is cutting at its place. */
  lemma {:induction false} OmitAt(names: seq<string>, k: nat)
    requires k < |names| && forall i :: 0 <= i < |names| && i != k ==> names[i] != names[k]
    ensures Omit(names, names[k]) == names[..k] + names[k + 1..]
  {
    if k == 0 {
      OmitAbsent(names[1..], names[0]);
    } else {
      OmitAt(names[1..], k - 1);
      assert names[..k] == [names[0]] + names[1..][..k - 1];
    }
  }

  lemma {:induction false} OmitAscending(names: seq<string>, n: string)
    requires Ascending(names)
    ensures Ascending(Omit(names, n))
  {
    if names != [] {
      var rest := Omit(names[1..], n);
      OmitAscending(names[1..], n);
      OmitIn(names[1..], n);
      forall j | 0 <= j < |rest| ensures Before(names[0], rest[j]) {
        assert rest[j] in rest;
        RestOf(names, rest[j]);
        FirstIsLeast(names, rest[j]);
      }
    }
  }

  lemma SortedOmit(names: set<string>, n: string)
    requires n !in names
    ensures Omit(Sorted(names + {n}), n) == Sorted(names)
  {
    var all := Sorted(names + {n});
    OmitIn(all, n);
    OmitAscending(all, n);
    AscendingUnique(Omit(all, n), Sorted(names));
  }

  function UnderPrefix(prefix: string, names: seq<string>): (r: seq<string>)
    ensures |r| == |names|
  {
    seq(|names|, i requires 0 <= i < |names| => prefix + names[i])
  }

  lemma UnderPrefixIn(prefix: string, names: seq<string>, n: string)
    ensures prefix + n in UnderPrefix(prefix, names) <==> n in names
    ensures !(prefix <= n) ==> n !in UnderPrefix(prefix, names)
  {
    var all := UnderPrefix(prefix, names);
    if n in names {
      var i :| 0 <= i < |names| && names[i] == n;
      assert all[i] == prefix + n;
    }
    if prefix + n in all {
      var i :| 0 <= i < |all| && all[i] == prefix + n;
      assert (prefix + names[i])[|prefix|..] == names[i] && (prefix + n)[|prefix|..] == n;
    }
  }

  lemma {:induction false} OmitUnderPrefix(prefix: string, names: seq<string>, n: string)
    ensures Omit(UnderPrefix(prefix, names), prefix + n) == UnderPrefix(prefix, Omit(names, n))
  {
    if names != [] {
      OmitUnderPrefix(prefix, names[1..], n);
      assert UnderPrefix(prefix, names)[1..] == UnderPrefix(prefix, names[1..]);
      assert (prefix + names[0])[|prefix|..] == names[0] && (prefix + n)[|prefix|..] == n;
    }
  }
}
