/**
 Runs of bits over connections and across a passthrough, and when there is only one between
 two bits. Combining two levels makes no connection twice where there is one run between two
 bits, and leaves one run between them. There is one run if every input bit has one driver
 and no bit is reached from itself.
*/
module Runs {
  // A run is a chain of `Chains` with all it passes. Where no two bits are joined by two runs,
  // combining two levels of a passthrough makes no connection that is there already.

  import opened Wires
  import opened Chains
  import opened Loops

  /** The bit at path `rest` of both ends of a connection. */
  datatype Step = Step(from: Wire, to: Wire, rest: Path) {
    function First(): End {
      End(from, rest)
    }

    function Last(): End {
      End(to, rest)
    }
  }

  type Run = seq<Step>

  ghost predicate Joint(a: Wire, b: Wire, pending: Pending, s: Step, t: Step) {
    Junction(a, b, pending, s.Last(), t.First())
  }

  ghost predicate IsRun(c: Conns, a: Wire, b: Wire, pending: Pending, run: Run) {
    && run != []
    && (forall i :: 0 <= i < |run| ==> (run[i].from, run[i].to) in c)
    && (forall i :: 0 < i < |run| ==> Joint(a, b, pending, run[i - 1], run[i]))
  }

  function Start(run: Run): Wire
    requires run != []
  {
    run[0].First().Leaf()
  }

  function Finish(run: Run): Wire
    requires run != []
  {
    run[|run| - 1].Last().Leaf()
  }

  predicate SameEnds(run: Run, other: Run)
    requires run != [] && other != []
  {
    Start(run) == Start(other) && Finish(run) == Finish(other)
  }

  ghost predicate Parallel(c: Conns, a: Wire, b: Wire, pending: Pending, bits: iset<Wire>, run: Run, other: Run) {
    IsRun(c, a, b, pending, run) && IsRun(c, a, b, pending, other) && SameEnds(run, other) && Start(run) in bits
  }

  /** No two runs join the same two bits. */
  ghost predicate OneRun(c: Conns, a: Wire, b: Wire, pending: Pending, bits: iset<Wire>) {
    forall run, other :: Parallel(c, a, b, pending, bits, run, other) ==> run == other
  }

  lemma RunTail(c: Conns, a: Wire, b: Wire, pending: Pending, run: Run)
    requires IsRun(c, a, b, pending, run) && |run| > 1
    ensures IsRun(c, a, b, pending, run[1..]) && Joint(a, b, pending, run[0], run[1])
    ensures Finish(run[1..]) == Finish(run)
  {
    var rest := run[1..];
    forall i | 0 < i < |rest| ensures Joint(a, b, pending, rest[i - 1], rest[i]) {
      assert Joint(a, b, pending, run[i + 1 - 1], run[i + 1]);
    }
    assert Joint(a, b, pending, run[1 - 1], run[1]);
  }

  lemma RunOne(c: Conns, a: Wire, b: Wire, pending: Pending, s: Step)
    requires (s.from, s.to) in c
    ensures IsRun(c, a, b, pending, [s])
  {
  }

  /** With fewer pairs of levels to cross there are fewer runs. */
  lemma OneRunFewer(c: Conns, a: Wire, b: Wire, before: Pending, after: Pending, bits: iset<Wire>)
    requires OneRun(c, a, b, before, bits) && forall z :: z in after ==> z in before
    ensures OneRun(c, a, b, after, bits)
  {
    forall run, other | Parallel(c, a, b, after, bits, run, other) ensures run == other {
      RunMore(c, a, b, after, before, run);
      RunMore(c, a, b, after, before, other);
      assert Parallel(c, a, b, before, bits, run, other);
    }
  }

  lemma OneRunSwap(c: Conns, a: Wire, b: Wire, pending: Pending, bits: iset<Wire>)
    requires OneRun(c, a, b, pending, bits)
    ensures OneRun(c, b, a, Swap(pending), bits)
  {
    forall run | IsRun(c, b, a, Swap(pending), run) ensures IsRun(c, a, b, pending, run) {
      forall i | 0 < i < |run| ensures Joint(a, b, pending, run[i - 1], run[i]) {
        assert Joint(b, a, Swap(pending), run[i - 1], run[i]);
      }
    }
    forall run, other | Parallel(c, b, a, Swap(pending), bits, run, other) ensures run == other {
      assert Parallel(c, a, b, pending, bits, run, other);
    }
  }

  lemma OneRunUnswap(c: Conns, a: Wire, b: Wire, pending: Pending, bits: iset<Wire>)
    requires OneRun(c, b, a, Swap(pending), bits)
    ensures OneRun(c, a, b, pending, bits)
  {
    forall run | IsRun(c, a, b, pending, run) ensures IsRun(c, b, a, Swap(pending), run) {
      forall i | 0 < i < |run| ensures Joint(b, a, Swap(pending), run[i - 1], run[i]) {
        assert Joint(a, b, pending, run[i - 1], run[i]);
      }
    }
    forall run, other | Parallel(c, a, b, pending, bits, run, other) ensures run == other {
      assert Parallel(c, b, a, Swap(pending), bits, run, other);
    }
  }

  // ----- combining two levels -----

  /** What two levels are combined from: connections `c`, levels `r` of `a` and `r + e` of `b`. */
  datatype Merge = Merge(c: Conns, a: Wire, b: Wire, r: Path, e: Path) {
    function Near(): Wire {
      a.At(r)
    }

    function Far(): Wire {
      b.At(r + e)
    }

    predicate Made(u: Wire, x: Wire, y: Wire) {
      CombinesAt(c, a, b, r, e, u, x, y)
    }

    /** The step over a connection as one or two steps over the connections it was made from. */
    ghost function Parts(s: Step): (run: Run)
      ensures |run| > 0
    {
      var u, v := Trunk(s.from, e), Trunk(s.to, e);
      if (s.from, s.to) in c then [s]
      else if Made(u, s.from, s.to) then [Step(u, Near(), e + s.rest), Step(Far(), s.to, s.rest)]
      else [Step(s.from, Far(), s.rest), Step(Near(), v, e + s.rest)]
    }

    ghost function Expand(run: Run): (r: Run)
      ensures run != [] ==> r != []
    {
      if run == [] then [] else Parts(run[0]) + Expand(run[1..])
    }
  }

  /** The connections `d` are `m.c` with the two levels combined. */
  ghost predicate Combined(m: Merge, d: Conns) {
    && Symmetric(m.c) && Separate(m.a, m.b) && (forall w :: (w, w) !in m.c)
    && Merged(m.c, d, m.a, m.b, m.r, m.e) && MergedFrom(m.c, d, m.a, m.b, m.r, m.e)
  }

  /** A new connection was made one way or the other. */
  lemma NewStep(m: Merge, d: Conns, s: Step)
    requires Combined(m, d) && (s.from, s.to) in d && (s.from, s.to) !in m.c
    ensures m.Made(Trunk(s.from, m.e), s.from, s.to) || m.Made(Trunk(s.to, m.e), s.to, s.from)
  {
    var u :| CombinesAt(m.c, m.a, m.b, m.r, m.e, u, s.from, s.to)
      || CombinesAt(m.c, m.a, m.b, m.r, m.e, u, s.to, s.from);
    TrunkAt(u, m.e);
  }

  /** What a connection was made from: it is free of the level, and no level is attached to the other. */
  lemma MadeFree(m: Merge, d: Conns, u: Wire, x: Wire, y: Wire)
    requires Combined(m, d) && m.Made(u, x, y)
    ensures Free(m.a, m.b, m.r, u) && u != m.Far() && u != m.Near() && y != m.Far()
    ensures (u, m.Near()) in m.c && (m.Near(), u) in m.c && (m.Far(), y) in m.c && (y, m.Far()) in m.c
  {
    AtFrom(m.a, m.Near(), m.r);
    AtFrom(m.b, m.Far(), m.r + m.e);
    assert m.r <= m.r + m.e;
  }

  lemma LevelsCross(m: Merge, pending: Pending, rest: Path)
    requires (m.r, m.r + m.e) in pending
    ensures Junction(m.a, m.b, pending, End(m.Near(), m.e + rest), End(m.Far(), rest))
    ensures Junction(m.a, m.b, pending, End(m.Far(), rest), End(m.Near(), m.e + rest))
  {
    AtFrom(m.a, m.Near(), m.r);
    AtFrom(m.b, m.Far(), m.r + m.e);
    assert m.r + (m.e + rest) == m.r + m.e + rest;
  }

  lemma OnOneSide(a: Wire, b: Wire, w: Wire)
    requires Separate(a, b)
    ensures !(w.Under(a) && w.Under(b))
  {
    if w.Under(a) && w.Under(b) {
      PrefixesComparable(a.path, b.path, w.path);
    }
  }

  lemma LevelsOnly(m: Merge, pending: Pending, rest: Path)
    requires Separate(m.a, m.b) && (m.r, m.r + m.e) !in pending
    ensures !Junction(m.a, m.b, pending, End(m.Near(), m.e + rest), End(m.Far(), rest))
    ensures !Junction(m.a, m.b, pending, End(m.Far(), rest), End(m.Near(), m.e + rest))
  {
    AtFrom(m.a, m.Near(), m.r);
    AtFrom(m.b, m.Far(), m.r + m.e);
    OnOneSide(m.a, m.b, m.Near());
    OnOneSide(m.a, m.b, m.Far());
  }

  /** An end of which `n` is a refinement crosses where `n` does. */
  lemma CrossesCoarser(m: Merge, pending: Pending, k: End, n: End, f: End)
    requires ClosedOff(pending, m.r) && Junction(m.a, m.b, pending, k, n) && Refines(m.a, m.b, m.r, n, f)
    ensures Junction(m.a, m.b, pending, k, f) && Junction(m.a, m.b, pending, f, k)
  {
    if f != n {
      var p :| n.w == f.w.At(p) && f.rest == p + n.rest;
      FreeExtends(m.a, m.b, m.r, f.w, p);
      if CrossesTo(m.a, m.b, pending, k, n) {
        CoarserLevel(f.w.From(m.b), p, n.rest, k.w.From(m.a), k.rest);
      } else {
        CoarserLevel(f.w.From(m.a), p, n.rest, k.w.From(m.b), k.rest);
      }
    }
  }

  lemma CoarserLevel(s: Path, p: Path, rest: Path, q: Path, tail: Path)
    requires q + tail == s + p + rest
    ensures q + tail == s + (p + rest) && Comparable(s + p, q)
  {
    assert s + p + rest == s + (p + rest);
    SameLeafComparable(s + p, rest, q, tail);
  }

  /** The parts of a step start and end at the same bits, from wireables it refines. */
  lemma PartsOf(m: Merge, d: Conns, pending: Pending, s: Step)
    requires Combined(m, d) && (s.from, s.to) in d && (m.r, m.r + m.e) in pending
    ensures IsRun(m.c, m.a, m.b, pending, m.Parts(s))
    ensures Refines(m.a, m.b, m.r, s.First(), m.Parts(s)[0].First())
    ensures Refines(m.a, m.b, m.r, s.Last(), m.Parts(s)[|m.Parts(s)| - 1].Last())
  {
    var u, v := Trunk(s.from, m.e), Trunk(s.to, m.e);
    if (s.from, s.to) !in m.c {
      NewStep(m, d, s);
      LevelsCross(m, pending, s.rest);
      if m.Made(u, s.from, s.to) {
        MadeFree(m, d, u, s.from, s.to);
      } else {
        MadeFree(m, d, v, s.to, s.from);
      }
    }
  }

  lemma RunJoin(c: Conns, a: Wire, b: Wire, pending: Pending, run: Run, more: Run)
    requires IsRun(c, a, b, pending, run) && IsRun(c, a, b, pending, more)
    requires Joint(a, b, pending, run[|run| - 1], more[0])
    ensures IsRun(c, a, b, pending, run + more)
  {
    var all := run + more;
    forall i | 0 < i < |all| ensures Joint(a, b, pending, all[i - 1], all[i]) {
      if i < |run| {
        assert Joint(a, b, pending, run[i - 1], run[i]);
      } else if i > |run| {
        assert Joint(a, b, pending, more[i - |run| - 1], more[i - |run|]);
      }
    }
  }

  lemma {:induction false} ExpandIsRun(m: Merge, d: Conns, pending: Pending, run: Run)
    requires Combined(m, d) && ClosedOff(pending, m.r) && (m.r, m.r + m.e) in pending
    requires IsRun(d, m.a, m.b, pending, run)
    ensures IsRun(m.c, m.a, m.b, pending, m.Expand(run))
    ensures m.Expand(run)[0] == m.Parts(run[0])[0]
    ensures Finish(m.Expand(run)) == Finish(run)
    decreases |run|
  {
    var head := m.Parts(run[0]);
    PartsOf(m, d, pending, run[0]);
    RefinesLeaf(m.a, m.b, m.r, run[0].Last(), head[|head| - 1].Last());
    if |run| == 1 {
      assert m.Expand(run) == head;
    } else {
      RunTail(d, m.a, m.b, pending, run);
      ExpandIsRun(m, d, pending, run[1..]);
      var tail := m.Expand(run[1..]);
      PartsOf(m, d, pending, run[1]);
      CrossesCoarser(m, pending, run[0].Last(), run[1].First(), tail[0].First());
      CrossesCoarser(m, pending, tail[0].First(), run[0].Last(), head[|head| - 1].Last());
      RunJoin(m.c, m.a, m.b, pending, head, tail);
    }
  }

  lemma ExpandEnds(m: Merge, d: Conns, pending: Pending, run: Run)
    requires Combined(m, d) && ClosedOff(pending, m.r) && (m.r, m.r + m.e) in pending
    requires IsRun(d, m.a, m.b, pending, run)
    ensures IsRun(m.c, m.a, m.b, pending, m.Expand(run)) && SameEnds(m.Expand(run), run)
  {
    ExpandIsRun(m, d, pending, run);
    PartsOf(m, d, pending, run[0]);
    RefinesLeaf(m.a, m.b, m.r, run[0].First(), m.Parts(run[0])[0].First());
  }

  /** A step over an old connection is not the start of the parts of a new one. */
  lemma PartsApart(m: Merge, d: Conns, pending: Pending, run: Run, s: Step)
    requires Combined(m, d) && (m.r, m.r + m.e) !in pending && IsRun(d, m.a, m.b, pending, run)
    requires (run[0].from, run[0].to) in m.c && (s.from, s.to) in d && (s.from, s.to) !in m.c
    ensures !(m.Parts(s) <= m.Expand(run))
  {
    NewStep(m, d, s);
    var whole, parts := m.Expand(run), m.Parts(s);
    assert |parts| == 2;
    if parts <= whole {
      assert whole[0] == run[0] == parts[0] && |run| > 1;
      RunTail(d, m.a, m.b, pending, run);
      assert whole[1] == m.Expand(run[1..])[0] == m.Parts(run[1])[0] == parts[1];
      SecondPart(m, d, s, run[1]);
      assert Joint(m.a, m.b, pending, parts[0], parts[1]);
      LevelsOnly(m, pending, s.rest);
    }
  }

  /** The second part of one new step is not the first part of another. */
  lemma SecondPart(m: Merge, d: Conns, s: Step, t: Step)
    requires Combined(m, d) && (s.from, s.to) in d && (s.from, s.to) !in m.c
    requires (t.from, t.to) in d
    ensures (t.from, t.to) !in m.c ==> m.Parts(s)[|m.Parts(s)| - 1] != m.Parts(t)[0]
  {
    if (t.from, t.to) in m.c {
      return;
    }
    NewStep(m, d, s);
    NewStep(m, d, t);
    if m.Made(Trunk(s.from, m.e), s.from, s.to) {
      MadeFree(m, d, Trunk(s.from, m.e), s.from, s.to);
    } else {
      MadeFree(m, d, Trunk(s.to, m.e), s.to, s.from);
    }
    if m.Made(Trunk(t.from, m.e), t.from, t.to) {
      MadeFree(m, d, Trunk(t.from, m.e), t.from, t.to);
    } else {
      MadeFree(m, d, Trunk(t.to, m.e), t.to, t.from);
    }
  }

  /** Two new steps with the same parts are the same step. */
  lemma PartsDiffer(m: Merge, d: Conns, s: Step, t: Step)
    requires Combined(m, d) && (s.from, s.to) in d && (s.from, s.to) !in m.c
    requires (t.from, t.to) in d && (t.from, t.to) !in m.c && m.Parts(s) == m.Parts(t)
    ensures s == t
  {
    NewStep(m, d, s);
    NewStep(m, d, t);
    var p, q := m.Parts(s), m.Parts(t);
    assert p[0] == q[0] && p[1] == q[1];
    OnOneSide(m.a, m.b, m.Near());
    AtFrom(m.a, m.Near(), m.r);
    AtFrom(m.b, m.Far(), m.r + m.e);
  }

  /** What runs expand to tells them apart. */
  lemma {:induction false} ExpandInjective(m: Merge, d: Conns, pending: Pending, run: Run, other: Run)
    requires Combined(m, d) && (m.r, m.r + m.e) !in pending
    requires IsRun(d, m.a, m.b, pending, run) && IsRun(d, m.a, m.b, pending, other)
    requires m.Expand(run) == m.Expand(other)
    ensures run == other
    decreases |run|, 1
  {
    var s, t, x, y := run[0], other[0], run[1..], other[1..];
    var p, q := m.Parts(s), m.Parts(t);
    assert p <= m.Expand(run) && q <= m.Expand(run);
    if (s.from, s.to) in m.c && (t.from, t.to) !in m.c {
      PartsApart(m, d, pending, run, t);
      assert false;
    }
    if (s.from, s.to) !in m.c && (t.from, t.to) in m.c {
      PartsApart(m, d, pending, other, s);
      assert false;
    }
    assert |p| == |q|;
    assert p == m.Expand(run)[..|p|] == q;
    if (s.from, s.to) !in m.c {
      PartsDiffer(m, d, s, t);
    }
    assert s == t;
    assert m.Expand(x) == m.Expand(run)[|p|..] == m.Expand(y);
    ExpandTails(m, d, pending, run, other);
  }

  lemma {:induction false} ExpandTails(m: Merge, d: Conns, pending: Pending, run: Run, other: Run)
    requires Combined(m, d) && (m.r, m.r + m.e) !in pending
    requires IsRun(d, m.a, m.b, pending, run) && IsRun(d, m.a, m.b, pending, other)
    requires run[0] == other[0] && m.Expand(run[1..]) == m.Expand(other[1..])
    ensures run == other
    decreases |run|, 0
  {
    assert run == [run[0]] + run[1..] && other == [other[0]] + other[1..];
    if |run| > 1 && |other| > 1 {
      RunTail(d, m.a, m.b, pending, run);
      RunTail(d, m.a, m.b, pending, other);
      ExpandInjective(m, d, pending, run[1..], other[1..]);
    }
  }

  /** Combining two levels leaves one run where there was one, once the two levels are not crossed any more. */
  lemma OneRunKept(m: Merge, d: Conns, pending: Pending, bits: iset<Wire>)
    requires Combined(m, d) && ClosedOff(pending, m.r) && (m.r, m.r + m.e) in pending
    requires OneRun(m.c, m.a, m.b, pending, bits)
    ensures OneRun(d, m.a, m.b, pending - iset{(m.r, m.r + m.e)}, bits)
  {
    var rest := pending - iset{(m.r, m.r + m.e)};
    forall run, other | Parallel(d, m.a, m.b, rest, bits, run, other) ensures run == other {
      RunMore(d, m.a, m.b, rest, pending, run);
      RunMore(d, m.a, m.b, rest, pending, other);
      ExpandEnds(m, d, pending, run);
      ExpandEnds(m, d, pending, other);
      assert Parallel(m.c, m.a, m.b, pending, bits, m.Expand(run), m.Expand(other));
      ExpandInjective(m, d, rest, run, other);
    }
  }

  lemma RunMore(c: Conns, a: Wire, b: Wire, before: Pending, after: Pending, run: Run)
    requires IsRun(c, a, b, before, run) && forall z :: z in before ==> z in after
    ensures IsRun(c, a, b, after, run)
  {
    forall i | 0 < i < |run| ensures Joint(a, b, after, run[i - 1], run[i]) {
      assert Joint(a, b, before, run[i - 1], run[i]);
    }
  }

  // ----- where every input bit has one connection -----

  predicate Covers(c: Conns, u: Wire, v: Wire, x: Wire) {
    (u, v) in c && x.Under(u)
  }

  /** Every bit of `ins` has at most one connection at itself and at what it was selected from. */
  ghost predicate OneDriver(c: Conns, ins: iset<Wire>) {
    forall x, u, v, w, z :: x in ins && Covers(c, u, v, x) && Covers(c, w, z, x) ==> u == w && v == z
  }

  /** Of two bits that are connected, or at one place of the two sides, exactly one is an input. */
  ghost predicate Opposite(x: Wire, y: Wire, ins: iset<Wire>, bits: iset<Wire>) {
    x in bits ==> y in bits && (x in ins <==> y !in ins)
  }

  ghost predicate Alternating(c: Conns, a: Wire, b: Wire, ins: iset<Wire>, bits: iset<Wire>) {
    && ins <= bits
    && (forall u, v, p :: (u, v) in c ==> Opposite(u.At(p), v.At(p), ins, bits))
    && (forall p: Path :: Opposite(a.At(p), b.At(p), ins, bits) && Opposite(b.At(p), a.At(p), ins, bits))
  }

  /** The same place on the other side. */
  function Across(a: Wire, b: Wire, z: Wire): Wire {
    if z.Under(a) then b.At(z.From(a)) else if z.Under(b) then a.At(z.From(b)) else z
  }

  lemma JointAcross(a: Wire, b: Wire, pending: Pending, s: Step, t: Step)
    requires Separate(a, b) && Joint(a, b, pending, s, t)
    ensures t.First().Leaf() == Across(a, b, s.Last().Leaf())
    ensures (s.to.Under(a) && t.from.Under(b)) || (s.to.Under(b) && t.from.Under(a))
  {
    var m, n := s.Last(), t.First();
    OnOneSide(a, b, m.Leaf());
    if CrossesTo(a, b, pending, m, n) {
      LeafFrom(a, m);
      LeafFrom(b, n);
    } else {
      LeafFrom(b, m);
      LeafFrom(a, n);
    }
  }

  lemma LeafFrom(base: Wire, m: End)
    requires m.w.Under(base)
    ensures m.Leaf().Under(base) && m.Leaf().From(base) == m.w.From(base) + m.rest
    ensures m.Leaf() == base.At(m.w.From(base) + m.rest)
  {
    AtFrom(base, m.w, []);
    AtAt(base, m.w.From(base), m.rest);
    AtFrom(base, m.Leaf(), m.w.From(base) + m.rest);
  }

  lemma JointOpposite(c: Conns, a: Wire, b: Wire, pending: Pending, ins: iset<Wire>, bits: iset<Wire>, s: Step, t: Step)
    requires Separate(a, b) && Alternating(c, a, b, ins, bits) && Joint(a, b, pending, s, t)
    ensures Opposite(s.Last().Leaf(), t.First().Leaf(), ins, bits)
  {
    JointAcross(a, b, pending, s, t);
    var z := s.Last().Leaf();
    if s.to.Under(a) {
      LeafFrom(a, s.Last());
    } else {
      LeafFrom(b, s.Last());
      OnOneSide(a, b, z);
    }
  }

  /** Runs from the same input bit take the same steps as long as both go on. */
  lemma {:induction false} RunsAgree(c: Conns, a: Wire, b: Wire, pending: Pending, ins: iset<Wire>, bits: iset<Wire>,
      run: Run, other: Run)
    requires Separate(a, b) && OneDriver(c, ins) && Alternating(c, a, b, ins, bits)
    requires IsRun(c, a, b, pending, run) && IsRun(c, a, b, pending, other)
    requires Start(run) == Start(other) && Start(run) in ins
    ensures run <= other || other <= run
    decreases |run|
  {
    var s, t := run[0], other[0];
    assert Covers(c, s.from, s.to, Start(run)) && Covers(c, t.from, t.to, Start(run));
    AtFrom(s.from, s.from, s.rest);
    AtFrom(t.from, t.from, t.rest);
    assert s == t;
    assert run == [s] + run[1..] && other == [t] + other[1..];
    if |run| > 1 && |other| > 1 {
      RunTail(c, a, b, pending, run);
      RunTail(c, a, b, pending, other);
      JointAcross(a, b, pending, s, run[1]);
      JointAcross(a, b, pending, t, other[1]);
      JointOpposite(c, a, b, pending, ins, bits, s, run[1]);
      assert Opposite(s.from.At(s.rest), s.to.At(s.rest), ins, bits);
      RunsAgree(c, a, b, pending, ins, bits, run[1..], other[1..]);
    }
  }

  lemma RunSuffix(c: Conns, a: Wire, b: Wire, pending: Pending, run: Run, n: nat)
    requires IsRun(c, a, b, pending, run) && 0 < n < |run|
    ensures IsRun(c, a, b, pending, run[n..]) && Joint(a, b, pending, run[n - 1], run[n..][0])
    ensures Finish(run[n..]) == Finish(run)
  {
    var rest := run[n..];
    forall i | 0 < i < |rest| ensures Joint(a, b, pending, rest[i - 1], rest[i]) {
      assert Joint(a, b, pending, run[n + i - 1], run[n + i]);
    }
  }

  lemma JointSame(a: Wire, b: Wire, pending: Pending, s: Step, t: Step)
    requires Joint(a, b, pending, s, t)
    ensures (s.Last().Leaf(), t.First().Leaf()) in Sides(a, b)
  {
    var m, n := s.Last(), t.First();
    if CrossesTo(a, b, pending, m, n) {
      LeafFrom(a, m);
      LeafFrom(b, n);
    } else {
      LeafFrom(b, m);
      LeafFrom(a, n);
    }
  }

  /** A run alternates between wired bits and places of the two sides. */
  lemma {:induction false} RunAlternates(c: Conns, a: Wire, b: Wire, pending: Pending, run: Run)
    requires IsRun(c, a, b, pending, run)
    ensures Alt(Bits(c), Sides(a, b), Start(run), Finish(run))
    decreases |run|
  {
    var s := run[0];
    assert WiredBy(c, s.from, s.to, s.rest, Start(run), s.Last().Leaf());
    assert AltSteps(Bits(c), Sides(a, b), Start(run), s.Last().Leaf(), 0);
    if |run| > 1 {
      RunTail(c, a, b, pending, run);
      RunAlternates(c, a, b, pending, run[1..]);
      JointSame(a, b, pending, s, run[1]);
      AltJoin(Bits(c), Sides(a, b), Start(run), s.Last().Leaf(), Start(run[1..]), Finish(run));
    }
  }

  /** A run that goes on to the bit it has come to before goes around a loop. */
  lemma SameFinish(c: Conns, a: Wire, b: Wire, pending: Pending, run: Run, other: Run)
    requires !Looped(Bits(c), Sides(a, b))
    requires IsRun(c, a, b, pending, run) && IsRun(c, a, b, pending, other) && run <= other
    requires Finish(run) == Finish(other)
    ensures run == other
  {
    if |run| < |other| {
      var rest := other[|run|..];
      RunSuffix(c, a, b, pending, other, |run|);
      RunAlternates(c, a, b, pending, rest);
      JointSame(a, b, pending, other[|run| - 1], rest[0]);
      assert LoopedAt(Bits(c), Sides(a, b), Start(rest), Finish(rest));
    }
  }

  /** Two runs from an input bit to the same bit are one. */
  lemma OneFromInput(c: Conns, a: Wire, b: Wire, pending: Pending, ins: iset<Wire>, bits: iset<Wire>, run: Run,
      other: Run)
    requires Separate(a, b) && Symmetric(c) && !Looped(Bits(c), Sides(a, b))
    requires OneDriver(c, ins) && Alternating(c, a, b, ins, bits)
    requires IsRun(c, a, b, pending, run) && IsRun(c, a, b, pending, other)
    requires SameEnds(run, other) && Start(run) in ins
    ensures run == other
  {
    RunsAgree(c, a, b, pending, ins, bits, run, other);
    if run <= other {
      SameFinish(c, a, b, pending, run, other);
    } else {
      SameFinish(c, a, b, pending, other, run);
    }
  }

  function Back(s: Step): Step {
    Step(s.to, s.from, s.rest)
  }

  function Reversed(run: Run): (r: Run)
    ensures |r| == |run|
  {
    seq(|run|, i requires 0 <= i < |run| => Back(run[|run| - 1 - i]))
  }

  lemma ReversedRun(c: Conns, a: Wire, b: Wire, pending: Pending, run: Run)
    requires Symmetric(c) && IsRun(c, a, b, pending, run)
    ensures IsRun(c, a, b, pending, Reversed(run))
    ensures Start(Reversed(run)) == Finish(run) && Finish(Reversed(run)) == Start(run)
  {
    var back, n := Reversed(run), |run|;
    forall i | 0 <= i < n ensures (back[i].from, back[i].to) in c {
      var j := n - 1 - i;
      assert back[i] == Back(run[j]) && (run[j].from, run[j].to) in c;
    }
    forall i | 0 < i < n ensures Joint(a, b, pending, back[i - 1], back[i]) {
      var j := n - i;
      assert Joint(a, b, pending, run[j - 1], run[j]);
      assert back[i - 1] == Back(run[j]) && back[i] == Back(run[j - 1]);
    }
    assert back[0] == Back(run[n - 1]) && back[n - 1] == Back(run[0]);
  }

  lemma ReversedInjective(run: Run, other: Run)
    requires Reversed(run) == Reversed(other)
    ensures run == other
  {
    var n := |run|;
    assert n == |Reversed(run)| == |other|;
    forall i | 0 <= i < n ensures run[i] == other[i] {
      assert Reversed(run)[n - 1 - i] == Back(run[i]) && Reversed(other)[n - 1 - i] == Back(other[i]);
    }
  }

  lemma {:induction false} RunOpposite(c: Conns, a: Wire, b: Wire, pending: Pending, ins: iset<Wire>,
      bits: iset<Wire>, run: Run)
    requires Separate(a, b) && Alternating(c, a, b, ins, bits) && IsRun(c, a, b, pending, run)
    ensures Opposite(Start(run), Finish(run), ins, bits)
    decreases |run|
  {
    var s := run[0];
    assert Opposite(s.from.At(s.rest), s.to.At(s.rest), ins, bits);
    if |run| > 1 {
      RunTail(c, a, b, pending, run);
      JointOpposite(c, a, b, pending, ins, bits, s, run[1]);
      RunOpposite(c, a, b, pending, ins, bits, run[1..]);
    }
  }

  /** With one driver for every input bit, and no bit reached from itself, no two runs join two bits. */
  lemma DrivenOneRun(c: Conns, a: Wire, b: Wire, pending: Pending, ins: iset<Wire>, bits: iset<Wire>)
    requires Separate(a, b) && Symmetric(c) && !Looped(Bits(c), Sides(a, b))
    requires OneDriver(c, ins) && Alternating(c, a, b, ins, bits)
    ensures OneRun(c, a, b, pending, bits)
  {
    forall run, other | Parallel(c, a, b, pending, bits, run, other) ensures run == other {
      if Start(run) in ins {
        OneFromInput(c, a, b, pending, ins, bits, run, other);
      } else {
        RunOpposite(c, a, b, pending, ins, bits, run);
        ReversedRun(c, a, b, pending, run);
        ReversedRun(c, a, b, pending, other);
        OneFromInput(c, a, b, pending, ins, bits, Reversed(run), Reversed(other));
        ReversedInjective(run, other);
      }
    }
  }
}
