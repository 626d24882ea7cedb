/**
 Hardware types, and wireables named by the path of selects that leads to them. A type is
 a bit, an array or a record; its flip has every input as an output and the other way
 round. Bits are the paths on which nothing further can be selected.
*/
module Wires {

  datatype Option<+T> = None | Some(value: T)

  // ----- types -----

  datatype Label = Field(name: string) | Index(i: nat)

  type Path = seq<Label>

  /** `Bit` is driven by its owner, `BitIn` by others. Records list their fields in order. */
  datatype Type = Bit | BitIn | Array(len: nat, elem: Type) | Record(fields: seq<(string, Type)>) {
    function Flip(): Type
      decreases this
    {
      match this
      case Bit => BitIn
      case BitIn => Bit
      case Array(n, e) => Array(n, e.Flip())
      case Record(fs) => Record(seq(|fs|, i requires 0 <= i < |fs| => (fs[i].0, fs[i].1.Flip())))
    }

    /** The type of one select, if the type has that select. */
    function Sel(l: Label): Option<Type> {
      match this
      case Bit => None
      case BitIn => None
      case Array(n, e) => if l.Index? && l.i < n then Some(e) else None
      case Record(fs) => if l.Field? then Lookup(fs, l.name) else None
    }

    function SelPath(p: Path): Option<Type>
      decreases |p|
    {
      if p == [] then Some(this)
      else
        var t := Sel(p[0]);
        if t.None? then None else t.value.SelPath(p[1..])
    }

    /** Every array and record has at least one member, and field names are distinct. */
    predicate Inhabited()
      decreases this
    {
      match this
      case Bit => true
      case BitIn => true
      case Array(n, e) => n > 0 && e.Inhabited()
      case Record(fs) =>
        && fs != []
        && (forall i :: 0 <= i < |fs| ==> fs[i].1.Inhabited())
        && forall i, j :: 0 <= i < j < |fs| ==> fs[i].0 != fs[j].0
    }

    /** An upper bound on the number of selects in a row. */
    function Depth(): nat
      decreases this, 2
    {
      match this
      case Bit => 0
      case BitIn => 0
      case Array(_, e) => 1 + e.Depth()
      case Record(fs) => 1 + MaxDepth(|fs|)
    }

    function MaxDepth(n: nat): (d: nat)
      requires Record? && n <= |fields|
      ensures forall i :: 0 <= i < n ==> fields[i].1.Depth() <= d
      decreases this, 1, n
    {
      if n == 0 then 0
      else
        var d := MaxDepth(n - 1);
        if fields[n - 1].1.Depth() > d then fields[n - 1].1.Depth() else d
    }
  }

  function Lookup(fs: seq<(string, Type)>, name: string): (r: Option<Type>)
    ensures r.Some? ==> exists i :: 0 <= i < |fs| && fs[i] == (name, r.value)
    ensures r.None? ==> forall i :: 0 <= i < |fs| ==> fs[i].0 != name
  {
    if fs == [] then None
    else if fs[0].0 == name then Some(fs[0].1)
    else
      var r := Lookup(fs[1..], name);
      assert r.Some? ==> forall i :: 0 <= i < |fs| - 1 && fs[1..][i] == (name, r.value) ==>
        fs[i + 1] == (name, r.value);
      r
  }

  lemma SelSmaller(t: Type, l: Label)
    requires t.Sel(l).Some?
    ensures t.Sel(l).value < t
    ensures t.Sel(l).value.Depth() < t.Depth()
    ensures t.Inhabited() ==> t.Sel(l).value.Inhabited()
  {
    if t.Record? {
      var i :| 0 <= i < |t.fields| && t.fields[i] == (l.name, t.Sel(l).value);
      assert t.fields[i].1.Depth() <= t.MaxDepth(|t.fields|);
    }
  }

  lemma {:induction false} SelPathDepth(t: Type, p: Path)
    requires t.SelPath(p).Some?
    ensures t.SelPath(p).value.Depth() + |p| <= t.Depth()
    ensures t.Inhabited() ==> t.SelPath(p).value.Inhabited()
    decreases |p|
  {
    if p != [] {
      SelSmaller(t, p[0]);
      SelPathDepth(t.Sel(p[0]).value, p[1..]);
    }
  }

  lemma {:induction false} SelPathAppend(t: Type, p: Path, q: Path)
    ensures t.SelPath(p).None? ==> t.SelPath(p + q).None?
    ensures t.SelPath(p).Some? ==> t.SelPath(p + q) == t.SelPath(p).value.SelPath(q)
    decreases |p|
  {
    if p == [] {
      assert p + q == q;
    } else {
      assert (p + q)[1..] == p[1..] + q;
      if t.Sel(p[0]).Some? {
        SelPathAppend(t.Sel(p[0]).value, p[1..], q);
      }
    }
  }

  lemma {:induction false} FlipTwice(t: Type)
    ensures t.Flip().Flip() == t
    decreases t
  {
    match t
    case Bit =>
    case BitIn =>
    case Array(_, e) => FlipTwice(e);
    case Record(fs) =>
      forall i | 0 <= i < |fs| ensures t.Flip().Flip().fields[i] == fs[i] {
        FlipTwice(fs[i].1);
      }
  }

  lemma {:induction false} FlipDiffers(t: Type)
    requires t.Inhabited()
    ensures t.Flip() != t
    decreases t
  {
    match t
    case Bit =>
    case BitIn =>
    case Array(_, e) => FlipDiffers(e);
    case Record(fs) =>
      FlipDiffers(fs[0].1);
      assert t.Flip().fields[0] != fs[0];
  }

  lemma {:induction false} FlipDepth(t: Type)
    ensures t.Flip().Depth() == t.Depth()
    ensures t.Flip().Inhabited() <==> t.Inhabited()
    decreases t, 2
  {
    match t
    case Bit =>
    case BitIn =>
    case Array(_, e) => FlipDepth(e);
    case Record(fs) =>
      FlipMaxDepth(t, |fs|);
      forall i | 0 <= i < |fs| ensures t.Flip().fields[i].1.Inhabited() <==> fs[i].1.Inhabited() {
        FlipDepth(fs[i].1);
      }
      forall i | 0 <= i < |fs| ensures t.Flip().fields[i].0 == fs[i].0 {
      }
  }

  lemma {:induction false} FlipMaxDepth(t: Type, n: nat)
    requires t.Record? && n <= |t.fields|
    ensures t.Flip().MaxDepth(n) == t.MaxDepth(n)
    decreases t, 1, n
  {
    if n > 0 {
      FlipMaxDepth(t, n - 1);
      FlipDepth(t.fields[n - 1].1);
    }
  }

  lemma {:induction false} FlipLookup(fs: seq<(string, Type)>, name: string)
    ensures var gs := seq(|fs|, i requires 0 <= i < |fs| => (fs[i].0, fs[i].1.Flip()));
            Lookup(gs, name) == match Lookup(fs, name) { case None => None case Some(t) => Some(t.Flip()) }
    decreases |fs|
  {
    if fs != [] {
      FlipLookup(fs[1..], name);
      var gs := seq(|fs|, i requires 0 <= i < |fs| => (fs[i].0, fs[i].1.Flip()));
      var rest := fs[1..];
      assert gs[1..] == seq(|rest|, i requires 0 <= i < |rest| => (rest[i].0, rest[i].1.Flip()));
    }
  }

  lemma FlipSel(t: Type, l: Label)
    ensures t.Flip().Sel(l) == match t.Sel(l) { case None => None case Some(u) => Some(u.Flip()) }
  {
    if t.Record? && l.Field? {
      FlipLookup(t.fields, l.name);
    }
  }

  lemma {:induction false} FlipSelPath(t: Type, p: Path)
    ensures t.Flip().SelPath(p) == match t.SelPath(p) { case None => None case Some(u) => Some(u.Flip()) }
    decreases |p|
  {
    if p != [] {
      FlipSel(t, p[0]);
      if t.Sel(p[0]).Some? {
        FlipSelPath(t.Sel(p[0]).value, p[1..]);
      }
    }
  }

  // ----- wireables -----

  /** The wireable reached from the instance `root`, or from the interface "self", by `path`. */
  datatype Wire = Wire(root: string, path: Path) {
    function At(p: Path): Wire {
      Wire(root, path + p)
    }

    /** Whether this wireable is `base` or is selected from it. */
    predicate Under(base: Wire) {
      root == base.root && base.path <= path
    }

    /** The selects that lead from `base` to this wireable. */
    function From(base: Wire): Path
      requires Under(base)
    {
      path[|base.path|..]
    }
  }

  lemma AtFrom(base: Wire, w: Wire, p: Path)
    ensures base.At(p).Under(base) && base.At(p).From(base) == p
    ensures w.Under(base) ==> base.At(w.From(base)) == w
  {
  }

  lemma AtAt(w: Wire, p: Path, q: Path)
    ensures w.At(p).At(q) == w.At(p + q)
    ensures w.At([]) == w
  {
    assert w.path + p + q == w.path + (p + q);
  }

  predicate Comparable(p: Path, q: Path) {
    p <= q || q <= p
  }

  lemma PrefixesComparable(p: Path, q: Path, r: Path)
    requires p <= r && q <= r
    ensures Comparable(p, q)
  {
  }

  /** Two paths that are not comparable stay so when one of them is extended. */
  lemma ExtendedIncomparable(p: Path, q: Path, r: Path)
    requires !Comparable(p, q)
    ensures !Comparable(p + r, q)
  {
    if p + r <= q {
      PrefixTransitive(p, p + r, q);
    } else if q <= p + r {
      PrefixesComparable(p, q, p + r);
    }
  }

  lemma PrefixTransitive(p: Path, q: Path, r: Path)
    requires p <= q && q <= r
    ensures p <= r
  {
  }

  /** Paths that continue to the same path are comparable. */
  lemma SameLeafComparable(p: Path, x: Path, q: Path, y: Path)
    requires p + x == q + y
    ensures Comparable(p, q)
  {
    assert p <= p + x && q <= q + y;
    PrefixesComparable(p, q, p + x);
  }

  /** The wireable of which `x` would be the select at `e`. */
  function Trunk(x: Wire, e: Path): Wire {
    if |e| <= |x.path| then Wire(x.root, x.path[..|x.path| - |e|]) else x
  }

  lemma TrunkAt(u: Wire, e: Path)
    ensures Trunk(u.At(e), e) == u
  {
    assert (u.path + e)[..|u.path|] == u.path;
  }
}
