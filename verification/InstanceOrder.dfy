/**
 The order in which a module definition walks its instances: two pointer maps that form
 a doubly linked list, and the first and last instance. A null key or value stands for
 "before the first" and "after the last".
*/
module InstanceOrder {
  import opened Wires

  class Instance {
    const name: string
    const moduleType: Type

    constructor (name: string, moduleType: Type)
      ensures this.name == name && this.moduleType == moduleType
    {
      this.name := name;
      this.moduleType := moduleType;
    }
  }

  predicate Distinct(s: seq<Instance>) {
    forall i, j :: 0 <= i < j < |s| ==> s[i] != s[j]
  }

  /** The instance at a position, or null outside the sequence. */
  function Nth(s: seq<Instance>, i: int): Instance? {
    if 0 <= i < |s| then s[i] else null
  }

  /** The pointers lead from each instance of `order` to the one `step` places further. */
  ghost predicate Points(order: seq<Instance>, to: map<Instance?, Instance?>, step: int) {
    forall i :: PointsAt(order, to, step, i)
  }

  predicate PointsAt(order: seq<Instance>, to: map<Instance?, Instance?>, step: int, i: int) {
    0 <= i < |order| ==> order[i] in to && to[order[i]] == Nth(order, i + step)
  }

  ghost predicate Chained(order: seq<Instance>, nextOf: map<Instance?, Instance?>, prevOf: map<Instance?, Instance?>) {
    Points(order, nextOf, 1) && Points(order, prevOf, -1)
  }

  lemma AppendChained(order: seq<Instance>, nextOf: map<Instance?, Instance?>, prevOf: map<Instance?, Instance?>,
      x: Instance)
    requires Distinct(order) && x !in order && Chained(order, nextOf, prevOf)
    ensures Distinct(order + [x])
    ensures var last := Nth(order, |order| - 1);
            Chained(order + [x], nextOf[last := x][x := null], prevOf[x := last])
  {
    var last, longer := Nth(order, |order| - 1), order + [x];
    var n, p := nextOf[last := x][x := null], prevOf[x := last];
    forall i ensures PointsAt(longer, n, 1, i) && PointsAt(longer, p, -1, i) {
      if 0 <= i < |order| {
        assert longer[i] == order[i] && PointsAt(order, nextOf, 1, i) && PointsAt(order, prevOf, -1, i);
        if i < |order| - 1 {
          assert order[i] != order[|order| - 1];
        }
      }
    }
  }

  function Without(order: seq<Instance>, k: nat): (r: seq<Instance>)
    requires k < |order|
    ensures |r| == |order| - 1
  {
    order[..k] + order[k + 1..]
  }

  function Place(order: seq<Instance>, x: Instance): (k: nat)
    requires x in order
    ensures k < |order| && order[k] == x
  {
    if order[0] == x then 0 else 1 + Place(order[1..], x)
  }

  function Removed(order: seq<Instance>, x: Instance): seq<Instance> {
    if x in order then Without(order, Place(order, x)) else order
  }

  lemma WithoutAt(order: seq<Instance>, k: nat, i: int)
    requires k < |order|
    ensures Nth(Without(order, k), i) == Nth(order, if i < k then i else i + 1)
  {
  }

  lemma WithoutDistinct(order: seq<Instance>, k: nat)
    requires Distinct(order) && k < |order|
    ensures Distinct(Without(order, k))
  {
    var rest := Without(order, k);
    forall i, j | 0 <= i < j < |rest| ensures rest[i] != rest[j] {
      WithoutAt(order, k, i);
      WithoutAt(order, k, j);
      NeighbourOf(order, if i < k then i else i + 1, if j < k then j else j + 1);
    }
  }

  /** Redirecting the pointer of the neighbour before position `k`, seen in direction `step`, skips `k`. */
  lemma RemovePoints(order: seq<Instance>, to: map<Instance?, Instance?>, step: int, k: nat)
    requires Distinct(order) && k < |order| && Points(order, to, step) && (step == 1 || step == -1)
    ensures Points(Without(order, k), to[Nth(order, k - step) := Nth(order, k + step)], step)
  {
    var rest, t := Without(order, k), to[Nth(order, k - step) := Nth(order, k + step)];
    forall i ensures PointsAt(rest, t, step, i) {
      if 0 <= i < |rest| {
        var j := if i < k then i else i + 1;
        WithoutAt(order, k, i);
        WithoutAt(order, k, i + step);
        NeighbourOf(order, j, k - step);
        assert rest[i] == order[j] && PointsAt(order, to, step, j);
      }
    }
  }

  lemma NeighbourOf(order: seq<Instance>, j: nat, k: int)
    requires Distinct(order) && j < |order|
    ensures order[j] == Nth(order, k) <==> j == k
  {
  }

  lemma RemoveEnds(order: seq<Instance>, k: nat)
    requires Distinct(order) && k < |order|
    ensures Nth(Without(order, k), 0) == if order[k] == Nth(order, 0) then Nth(order, k + 1) else Nth(order, 0)
    ensures Nth(Without(order, k), |order| - 2) == if order[k] == Nth(order, |order| - 1) then Nth(order, k - 1)
      else Nth(order, |order| - 1)
  {
    WithoutAt(order, k, 0);
    WithoutAt(order, k, |order| - 2);
    NeighbourOf(order, k, 0);
    NeighbourOf(order, k, |order| - 1);
  }

  /** The two pointer maps and the two ends describe a walk along `order`. */
  ghost predicate Describes(order: seq<Instance>, nextOf: map<Instance?, Instance?>,
      prevOf: map<Instance?, Instance?>, first: Instance?, last: Instance?)
  {
    && Distinct(order)
    && Chained(order, nextOf, prevOf)
    && first == Nth(order, 0)
    && last == Nth(order, |order| - 1)
  }

  lemma EntriesAt(order: seq<Instance>, nextOf: map<Instance?, Instance?>, prevOf: map<Instance?, Instance?>,
      first: Instance?, last: Instance?, k: nat)
    requires Describes(order, nextOf, prevOf, first, last) && k < |order|
    ensures order[k] in nextOf && nextOf[order[k]] == Nth(order, k + 1)
    ensures order[k] in prevOf && prevOf[order[k]] == Nth(order, k - 1)
  {
    assert PointsAt(order, nextOf, 1, k) && PointsAt(order, prevOf, -1, k);
  }

  lemma RemoveDescribes(order: seq<Instance>, nextOf: map<Instance?, Instance?>, prevOf: map<Instance?, Instance?>,
      first: Instance?, last: Instance?, k: nat)
    requires Describes(order, nextOf, prevOf, first, last) && k < |order|
    ensures var next, prev := Nth(order, k + 1), Nth(order, k - 1);
            Describes(Without(order, k), nextOf[prev := next], prevOf[next := prev],
                      if order[k] == first then next else first, if order[k] == last then prev else last)
  {
    RemovePoints(order, nextOf, 1, k);
    RemovePoints(order, prevOf, -1, k);
    WithoutDistinct(order, k);
    RemoveEnds(order, k);
  }

  class InstanceIter {
    var first: Instance?
    var last: Instance?
    var nextOf: map<Instance?, Instance?>
    var prevOf: map<Instance?, Instance?>
    ghost var order: seq<Instance>  // what a walk along the next pointers visits

    constructor ()
      ensures Valid() && order == []
    {
      first, last := null, null;
      nextOf, prevOf := map[], map[];
      order := [];
    }

    ghost predicate Valid()
      reads this
    {
      Describes(order, nextOf, prevOf, first, last)
    }

    method Append(instance: Instance)
      requires Valid() && instance !in order
      modifies this
      ensures Valid() && order == old(order) + [instance]
    {
      AppendChained(order, nextOf, prevOf, instance);
      if first == null {
        first := instance;
        last := instance;
        nextOf := nextOf[instance := null];
        prevOf := prevOf[instance := null];
      } else {
        var currLast := last;
        nextOf := nextOf[currLast := instance];
        prevOf := prevOf[instance := currLast];
        nextOf := nextOf[instance := null];
        last := instance;
      }
      order := order + [instance];
    }

    /** The removed instance keeps its own two entries; no walk reaches them. */
    method Remove(instance: Instance)
      requires Valid() && instance in order
      modifies this
      ensures Valid()
      ensures order == Removed(old(order), instance)
    {
      ghost var k := Place(order, instance);
      EntriesAt(order, nextOf, prevOf, first, last, k);
      RemoveDescribes(order, nextOf, prevOf, first, last, k);
      var next := nextOf[instance];
      var prev := prevOf[instance];
      nextOf := nextOf[prev := next];
      prevOf := prevOf[next := prev];
      if instance == last {
        last := prev;
      }
      if instance == first {
        first := next;
      }
      order := Removed(order, instance);
    }

    function Next(instance: Instance): Instance?
      reads this
      requires instance in nextOf
    {
      nextOf[instance]
    }

    /** Walking from the first instance along the next pointers. */
    method Walk() returns (seen: seq<Instance>)
      requires Valid()
      ensures seen == order
    {
      seen := [];
      var current := first;
      while current != null
        invariant |seen| <= |order| && seen == order[..|seen|]
        invariant current == Nth(order, |seen|)
        decreases |order| - |seen|
      {
        ghost var i := |seen|;
        assert current == order[i] && PointsAt(order, nextOf, 1, i);
        seen := seen + [current];
        current := Next(current);
        assert current == Nth(order, i + 1);
      }
    }
  }
}
