/**
 Facts about finite sets that several of the proofs share. A set that is not empty has an
 element to pick; a subset has no more elements, and as many only if it is the whole set;
 moving an element from what is left to what is done leaves one fewer, and loses none.
*/
module Collections {

  lemma EmptyWithoutElement<T(!new)>(s: set<T>)
    requires forall x :: x !in s
    ensures s == {}
  {
  }

  lemma Pick<T(!new)>(s: set<T>) returns (x: T)
    requires s != {}
    ensures x in s
  {
    if forall y :: y !in s {
      EmptyWithoutElement(s);
    }
    x :| x in s;
  }

  lemma SubsetCount<T>(a: set<T>, b: set<T>)
    requires a <= b
    ensures |a| <= |b|
    ensures |a| == |b| ==> a == b
  {
    assert b == a + (b - a);
  }

  lemma OneFewer<T(!new)>(s: set<T>, x: T)
    requires x in s
    ensures |s - {x}| < |s|
  {
  }

  /** One more element of `all` is done, one fewer is left. */
  lemma MoveOne<T(!new)>(all: set<T>, done: set<T>, left: set<T>, x: T)
    requires done + left == all && done !! left && x in left
    ensures (done + {x}) + (left - {x}) == all && (done + {x}) !! (left - {x})
    ensures |left - {x}| < |left|
  {
  }
}
