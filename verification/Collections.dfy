/** Small facts about collections: regrouping long logs, and visiting a set. */
module Collections {

  lemma Regroup<T>(a: seq<T>, b: seq<T>, c: seq<T>)
    ensures (a + b) + c == a + (b + c)
  {
  }

  /** What has been visited of `all` once x has been taken off the rest. */
  lemma VisitOne<T>(all: set<T>, todo: set<T>, x: T)
    requires x in todo
    ensures all - (todo - {x}) == if x in all then (all - todo) + {x} else all - todo
    ensures x !in all - todo
  {
  }

  lemma AllVisited<T>(all: set<T>)
    ensures all - all == {} && all - {} == all
  {
  }

  /** There is an element to pick from a nonempty set. */
  lemma HasElement<T>(s: set<T>) returns (x: T)
    requires s != {}
    ensures x in s
  {
    assert (forall y :: y !in s) ==> s == {};
    x :| x in s;
  }
}
