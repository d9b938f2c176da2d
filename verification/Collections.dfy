/** Iteration over Go maps, whose order the runtime leaves open, and regrouping of concatenations. */
module Collections {

  /** Some element of a nonempty set: the next key of a `range` loop. */
  method Pick<T>(s: set<T>) returns (x: T)
    requires s != {}
    ensures x in s
  {
    x :| x in s;
  }

  lemma Regroup<T>(a: seq<T>, b: seq<T>, c: seq<T>)
    ensures (a + b) + c == a + (b + c)
  {
  }
}
