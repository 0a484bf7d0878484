/** Counting. */
module Sets {
  lemma {:induction false} SubsetCount<T>(a: set<T>, b: set<T>)
    requires a <= b
    ensures |a| <= |b| && (|a| == |b| ==> a == b)
    decreases |a|
  {
    if a != {} {
      var x :| x in a;
      SubsetCount(a - {x}, b - {x});
      assert a - {x} == b - {x} ==> a == (a - {x}) + {x} == (b - {x}) + {x} == b;
    }
  }
}
