/** Finite sets: picking an element, counting, the greatest of a set of integers. */
module FiniteSets {
  /** The integers from `lo` up to but not including `hi`. */
  ghost function Range(lo: int, hi: int): (r: set<int>)
    ensures forall x :: x in r <==> lo <= x < hi
    ensures |r| == if lo < hi then hi - lo else 0
    decreases hi - lo
  {
    if lo < hi then Range(lo, hi - 1) + {hi - 1} else {}
  }

  lemma {:induction false} SubsetSize<T>(xs: set<T>, ys: set<T>)
    requires xs <= ys
    ensures |xs| <= |ys|
    decreases |xs|
  {
    if xs != {} {
      var x :| x in xs;
      SubsetSize(xs - {x}, ys - {x});
    }
  }

  lemma Pick<T>(xs: set<T>) returns (x: T)
    requires xs != {}
    ensures x in xs
  {
    x :| x in xs;
  }

  lemma Greatest(xs: set<int>) returns (x: int)
    requires xs != {}
    ensures x in xs && forall y :: y in xs ==> y <= x
    decreases |xs|
  {
    var z := Pick(xs);
    var rest := xs - {z};
    assert xs == rest + {z};
    if rest == {} {
      x := z;
    } else {
      var y := Greatest(rest);
      x := if z < y then y else z;
    }
  }
}
