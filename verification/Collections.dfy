/** Facts about sequences and sets that several parts rely on. */
module Collections {
  predicate Distinct<T(==)>(s: seq<T>) { forall i, j :: 0 <= i < j < |s| ==> s[i] != s[j] }

  function Elements<T(==)>(s: seq<T>): set<T> { set i | 0 <= i < |s| :: s[i] }

  lemma ElementsAppend<T>(init: seq<T>, last: T)
    ensures Elements(init + [last]) == Elements(init) + {last}
  {
    var s := init + [last];
    forall x | x in Elements(init) + {last} ensures x in Elements(s) {
      if x == last {
        assert s[|init|] == x;
      } else {
        var i :| 0 <= i < |init| && init[i] == x;
        assert s[i] == x;
      }
    }
  }

  /** A sequence without repetitions has as many elements as places. */
  lemma {:induction false} ElementsSize<T>(s: seq<T>)
    requires Distinct(s)
    ensures |Elements(s)| == |s|
  {
    if s != [] {
      var init, last := s[..|s| - 1], s[|s| - 1];
      ElementsSize(init);
      assert s == init + [last];
      ElementsAppend(init, last);
      assert last !in Elements(init);
    }
  }

  lemma SubsetSize<T>(a: set<T>, b: set<T>)
    requires a <= b
    ensures |a| <= |b|
    ensures |a| == |b| ==> a == b
  {
    assert b == a + (b - a);
  }

  lemma OnlyElement<T>(s: set<T>, a: T, b: T)
    requires |s| == 1 && a in s && b in s
    ensures a == b
  {
    SubsetSize({a}, s);
  }
}
