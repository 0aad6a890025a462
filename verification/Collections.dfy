/** Facts about finite sets and sequences. */
module Collections {
  ghost predicate Distinct<T(!new)>(s: seq<T>) {
    forall i, j :: 0 <= i < j < |s| ==> s[i] != s[j]
  }

  function Elements<T(!new)>(s: seq<T>): (r: set<T>)
    ensures forall x :: x in r <==> x in s
  {
    set x | x in s
  }

  lemma {:induction false} ElementsCount<T(!new)>(s: seq<T>)
    ensures |Elements(s)| <= |s|
    ensures |Elements(s)| == |s| <==> Distinct(s)
  {
    if s != [] {
      var front, last := s[..|s| - 1], s[|s| - 1];
      ElementsCount(front);
      if last in front {
        assert Elements(s) == Elements(front);
        var i :| 0 <= i < |front| && front[i] == last;
        assert s[i] == s[|s| - 1];
      } else {
        assert Elements(s) == Elements(front) + {last};
      }
    }
  }

  lemma SubsetCount<T(!new)>(a: set<T>, b: set<T>)
    requires a <= b
    ensures |a| <= |b|
    ensures |a| == |b| ==> a == b
  {
    assert b == a + (b - a);
  }

  lemma OnlyOne<T>(s: set<T>, x: T)
    requires |s| <= 1 && x in s
    ensures s == {x}
  {
    assert |s - {x}| == 0;
  }

  lemma {:induction false} OneToOne<A(!new), B(!new)>(rows: set<A>, keys: set<B>, key: A -> B, row: B -> A)
    requires forall r <- rows :: key(r) in keys && row(key(r)) == r
    requires forall k <- keys :: row(k) in rows && key(row(k)) == k
    ensures |rows| == |keys|
    decreases rows
  {
    if rows != {} {
      var r :| r in rows;
      OneToOne(rows - {r}, keys - {key(r)}, key, row);
    }
  }

  lemma MoreThanOneIff<T(!new)>(s: set<T>)
    ensures |s| > 1 <==> exists a, b :: a in s && b in s && a != b
  {
    if |s| > 1 {
      var a :| a in s;
      assert |s - {a}| > 0;
      var b :| b in s - {a};
    }
    forall a, b | a in s && b in s && a != b
      ensures |s| > 1
    {
      assert b in s - {a} && |s - {a}| == |s| - 1;
    }
  }
}
