/** Sequence and set helpers: duplicate-freedom, first-occurrence
    de-duplication (the iteration order of a JavaScript `Set` or of the
    string keys of a plain object), and counting facts. */
module Collections {

  predicate NoDuplicates<T(==)>(s: seq<T>)
  {
    forall i, j :: 0 <= i < j < |s| ==> s[i] != s[j]
  }

  /** Joining two duplicate-free sequences with no element in common. */
  lemma NoDuplicatesAppend<T>(a: seq<T>, b: seq<T>)
    requires NoDuplicates(a) && NoDuplicates(b)
    requires forall x :: x in a ==> x !in b
    ensures NoDuplicates(a + b)
  {
    forall i, j | 0 <= i < j < |a + b| ensures (a + b)[i] != (a + b)[j] {
      if j >= |a| && i < |a| {
        assert (a + b)[i] in a && (a + b)[j] in b;
      }
    }
  }

  /** The elements of `s`, each kept at its first occurrence, in order:
      what `[...new Set(s)]` yields. */
  function Distinct<T(==)>(s: seq<T>): (d: seq<T>)
    ensures forall i :: 0 <= i < |d| ==> d[i] in s
    ensures forall i :: 0 <= i < |s| ==> s[i] in d
    ensures NoDuplicates(d)
    ensures |d| <= |s|
    decreases |s|
  {
    if s == [] then []
    else
      var d := Distinct(s[..|s| - 1]);
      if s[|s| - 1] in d then d else d + [s[|s| - 1]]
  }

  /** `Distinct` keeps exactly the elements of its input. */
  lemma DistinctMembers<T>(s: seq<T>)
    ensures forall x :: x in Distinct(s) <==> x in s
  {
    var d := Distinct(s);
    forall x | x in d ensures x in s {
      var i :| 0 <= i < |d| && d[i] == x;
    }
    forall x | x in s ensures x in d {
      var i :| 0 <= i < |s| && s[i] == x;
    }
  }

  /** `Distinct` keeps first occurrences in order: appending an element
      already seen changes nothing, appending a new one adds it last. */
  lemma DistinctAppend<T>(s: seq<T>, x: T)
    ensures Distinct(s + [x]) == if x in s then Distinct(s) else Distinct(s) + [x]
  {
    assert (s + [x])[..|s + [x]| - 1] == s;
  }

  /** `Distinct` after one more element, stated on the result alone. */
  lemma DistinctStep<T>(s: seq<T>, x: T)
    ensures Distinct(s + [x]) == if x in Distinct(s) then Distinct(s) else Distinct(s) + [x]
  {
    DistinctAppend(s, x);
    DistinctMembers(s);
  }

  /** A duplicate-free sequence is left as it is. */
  lemma {:induction false} DistinctOfNoDuplicates<T>(s: seq<T>)
    requires NoDuplicates(s)
    ensures Distinct(s) == s
    decreases |s|
  {
    if s != [] {
      var p := s[..|s| - 1];
      assert NoDuplicates(p);
      DistinctOfNoDuplicates(p);
      assert s == p + [s[|s| - 1]];
      DistinctAppend(p, s[|s| - 1]);
    }
  }

  /** In a duplicate-free sequence every element occurs exactly once. */
  lemma {:induction false} NoDuplicatesMultiplicity<T>(a: seq<T>, y: T)
    requires NoDuplicates(a)
    ensures multiset(a)[y] == if y in a then 1 else 0
    decreases |a|
  {
    if a != [] {
      var a' := a[..|a| - 1];
      assert a == a' + [a[|a| - 1]];
      assert NoDuplicates(a');
      assert a[|a| - 1] !in a';
      NoDuplicatesMultiplicity(a', y);
    }
  }

  /** Two duplicate-free sequences holding the same elements are
      permutations of each other. */
  lemma SameElementsSameMultiset<T>(a: seq<T>, b: seq<T>)
    requires NoDuplicates(a) && NoDuplicates(b)
    requires forall x :: x in a <==> x in b
    ensures multiset(a) == multiset(b)
    ensures |a| == |b|
  {
    forall y ensures multiset(a)[y] == multiset(b)[y] {
      NoDuplicatesMultiplicity(a, y);
      NoDuplicatesMultiplicity(b, y);
    }
    assert |multiset(a)| == |a| && |multiset(b)| == |b|;
  }

  lemma CardinalityOfDisjointUnion<T>(a: set<T>, b: set<T>)
    requires a * b == {}
    ensures |a + b| == |a| + |b|
  {
    if a != {} {
      var x :| x in a;
      assert (a - {x}) + b == (a + b) - {x};
      CardinalityOfDisjointUnion(a - {x}, b);
    }
  }
}
