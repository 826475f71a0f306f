/** Sequences without repetitions, subsequences and suffixes. */
module Sequences {
  predicate NoDup<T(==)>(a: seq<T>) { forall m, n :: 0 <= m < n < |a| ==> a[m] != a[n] }

  /** `a` is obtained from `b` by deleting elements. */
  predicate Subsequence<T(==)>(a: seq<T>, b: seq<T>) {
    a == [] ||
    (b != [] && (Subsequence(a, b[..|b| - 1])
                 || (a[|a| - 1] == b[|b| - 1] && Subsequence(a[..|a| - 1], b[..|b| - 1]))))
  }

  lemma EmptySubsequence<T>(b: seq<T>)
    ensures Subsequence([], b)
  {
  }

  lemma SubsequenceSkip<T>(a: seq<T>, b: seq<T>, x: T)
    requires Subsequence(a, b)
    ensures Subsequence(a, b + [x])
  {
    assert (b + [x])[..|b|] == b;
  }

  lemma SubsequenceTake<T>(a: seq<T>, b: seq<T>, x: T)
    requires Subsequence(a, b)
    ensures Subsequence(a + [x], b + [x])
  {
    assert (b + [x])[..|b|] == b && (a + [x])[..|a|] == a;
  }

  lemma {:induction false} SubsequenceExtend<T>(a: seq<T>, b: seq<T>, c: seq<T>)
    requires Subsequence(a, b)
    ensures Subsequence(a, b + c)
  {
    if c == [] {
      assert b + c == b;
    } else {
      SubsequenceExtend(a, b, c[..|c| - 1]);
      assert b + c == (b + c[..|c| - 1]) + [c[|c| - 1]];
      SubsequenceSkip(a, b + c[..|c| - 1], c[|c| - 1]);
    }
  }

  lemma {:induction false} SubsequenceMember<T>(a: seq<T>, b: seq<T>, x: T)
    requires Subsequence(a, b) && x in a
    ensures x in b
  {
    var b' := b[..|b| - 1];
    if Subsequence(a, b') {
      SubsequenceMember(a, b', x);
    } else if x != a[|a| - 1] {
      SubsequenceMember(a[..|a| - 1], b', x);
    }
  }

  lemma {:induction false} SubsequenceNoDup<T>(a: seq<T>, b: seq<T>)
    requires Subsequence(a, b) && NoDup(b)
    ensures NoDup(a)
  {
    if a != [] {
      var b', a' := b[..|b| - 1], a[..|a| - 1];
      assert NoDup(b');
      if Subsequence(a, b') {
        SubsequenceNoDup(a, b');
      } else {
        SubsequenceNoDup(a', b');
        if a[|a| - 1] in a' {
          SubsequenceMember(a', b', a[|a| - 1]);
        }
      }
    }
  }

  lemma NoDupParts<T>(a: seq<T>, b: seq<T>, x: T)
    requires NoDup(a + b) && x in a
    ensures x !in b
  {
    var m :| 0 <= m < |a| && a[m] == x;
    forall n | 0 <= n < |b| ensures b[n] != x {
      assert (a + b)[m] == x && (a + b)[|a| + n] == b[n];
    }
  }

  lemma {:induction false} NoDupCount<T>(a: seq<T>, x: T)
    requires NoDup(a)
    ensures multiset(a)[x] == if x in a then 1 else 0
  {
    if a != [] {
      var b := a[..|a| - 1];
      NoDupCount(b, x);
      assert a == b + [a[|a| - 1]];
    }
  }

  predicate IsSuffix<T(==)>(a: seq<T>, b: seq<T>) { |a| <= |b| && a == b[|b| - |a|..] }

  lemma {:induction false} SubsequenceConcat<T>(a: seq<T>, b: seq<T>, c: seq<T>, d: seq<T>)
    requires Subsequence(a, b) && Subsequence(c, d)
    ensures Subsequence(a + c, b + d)
  {
    if d == [] {
      assert a + c == a && b + d == b;
    } else {
      var d', last := d[..|d| - 1], d[|d| - 1];
      assert b + d == (b + d') + [last];
      if Subsequence(c, d') {
        SubsequenceConcat(a, b, c, d');
        SubsequenceSkip(a + c, b + d', last);
      } else {
        var c' := c[..|c| - 1];
        SubsequenceConcat(a, b, c', d');
        SubsequenceTake(a + c', b + d', last);
        assert a + c == (a + c') + [last];
      }
    }
  }
}
