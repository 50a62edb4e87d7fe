/** What can remain of a sequence after some elements are dropped. */
module Subsequences {
  ghost predicate Sub<T>(a: seq<T>, b: seq<T>)
    decreases |b|
  {
    || a == []
    || (&& b != []
        && ((a[|a| - 1] == b[|b| - 1] && Sub(a[..|a| - 1], b[..|b| - 1])) || Sub(a, b[..|b| - 1])))
  }

  lemma SubMore<T>(a: seq<T>, b: seq<T>, x: T)
    requires Sub(a, b)
    ensures Sub(a, b + [x]) && Sub(a + [x], b + [x])
  {
    assert (b + [x])[..|b|] == b && (a + [x])[..|a|] == a;
  }

  lemma {:induction false} SubDropLast<T>(a: seq<T>, x: T, b: seq<T>)
    requires Sub(a + [x], b)
    ensures Sub(a, b)
    decreases |b|
  {
    assert (a + [x])[..|a|] == a;
    if Sub(a, b[..|b| - 1]) {
    } else {
      SubDropLast(a, x, b[..|b| - 1]);
    }
  }

  lemma {:induction false} SubPrefix<T>(a: seq<T>, c: seq<T>, b: seq<T>)
    requires Sub(a + c, b)
    ensures Sub(a, b)
    decreases |c|
  {
    if c == [] {
      assert a + c == a;
    } else {
      var n := |c| - 1;
      assert a + c == (a + c[..n]) + [c[n]];
      SubDropLast(a + c[..n], c[n], b);
      SubPrefix(a, c[..n], b);
    }
  }

  lemma {:induction false} SubTransitive<T>(a: seq<T>, b: seq<T>, c: seq<T>)
    requires Sub(a, b) && Sub(b, c)
    ensures Sub(a, c)
    decreases |b| + |c|
  {
    if a == [] {
    } else {
      var b', c' := b[..|b| - 1], c[..|c| - 1];
      if Sub(b, c') {
        SubTransitive(a, b, c');
      } else if Sub(a, b') {
        SubTransitive(a, b', c');
      } else {
        SubTransitive(a[..|a| - 1], b', c');
      }
    }
  }

  /** Nothing can be dropped from a sequence without making it shorter. */
  lemma {:induction false} SubLength<T>(a: seq<T>, b: seq<T>)
    requires Sub(a, b)
    ensures |a| <= |b|
    ensures |a| == |b| ==> a == b
    decreases |b|
  {
    if a == [] {
    } else {
      var b' := b[..|b| - 1];
      if Sub(a, b') {
        SubLength(a, b');
      } else {
        SubLength(a[..|a| - 1], b');
        assert a == a[..|a| - 1] + [a[|a| - 1]];
        assert b == b' + [b[|b| - 1]];
      }
    }
  }
}
