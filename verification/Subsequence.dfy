/** Subsequences: what a filter that only deletes may leave. */
module Subsequence {

  predicate Subseq<T(==)>(a: seq<T>, b: seq<T>)
    decreases |b|
  {
    if a == [] then true
    else if b == [] then false
    else (a[0] == b[0] && Subseq(a[1..], b[1..])) || Subseq(a, b[1..])
  }

  lemma {:induction false} Refl<T>(a: seq<T>)
    ensures Subseq(a, a)
  {
    if a != [] { Refl(a[1..]); }
  }

  /** Dropping the first element of the smaller side keeps a subsequence. */
  lemma {:induction false} Tail<T>(a: seq<T>, b: seq<T>)
    requires a != [] && Subseq(a, b)
    ensures b != [] && Subseq(a[1..], b[1..])
    decreases |b|
  {
    if !(a[0] == b[0] && Subseq(a[1..], b[1..])) {
      Tail(a, b[1..]);
      Skip(a[1..], b[1..]);
    }
  }

  lemma Skip<T>(a: seq<T>, b: seq<T>)
    requires b != [] && Subseq(a, b[1..])
    ensures Subseq(a, b)
  {
  }

  lemma {:induction false} Trans<T>(a: seq<T>, b: seq<T>, c: seq<T>)
    requires Subseq(a, b) && Subseq(b, c)
    ensures Subseq(a, c)
    decreases |c|, |b|
  {
    if a != [] {
      if b[0] == c[0] && Subseq(b[1..], c[1..]) {
        if a[0] == b[0] && Subseq(a[1..], b[1..]) {
          Trans(a[1..], b[1..], c[1..]);
        } else {
          Trans(a, b[1..], c[1..]);
        }
      } else {
        Trans(a, b, c[1..]);
      }
    }
  }

  lemma {:induction false} Concat<T>(a: seq<T>, b: seq<T>, c: seq<T>, d: seq<T>)
    requires Subseq(a, b) && Subseq(c, d)
    ensures Subseq(a + c, b + d)
    decreases |b|
  {
    if b == [] {
      assert a + c == c && b + d == d;
    } else {
      assert (b + d)[1..] == b[1..] + d;
      if a != [] && a[0] == b[0] && Subseq(a[1..], b[1..]) {
        Concat(a[1..], b[1..], c, d);
        assert (a + c)[1..] == a[1..] + c;
      } else {
        assert Subseq(a, b[1..]);
        Concat(a, b[1..], c, d);
      }
    }
  }

  /** Cutting a stretch out of the middle. */
  lemma Cut<T>(a: seq<T>, x: seq<T>, b: seq<T>)
    ensures Subseq(a + b, a + x + b)
  {
    Refl(a);
    Refl(b);
    assert Subseq([], x);
    Concat(a, a, [], x);
    assert a + [] == a;
    Concat(a, a + x, b, b);
  }
}
