/** In-order subsequences, shared by the reducer (what may be deleted) and the
    kiosk client (what may be lost). */
module Subsequences {

  /** `a` can be obtained from `b` by deleting elements. */
  predicate IsSubseq<T(==)>(a: seq<T>, b: seq<T>)
    decreases |b|
  {
    if a == [] then true
    else if b == [] then false
    else (a[0] == b[0] && IsSubseq(a[1..], b[1..])) || IsSubseq(a, b[1..])
  }

  function Without<T>(s: seq<T>, i: nat): seq<T>
    requires i < |s|
  {
    s[..i] + s[i + 1..]
  }

  lemma SubseqRefl<T>(a: seq<T>)
    ensures IsSubseq(a, a)
  {
    if a != [] {
      SubseqRefl(a[1..]);
    }
  }

  /** Dropping the head of a subsequence keeps it one, of the same sequence. */
  lemma {:induction false} SubseqTail<T>(a: seq<T>, b: seq<T>)
    requires a != [] && IsSubseq(a, b)
    ensures IsSubseq(a[1..], b)
    decreases |b|
  {
    if IsSubseq(a, b[1..]) {
      SubseqTail(a, b[1..]);
      SubseqExtend(a[1..], b);
    } else {
      SubseqExtend(a[1..], b);
    }
  }

  lemma SubseqExtend<T>(a: seq<T>, b: seq<T>)
    requires b != [] && IsSubseq(a, b[1..])
    ensures IsSubseq(a, b)
  {
  }

  lemma {:induction false} SubseqTrans<T>(a: seq<T>, b: seq<T>, c: seq<T>)
    requires IsSubseq(a, b) && IsSubseq(b, c)
    ensures IsSubseq(a, c)
    decreases |c|, |b|
  {
    if a == [] || b == [] {
    } else if IsSubseq(b, c[1..]) {
      SubseqTrans(a, b, c[1..]);
    } else if IsSubseq(a, b[1..]) {
      SubseqTrans(a, b[1..], c[1..]);
    } else {
      SubseqTrans(a[1..], b[1..], c[1..]);
    }
  }

  lemma {:induction false} SubseqLength<T>(a: seq<T>, b: seq<T>)
    requires IsSubseq(a, b)
    ensures |a| <= |b|
    ensures |a| == |b| ==> a == b
    decreases |b|
  {
    if a == [] || b == [] {
    } else if IsSubseq(a, b[1..]) {
      SubseqLength(a, b[1..]);
    } else {
      SubseqLength(a[1..], b[1..]);
      assert a == [a[0]] + a[1..] && b == [b[0]] + b[1..];
    }
  }

  lemma {:induction false} SubseqSuffix<T>(b: seq<T>, j: nat)
    requires j <= |b|
    ensures IsSubseq(b[j..], b)
    decreases j
  {
    if j == 0 {
      SubseqRefl(b);
      assert b[0..] == b;
    } else {
      SubseqSuffix(b[1..], j - 1);
      assert b[1..][j - 1..] == b[j..];
    }
  }

  /** Cutting the slice [i, j) out of a sequence leaves a subsequence of it. */
  lemma {:induction false} CutIsSubseq<T>(b: seq<T>, i: nat, j: nat)
    requires i <= j <= |b|
    ensures IsSubseq(b[..i] + b[j..], b)
    decreases i
  {
    if i == 0 {
      assert b[..0] + b[j..] == b[j..];
      SubseqSuffix(b, j);
    } else {
      CutIsSubseq(b[1..], i - 1, j - 1);
      var c := b[..i] + b[j..];
      assert c[1..] == b[1..][..i - 1] + b[1..][j - 1..];
    }
  }

  /** A proper subsequence can do without at least one position. */
  lemma {:induction false} ProperSubseqMisses<T>(a: seq<T>, b: seq<T>) returns (i: nat)
    requires IsSubseq(a, b) && |a| < |b|
    ensures i < |b| && IsSubseq(a, Without(b, i))
    decreases |b|
  {
    if IsSubseq(a, b[1..]) {
      i := 0;
      assert Without(b, 0) == b[1..];
    } else {
      var k := ProperSubseqMisses(a[1..], b[1..]);
      i := k + 1;
      var w := Without(b, i);
      assert w[0] == b[0] && w[1..] == Without(b[1..], k);
    }
  }

  lemma {:induction false} SubseqAppend<T>(a: seq<T>, b: seq<T>, c: seq<T>, d: seq<T>)
    requires IsSubseq(a, b) && IsSubseq(c, d)
    ensures IsSubseq(a + c, b + d)
    decreases |b|
  {
    if b == [] {
      assert a + c == c && b + d == d;
    } else if a == [] {
      SubseqAppend(a, b[1..], c, d);
      assert (b + d)[1..] == b[1..] + d;
    } else if IsSubseq(a, b[1..]) {
      SubseqAppend(a, b[1..], c, d);
      assert (b + d)[1..] == b[1..] + d;
    } else {
      SubseqAppend(a[1..], b[1..], c, d);
      assert (a + c)[1..] == a[1..] + c && (b + d)[1..] == b[1..] + d;
    }
  }
}
