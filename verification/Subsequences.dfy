/** Sequences with some elements taken out. */
module Subsequences {
  /** a is what is left of b after some elements are taken out. */
  predicate IsSubseq<T(==)>(a: seq<T>, b: seq<T>)
    decreases |b|
  {
    a == [] || (b != [] && (if a[0] == b[0] then IsSubseq(a[1..], b[1..]) else IsSubseq(a, b[1..])))
  }

  lemma {:induction false} SubseqSelf<T>(a: seq<T>)
    ensures IsSubseq(a, a)
  {
    if a != [] {
      SubseqSelf(a[1..]);
    }
  }

  lemma {:induction false} SubseqSkip<T>(a: seq<T>, b: seq<T>)
    requires b != [] && IsSubseq(a, b[1..])
    ensures IsSubseq(a, b)
    decreases |b|, 0
  {
    if a != [] && a[0] == b[0] {
      SubseqTail(a, b[1..]);
    }
  }

  lemma {:induction false} SubseqTail<T>(a: seq<T>, b: seq<T>)
    requires a != [] && IsSubseq(a, b)
    ensures IsSubseq(a[1..], b)
    decreases |b|, 1
  {
    if a[0] == b[0] {
      SubseqSkip(a[1..], b);
    } else {
      SubseqTail(a, b[1..]);
      SubseqSkip(a[1..], b);
    }
  }

  lemma {:induction false} SubseqTrans<T>(a: seq<T>, b: seq<T>, c: seq<T>)
    requires IsSubseq(a, b) && IsSubseq(b, c)
    ensures IsSubseq(a, c)
    decreases |c|
  {
    if a != [] {
      if b[0] == c[0] {
        if a[0] == b[0] {
          SubseqTrans(a[1..], b[1..], c[1..]);
        } else {
          SubseqTrans(a, b[1..], c[1..]);
        }
      } else {
        SubseqTrans(a, b, c[1..]);
        SubseqSkip(a, c);
      }
    }
  }

  lemma {:induction false} SubseqGrow<T>(a: seq<T>, b: seq<T>, more: seq<T>)
    requires IsSubseq(a, b)
    ensures IsSubseq(a + more, b + more)
    decreases |b|
  {
    if b == [] {
      assert a + more == more && b + more == more;
      SubseqSelf(more);
    } else if a != [] && a[0] == b[0] {
      SubseqGrow(a[1..], b[1..], more);
      assert (a + more)[1..] == a[1..] + more && (b + more)[1..] == b[1..] + more;
    } else {
      SubseqGrow(a, b[1..], more);
      assert (b + more)[1..] == b[1..] + more;
      SubseqSkip(a + more, b + more);
    }
  }

  /** Dropping a stretch from the middle leaves a subsequence. */
  lemma {:induction false} SubseqCut<T>(a: seq<T>, cut: seq<T>, c: seq<T>)
    ensures IsSubseq(a + c, a + cut + c)
    decreases |a|, |cut|
  {
    if a != [] {
      SubseqCut(a[1..], cut, c);
      assert (a + c)[1..] == a[1..] + c && (a + cut + c)[1..] == a[1..] + cut + c;
    } else if cut != [] {
      SubseqCut(a, cut[1..], c);
      assert (a + cut + c)[1..] == a + cut[1..] + c;
      SubseqSkip(a + c, a + cut + c);
    } else {
      assert a + cut + c == a + c;
      SubseqSelf(a + c);
    }
  }

  lemma {:induction false} SubseqMember<T>(a: seq<T>, b: seq<T>, x: T)
    requires IsSubseq(a, b) && x in a
    ensures x in b
    decreases |b|
  {
    if a[0] == b[0] {
      if x != a[0] {
        SubseqMember(a[1..], b[1..], x);
      }
    } else {
      SubseqMember(a, b[1..], x);
    }
  }
}
