/** The per-message nonce of a secio cipher: a little-endian counter advanced in place. */
module SecioNonce {
  import opened ByteStrings

  function Pow256(n: nat): (p: nat)
    ensures p > 0
  {
    if n == 0 then 1 else 256 * Pow256(n - 1)
  }

  /** The number a little-endian byte string stands for. */
  function Value(b: Bytes): (n: nat) {
    if b == [] then 0 else b[0] + 256 * Value(b[1..])
  }

  lemma {:induction false} ValueBound(b: Bytes)
    ensures Value(b) < Pow256(|b|)
  {
    if b != [] {
      ValueBound(b[1..]);
    }
  }

  lemma {:induction false} ValueInjective(a: Bytes, b: Bytes)
    requires |a| == |b| && Value(a) == Value(b)
    ensures a == b
  {
    if a != [] {
      var x, y := Value(a[1..]), Value(b[1..]);
      assert a[0] + 256 * x == b[0] + 256 * y;
      assert a[0] == b[0] && x == y;
      ValueInjective(a[1..], b[1..]);
      assert a == [a[0]] + a[1..] && b == [b[0]] + b[1..];
    }
  }

  /** The carry: trailing 255s of the low end become 0, and the next byte is one more. */
  function Advance(b: Bytes): (r: Bytes)
    ensures |r| == |b|
  {
    if b == [] then [] else if b[0] == 255 then [0] + Advance(b[1..]) else [b[0] + 1] + b[1..]
  }

  /** Advancing is adding one, modulo 256 to the number of bytes. */
  lemma {:induction false} AdvanceIsSuccessor(b: Bytes)
    ensures Value(Advance(b)) == if Value(b) + 1 == Pow256(|b|) then 0 else Value(b) + 1
  {
    if b != [] {
      ValueBound(b[1..]);
      if b[0] == 255 {
        AdvanceIsSuccessor(b[1..]);
        assert Advance(b)[1..] == Advance(b[1..]);
      } else {
        assert Advance(b)[1..] == b[1..];
      }
    }
  }

  /** The carry runs over the first i bytes and stops there. */
  lemma {:induction false} CarryStops(b: Bytes, i: nat)
    requires i <= |b| && (forall j :: 0 <= j < i ==> b[j] == 255)
    requires i == |b| || b[i] != 255
    ensures forall j :: 0 <= j < |b| ==> Advance(b)[j] == if j < i then 0 else if j == i then b[j] + 1 else b[j]
  {
    if i > 0 {
      CarryStops(b[1..], i - 1);
      forall j | 0 <= j < |b|
        ensures Advance(b)[j] == if j < i then 0 else if j == i then b[j] + 1 else b[j]
      {
        assert j > 0 ==> Advance(b)[j] == Advance(b[1..])[j - 1];
      }
    }
  }

  method NonceAdvance(nonce: array<byte>)
    modifies nonce
    ensures nonce[..] == Advance(old(nonce[..]))
  {
    var i := 0;
    while i < nonce.Length
      invariant i <= nonce.Length
      invariant forall j :: 0 <= j < i ==> old(nonce[j]) == 255 && nonce[j] == 0
      invariant forall j :: i <= j < nonce.Length ==> nonce[j] == old(nonce[j])
    {
      if nonce[i] == 255 {
        nonce[i] := 0;
      } else {
        CarryStops(old(nonce[..]), i);
        nonce[i] := nonce[i] + 1;
        return;
      }
      i := i + 1;
    }
    CarryStops(old(nonce[..]), i);
  }

  // -------------------------------------------------------- the k-th message

  function Zeros(len: nat): (b: Bytes)
    ensures |b| == len
  {
    seq(len, i => 0)
  }

  /** The nonce after k messages; the first message uses Nonce(len, 1). */
  function Nonce(len: nat, k: nat): (b: Bytes)
    ensures |b| == len
  {
    if k == 0 then Zeros(len) else Advance(Nonce(len, k - 1))
  }

  lemma {:induction false} ZerosValue(len: nat)
    ensures Value(Zeros(len)) == 0
  {
    if len > 0 {
      ZerosValue(len - 1);
      assert Zeros(len)[1..] == Zeros(len - 1);
    }
  }

  lemma {:induction false} NonceCounts(len: nat, k: nat)
    ensures Value(Nonce(len, k)) == k % Pow256(len)
  {
    var m := Pow256(len);
    if k == 0 {
      ZerosValue(len);
    } else {
      NonceCounts(len, k - 1);
      AdvanceIsSuccessor(Nonce(len, k - 1));
      NextMod(k - 1, m);
    }
  }

  lemma NextMod(k: nat, m: nat)
    requires m > 0
    ensures (k + 1) % m == if k % m + 1 == m then 0 else k % m + 1
  {
    var q, r := k / m, k % m;
    assert k == q * m + r;
    if r + 1 == m {
      assert k + 1 == (q + 1) * m;
      ModUnique(k + 1, m, q + 1, 0);
    } else {
      ModUnique(k + 1, m, q, r + 1);
    }
  }

  lemma ModUnique(k: nat, m: nat, q: nat, r: nat)
    requires m > 0 && k == q * m + r && r < m
    ensures k % m == r
  {
    var q', r' := k / m, k % m;
    assert k == m * q' + r' && 0 <= r' < m;
    if q < q' {
      MulStep(q, q', m);
    } else if q' < q {
      MulStep(q', q, m);
    }
  }

  lemma MulStep(a: nat, b: nat, m: nat)
    requires a < b
    ensures a * m + m <= b * m
  {
    assert b * m == a * m + (b - a) * m;
    assert (b - a) * m == m + (b - a - 1) * m;
  }

  /** Two messages share a nonce exactly when their numbers agree modulo 256 to the length. */
  lemma NoncesRepeat(len: nat, i: nat, j: nat)
    ensures Nonce(len, i) == Nonce(len, j) <==> i % Pow256(len) == j % Pow256(len)
  {
    NonceCounts(len, i);
    NonceCounts(len, j);
    if Value(Nonce(len, i)) == Value(Nonce(len, j)) {
      ValueInjective(Nonce(len, i), Nonce(len, j));
    }
  }

  /** So the nonces of the first 256^len messages are all different. */
  lemma NoncesDistinct(len: nat, i: nat, j: nat)
    requires 1 <= i < j <= Pow256(len)
    ensures Nonce(len, i) != Nonce(len, j)
  {
    NoncesRepeat(len, i, j);
    var m := Pow256(len);
    ModUnique(i, m, 0, i);
    if j < m {
      ModUnique(j, m, 0, j);
    } else {
      ModUnique(j, m, 1, 0);
    }
  }
}
