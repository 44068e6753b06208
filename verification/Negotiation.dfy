/**
 * How the two ends of a secio handshake come to the same algorithms without another message: each
 * compares two hashes, and walks through the proposal of the end whose hash is larger.
 */
module Negotiation {
  import opened ByteStrings

  // ------------------------------------------------------------ lists as text

  const COMMA: byte := 44

  /** The pieces between commas; the empty text is one empty piece. */
  function Split(s: Bytes): (r: seq<Bytes>)
    ensures r != []
  {
    if s == [] then [[]]
    else
      var r := Split(s[1..]);
      if s[0] == COMMA then [[]] + r else [[s[0]] + r[0]] + r[1..]
  }

  /** The names with commas between them. */
  function Join(names: seq<Bytes>): (s: Bytes) {
    if names == [] then []
    else if |names| == 1 then names[0]
    else names[0] + ([COMMA] + Join(names[1..]))
  }

  lemma {:induction false} SplitFirst(name: Bytes, rest: Bytes)
    requires COMMA !in name
    ensures Split(name) == [name]
    ensures Split(name + ([COMMA] + rest)) == [name] + Split(rest)
  {
    var s := name + ([COMMA] + rest);
    if name == [] {
      assert s[0] == COMMA && s[1..] == rest;
    } else {
      SplitFirst(name[1..], rest);
      assert s[0] == name[0] && s[1..] == name[1..] + ([COMMA] + rest);
      assert [name[0]] + name[1..] == name;
    }
  }

  /** Splitting undoes joining, for one or more names without commas. */
  lemma {:induction false} SplitJoin(names: seq<Bytes>)
    requires names != [] && forall i :: 0 <= i < |names| ==> COMMA !in names[i]
    ensures Split(Join(names)) == names
  {
    if |names| == 1 {
      SplitFirst(names[0], []);
    } else {
      SplitJoin(names[1..]);
      SplitFirst(names[0], Join(names[1..]));
      assert names == [names[0]] + names[1..];
    }
  }

  /** The proposition functions: each name and a comma, and the last comma taken off again. */
  method Proposition(names: seq<Bytes>) returns (s: Bytes)
    ensures s == Join(names)
  {
    s := [];
    for i := 0 to |names|
      invariant s == WithCommas(names[..i])
    {
      assert names[..i + 1] == names[..i] + [names[i]];
      WithCommasSnoc(names[..i], names[i]);
      s := s + names[i];
      s := s + [COMMA];
    }
    assert names[..|names|] == names;
    WithCommasJoin(names);
    if s != [] {
      s := s[..|s| - 1];
    }
  }

  function WithCommas(names: seq<Bytes>): (s: Bytes)
    ensures names != [] ==> s != []
  {
    if names == [] then [] else names[0] + ([COMMA] + WithCommas(names[1..]))
  }

  lemma {:induction false} WithCommasSnoc(names: seq<Bytes>, name: Bytes)
    ensures WithCommas(names + [name]) == WithCommas(names) + name + [COMMA]
  {
    if names == [] {
      assert [] + [name] == [name] && [name][1..] == [];
      assert name + ([COMMA] + []) == [] + name + [COMMA];
    } else {
      WithCommasSnoc(names[1..], name);
      assert (names + [name])[0] == names[0] && (names + [name])[1..] == names[1..] + [name];
      var tail := WithCommas(names[1..]);
      assert names[0] + ([COMMA] + (tail + name + [COMMA])) == names[0] + ([COMMA] + tail) + name + [COMMA];
    }
  }

  lemma {:induction false} WithCommasJoin(names: seq<Bytes>)
    ensures names != [] ==> WithCommas(names) == Join(names) + [COMMA]
  {
    if |names| == 1 {
      assert [COMMA] + WithCommas([]) == [COMMA];
    } else if |names| > 1 {
      WithCommasJoin(names[1..]);
      var tail := Join(names[1..]);
      assert names[0] + ([COMMA] + (tail + [COMMA])) == names[0] + ([COMMA] + tail) + [COMMA];
    }
  }

  // ------------------------------------------------------------ choosing

  datatype Order = Less | Equal | Greater

  function Reverse(o: Order): (r: Order) {
    match o
    case Less => Greater
    case Equal => Equal
    case Greater => Less
  }

  /** The first piece that the other text also has, and that is the name of something known. */
  function FirstCommon<T>(known: Bytes -> Option<T>, pieces: seq<Bytes>, others: seq<Bytes>): (r: Option<T>)
    ensures r.None? <==> forall i :: 0 <= i < |pieces| ==> pieces[i] !in others || known(pieces[i]).None?
    ensures r.Some? ==>
      exists i :: 0 <= i < |pieces| && pieces[i] in others && known(pieces[i]) == r
        && forall j :: 0 <= j < i ==> pieces[j] !in others || known(pieces[j]).None?
  {
    if pieces == [] then None
    else if pieces[0] in others && known(pieces[0]).Some? then known(pieces[0])
    else FirstCommon(known, pieces[1..], others)
  }

  function Select<T>(known: Bytes -> Option<T>, r: Order, ours: Bytes, theirs: Bytes): (chosen: Option<T>) {
    if r == Greater then FirstCommon(known, Split(ours), Split(theirs))
    else FirstCommon(known, Split(theirs), Split(ours))
  }

  /** select_agreement, select_cipher and select_digest; they differ in the names they know. */
  method SelectFirst<T>(known: Bytes -> Option<T>, r: Order, ours: Bytes, theirs: Bytes) returns (chosen: Option<T>)
    ensures chosen == Select(known, r, ours, theirs)
  {
    var a, b;
    match r {
      case Less => a, b := theirs, ours;
      case Equal => a, b := theirs, ours;
      case Greater => a, b := ours, theirs;
    }
    var pieces, others := Split(a), Split(b);
    assert pieces[0..] == pieces;
    for i := 0 to |pieces|
      invariant FirstCommon(known, pieces, others) == FirstCommon(known, pieces[i..], others)
    {
      var x := pieces[i];
      assert pieces[i..][0] == x && pieces[i..][1..] == pieces[i + 1..];
      if x in others {
        var found := known(x);
        if found.Some? {
          return found;
        }
      }
    }
    return None;
  }

  // ------------------------------------------------------------ the algorithms

  datatype KeyAgreement = EcdhP256 | EcdhP384 | X25519

  datatype CipherType = Aes128Gcm | Aes256Gcm | ChaCha20Poly1305

  datatype Digest = Sha256 | Sha512

  function AgreementName(k: KeyAgreement): (name: Bytes)
    ensures COMMA !in name
  {
    match k
    case EcdhP256 => [80, 45, 50, 53, 54] // P-256
    case EcdhP384 => [80, 45, 51, 56, 52] // P-384
    case X25519 => [88, 50, 53, 53, 49, 57] // X25519
  }

  function CipherName(c: CipherType): (name: Bytes)
    ensures COMMA !in name
  {
    match c
    case Aes128Gcm => [65, 69, 83, 45, 49, 50, 56, 45, 71, 67, 77] // AES-128-GCM
    case Aes256Gcm => [65, 69, 83, 45, 50, 53, 54, 45, 71, 67, 77] // AES-256-GCM
    case ChaCha20Poly1305 => [67, 72, 65, 67, 72, 65, 50, 48, 95, 80, 79, 76, 89, 49, 51, 48, 53] // CHACHA20_POLY1305
  }

  function DigestName(d: Digest): (name: Bytes)
    ensures COMMA !in name
  {
    match d
    case Sha256 => [83, 72, 65, 50, 53, 54] // SHA256
    case Sha512 => [83, 72, 65, 53, 49, 50] // SHA512
  }

  function KnownAgreement(x: Bytes): (r: Option<KeyAgreement>)
    ensures forall k :: r == Some(k) <==> x == AgreementName(k)
  {
    Distinct();
    if x == AgreementName(EcdhP256) then Some(EcdhP256)
    else if x == AgreementName(EcdhP384) then Some(EcdhP384)
    else if x == AgreementName(X25519) then Some(X25519)
    else None
  }

  function KnownCipher(x: Bytes): (r: Option<CipherType>)
    ensures forall c :: r == Some(c) <==> x == CipherName(c)
  {
    Distinct();
    if x == CipherName(Aes128Gcm) then Some(Aes128Gcm)
    else if x == CipherName(Aes256Gcm) then Some(Aes256Gcm)
    else if x == CipherName(ChaCha20Poly1305) then Some(ChaCha20Poly1305)
    else None
  }

  function KnownDigest(x: Bytes): (r: Option<Digest>)
    ensures forall d :: r == Some(d) <==> x == DigestName(d)
  {
    Distinct();
    if x == DigestName(Sha256) then Some(Sha256)
    else if x == DigestName(Sha512) then Some(Sha512)
    else None
  }

  /** No two algorithms of a kind share a name. */
  lemma Distinct()
    ensures forall j, k :: AgreementName(j) == AgreementName(k) ==> j == k
    ensures forall j, k :: CipherName(j) == CipherName(k) ==> j == k
    ensures forall j, k :: DigestName(j) == DigestName(k) ==> j == k
  {
    assert AgreementName(EcdhP256)[2] != AgreementName(EcdhP384)[2];
    assert |AgreementName(X25519)| == 6;
    assert CipherName(Aes128Gcm)[4] != CipherName(Aes256Gcm)[4];
    assert |CipherName(ChaCha20Poly1305)| == 17;
    assert DigestName(Sha256)[3] != DigestName(Sha512)[3];
  }

  // ------------------------------------------------------- printed proposals

  function Names<T>(name: T -> Bytes, ts: seq<T>): (r: seq<Bytes>)
    ensures |r| == |ts| && forall i :: 0 <= i < |ts| ==> r[i] == name(ts[i])
  {
    seq(|ts|, i requires 0 <= i < |ts| => name(ts[i]))
  }

  /** The first of the preferred list that the other list has. */
  function FirstOf<T(==)>(preferred: seq<T>, other: seq<T>): (r: Option<T>)
    ensures r.None? <==> forall t :: t in preferred ==> t !in other
    ensures r.Some? ==> r.value in other
    ensures r.Some? ==>
      exists i :: 0 <= i < |preferred| && preferred[i] == r.value && forall j :: 0 <= j < i ==> preferred[j] !in other
  {
    if preferred == [] then None
    else if preferred[0] in other then Some(preferred[0])
    else FirstOf(preferred[1..], other)
  }

  /** Names and what they are known as go together. */
  ghost predicate Naming<T(!new)>(name: T -> Bytes, known: Bytes -> Option<T>) {
    && (forall t: T :: COMMA !in name(t))
    && (forall t: T, x: Bytes :: known(x) == Some(t) <==> x == name(t))
  }

  lemma {:induction false} FirstCommonOfNames<T(!new)>(
    name: T -> Bytes, known: Bytes -> Option<T>, preferred: seq<T>, other: seq<T>, others: seq<Bytes>)
    requires Naming(name, known)
    requires forall t: T :: name(t) in others <==> t in other
    ensures FirstCommon(known, Names(name, preferred), others) == FirstOf(preferred, other)
  {
    if preferred != [] {
      assert known(name(preferred[0])) == Some(preferred[0]);
      assert Names(name, preferred)[1..] == Names(name, preferred[1..]);
      FirstCommonOfNames(name, known, preferred[1..], other, others);
    }
  }

  lemma PiecesOfPrinted<T(!new)>(name: T -> Bytes, known: Bytes -> Option<T>, ts: seq<T>)
    requires Naming(name, known)
    ensures var pieces := Split(Join(Names(name, ts)));
      && (ts != [] ==> pieces == Names(name, ts))
      && (ts == [] ==> pieces == [[]])
      && forall t: T :: name(t) in pieces <==> t in ts || (ts == [] && name(t) == [])
  {
    var names := Names(name, ts);
    if ts != [] {
      SplitJoin(names);
      forall t: T
        ensures name(t) in names <==> t in ts
      {
        if t in ts {
          var i :| 0 <= i < |ts| && ts[i] == t;
          assert names[i] == name(t);
        }
        if name(t) in names {
          var i :| 0 <= i < |names| && names[i] == name(t);
          assert known(name(ts[i])) == Some(ts[i]) && known(name(t)) == Some(t);
        }
      }
    }
  }

  /** On printed proposals the choice is the preferred end's first entry that the other end lists. */
  lemma SelectOnPrinted<T(!new)>(name: T -> Bytes, known: Bytes -> Option<T>, r: Order, ours: seq<T>, theirs: seq<T>)
    requires Naming(name, known) && forall t: T :: name(t) != []
    ensures Select(known, r, Join(Names(name, ours)), Join(Names(name, theirs)))
         == if r == Greater then FirstOf(ours, theirs) else FirstOf(theirs, ours)
  {
    PiecesOfPrinted(name, known, ours);
    PiecesOfPrinted(name, known, theirs);
    var a, b := if r == Greater then ours else theirs, if r == Greater then theirs else ours;
    var others := Split(Join(Names(name, b)));
    if a == [] {
      assert known([]) == None;
      assert FirstCommon(known, [[]], others) == FirstCommon(known, [], others);
    } else {
      FirstCommonOfNames(name, known, a, b, others);
    }
  }

  lemma NamesGoTogether()
    ensures Naming(AgreementName, KnownAgreement) && (forall k :: AgreementName(k) != [])
    ensures Naming(CipherName, KnownCipher) && (forall c :: CipherName(c) != [])
    ensures Naming(DigestName, KnownDigest) && (forall d :: DigestName(d) != [])
  {
  }

  // ------------------------------------------------------------ which end is preferred

  /** Byte strings in dictionary order. */
  function Compare(a: Bytes, b: Bytes): (o: Order)
    ensures o == Equal <==> a == b
  {
    if a == [] && b == [] then Equal
    else if a == [] then Less
    else if b == [] then Greater
    else if a[0] < b[0] then Less
    else if a[0] > b[0] then Greater
    else
      assert a == [a[0]] + a[1..] && b == [b[0]] + b[1..];
      Compare(a[1..], b[1..])
  }

  lemma {:induction false} CompareReverses(a: Bytes, b: Bytes)
    ensures Compare(b, a) == Reverse(Compare(a, b))
  {
    if a != [] && b != [] {
      CompareReverses(a[1..], b[1..]);
    }
  }

  /** The larger of two byte strings: at the first place where they differ, or because it is longer. */
  ghost predicate Larger(a: Bytes, b: Bytes) {
    b < a || exists i :: 0 <= i < |a| && i < |b| && a[..i] == b[..i] && a[i] > b[i]
  }

  lemma {:induction false} CompareIsLarger(a: Bytes, b: Bytes)
    ensures Compare(a, b) == Greater <==> Larger(a, b)
    ensures Compare(a, b) == Less <==> Larger(b, a)
  {
    if a != [] && b != [] {
      if a[0] == b[0] {
        CompareIsLarger(a[1..], b[1..]);
        LargerTail(a, b);
        LargerTail(b, a);
      } else {
        LargerHead(a, b);
        LargerHead(b, a);
      }
    }
  }

  lemma LargerTail(a: Bytes, b: Bytes)
    requires a != [] && b != [] && a[0] == b[0]
    ensures Larger(a, b) <==> Larger(a[1..], b[1..])
  {
    assert a == [a[0]] + a[1..] && b == [b[0]] + b[1..];
    assert b < a <==> b[1..] < a[1..];
    if i :| 0 <= i < |a| && i < |b| && a[..i] == b[..i] && a[i] > b[i] {
      assert a[1..][..i - 1] == a[..i][1..] && b[1..][..i - 1] == b[..i][1..];
      assert a[1..][i - 1] > b[1..][i - 1];
    }
    if i :| 0 <= i < |a[1..]| && i < |b[1..]| && a[1..][..i] == b[1..][..i] && a[1..][i] > b[1..][i] {
      assert a[..i + 1] == [a[0]] + a[1..][..i] && b[..i + 1] == [b[0]] + b[1..][..i];
      assert a[i + 1] > b[i + 1];
    }
  }

  lemma LargerHead(a: Bytes, b: Bytes)
    requires a != [] && b != [] && a[0] != b[0]
    ensures Larger(a, b) <==> a[0] > b[0]
  {
    assert !(b < a);
    forall i | 0 < i < |a| && i < |b|
      ensures a[..i] != b[..i]
    {
      assert a[..i][0] == a[0] && b[..i][0] == b[0];
    }
    if a[0] > b[0] {
      assert a[..0] == b[..0];
    }
  }
}
