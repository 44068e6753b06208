/** Byte strings and the fixed-width unsigned integers the wire formats are made of. */
module ByteStrings {

  type byte = x: int | 0 <= x < 0x100
  type u16 = x: int | 0 <= x < 0x1_0000
  type u32 = x: int | 0 <= x < 0x1_0000_0000
  type Bytes = seq<byte>

  const MAX_U32: u32 := 0xFFFF_FFFF

  datatype Option<+T> = None | Some(value: T)

  datatype Result<+T, +E> = Success(value: T) | Failure(error: E)

  /** Release-mode arithmetic on u32: the result modulo 2^32. */
  function Wrap32(x: int): (r: u32)
    ensures 0 <= x < 0x1_0000_0000 ==> r == x
  {
    x % 0x1_0000_0000
  }

  function Min(a: nat, b: nat): (r: nat)
    ensures r <= a && r <= b && (r == a || r == b)
  {
    if a <= b then a else b
  }

  /** Concatenation of a list of chunks. */
  function Flatten<T>(chunks: seq<seq<T>>): (r: seq<T>) {
    if chunks == [] then [] else chunks[0] + Flatten(chunks[1..])
  }

  lemma {:induction false} FlattenAppend<T>(a: seq<seq<T>>, b: seq<seq<T>>)
    ensures Flatten(a + b) == Flatten(a) + Flatten(b)
  {
    if a == [] {
      assert a + b == b;
    } else {
      var tail := Flatten(a[1..]);
      assert Flatten(a + b) == a[0] + (tail + Flatten(b)) by {
        FlattenAppend(a[1..], b);
        assert (a + b)[0] == a[0] && (a + b)[1..] == a[1..] + b;
      }
      assert Flatten(a) == a[0] + tail;
    }
  }

  lemma FlattenSnoc<T>(a: seq<seq<T>>, x: seq<T>)
    ensures Flatten(a + [x]) == Flatten(a) + x
  {
    FlattenAppend(a, [x]);
    assert Flatten([x]) == x + Flatten<T>([]);
  }

  lemma Assoc<T>(a: seq<T>, b: seq<T>, c: seq<T>)
    ensures (a + b) + c == a + (b + c)
  {
  }

  /** Concatenation can be regrouped. */
  lemma Regroup<T>(a: seq<T>, b: seq<T>, c: seq<T>, d: seq<T>)
    ensures (a + b) + (c + d) == a + ((b + c) + d)
  {
  }

  /** Big-endian encodings, as written by put_u16 and put_u32. */
  function Be16(n: u16): (b: Bytes)
    ensures |b| == 2
  {
    [n / 0x100, n % 0x100]
  }

  function UnBe16(b: Bytes): (n: u16)
    requires |b| == 2
    ensures Be16(n) == b
  {
    var hi: int, lo: int := b[0], b[1];
    hi * 0x100 + lo
  }

  function Be32(n: u32): (b: Bytes)
    ensures |b| == 4
  {
    Be16(n / 0x1_0000) + Be16(n % 0x1_0000)
  }

  function UnBe32(b: Bytes): (n: u32)
    requires |b| == 4
    ensures Be32(n) == b
  {
    var hi: int, lo: int := UnBe16(b[..2]), UnBe16(b[2..]);
    assert b == b[..2] + b[2..];
    hi * 0x1_0000 + lo
  }

  lemma UnBe32Inverts(n: u32)
    ensures UnBe32(Be32(n)) == n
  {
    assert Be32(n)[..2] == Be16(n / 0x1_0000) && Be32(n)[2..] == Be16(n % 0x1_0000);
  }

  type u64 = x: int | 0 <= x < 0x1_0000_0000_0000_0000

  function Be64(n: u64): (b: Bytes)
    ensures |b| == 8
  {
    Be32(n / 0x1_0000_0000) + Be32(n % 0x1_0000_0000)
  }

  function UnBe64(b: Bytes): (n: u64)
    requires |b| == 8
    ensures Be64(n) == b
  {
    var hi: int, lo: int := UnBe32(b[..4]), UnBe32(b[4..]);
    var n := hi * 0x1_0000_0000 + lo;
    assert n / 0x1_0000_0000 == hi && n % 0x1_0000_0000 == lo;
    assert b == b[..4] + b[4..];
    n
  }

  lemma UnBe64Inverts(n: u64)
    ensures UnBe64(Be64(n)) == n
  {
    var hi, lo := n / 0x1_0000_0000, n % 0x1_0000_0000;
    assert Be64(n)[..4] == Be32(hi) && Be64(n)[4..] == Be32(lo);
    UnBe32Inverts(hi);
    UnBe32Inverts(lo);
  }

  /** A growable byte buffer. */
  class ByteBuffer {
    var data: Bytes

    constructor ()
      ensures data == []
    {
      data := [];
    }

    method SplitTo(n: nat) returns (front: Bytes)
      requires n <= |data|
      modifies this
      ensures old(data) == front + data && |front| == n
    {
      front := data[..n];
      data := data[n..];
    }

    method Put(more: Bytes)
      modifies this
      ensures data == old(data) + more
    {
      data := data + more;
    }
  }
}
