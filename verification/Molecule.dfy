/**
 * The molecule layout shared by tables and dynamic vectors: the total size, one offset for each
 * item, and the items, all numbers little-endian. Readers check the header once and then index
 * without further checks; writers compute the offsets and append.
 */
module Molecule {
  import opened ByteStrings

  const NUMBER_SIZE: nat := 4

  // ------------------------------------------------------------------- numbers

  function Pack(n: u32): (b: Bytes)
    ensures |b| == NUMBER_SIZE
  {
    [n % 0x100, n / 0x100 % 0x100, n / 0x1_0000 % 0x100, n / 0x100_0000]
  }

  function Unpack(b: Bytes): (n: u32)
    requires |b| == NUMBER_SIZE
    ensures Pack(n) == b
  {
    var b0: int, b1: int, b2: int, b3: int := b[0], b[1], b[2], b[3];
    var n := b0 + 0x100 * b1 + 0x1_0000 * b2 + 0x100_0000 * b3;
    assert n / 0x100 == b1 + 0x100 * b2 + 0x1_0000 * b3;
    assert n / 0x1_0000 == b2 + 0x100 * b3;
    assert n / 0x100_0000 == b3;
    n
  }

  lemma UnpackInverts(n: u32)
    ensures Unpack(Pack(n)) == n
  {
    PackInjective(Unpack(Pack(n)), n);
  }

  lemma PackInjective(m: u32, n: u32)
    requires Pack(m) == Pack(n)
    ensures m == n
  {
    Digits(m);
    Digits(n);
    assert Pack(m)[0] == Pack(n)[0] && Pack(m)[1] == Pack(n)[1] && Pack(m)[2] == Pack(n)[2] && Pack(m)[3] == Pack(n)[3];
  }

  lemma Digits(n: u32)
    ensures n == n % 0x100 + 0x100 * (n / 0x100 % 0x100) + 0x1_0000 * (n / 0x1_0000 % 0x100)
                 + 0x100_0000 * (n / 0x100_0000)
  {
    assert n / 0x100 / 0x100 == n / 0x1_0000;
    assert n / 0x1_0000 / 0x100 == n / 0x100_0000;
  }

  /** The number that starts at the given place. */
  function Number(slice: Bytes, at: nat): (n: u32)
    requires at + NUMBER_SIZE <= |slice|
    ensures Pack(n) == slice[at..at + NUMBER_SIZE]
  {
    Unpack(slice[at..at + NUMBER_SIZE])
  }

  lemma NumberIs(slice: Bytes, at: nat, n: u32)
    requires at + NUMBER_SIZE <= |slice| && slice[at..at + NUMBER_SIZE] == Pack(n)
    ensures Number(slice, at) == n
  {
    UnpackInverts(n);
  }

  // ------------------------------------------------------------------- writing

  /** Where each item starts, if the first one starts at the given place. */
  function Offsets(items: seq<Bytes>, start: nat): (r: seq<nat>)
    ensures |r| == |items|
  {
    if items == [] then [] else [start] + Offsets(items[1..], start + |items[0]|)
  }

  /** The numbers, each cut off at 32 bits, one after the other. */
  function PackAll(ns: seq<nat>): (b: Bytes)
    ensures |b| == NUMBER_SIZE * |ns|
  {
    if ns == [] then [] else Pack(Wrap32(ns[0])) + PackAll(ns[1..])
  }

  function HeaderSize(count: nat): (n: nat) { NUMBER_SIZE * (count + 1) }

  function TotalSize(items: seq<Bytes>): (n: nat) { HeaderSize(|items|) + |Flatten(items)| }

  function Laid(items: seq<Bytes>): (b: Bytes)
    ensures |b| == TotalSize(items)
  {
    Pack(Wrap32(TotalSize(items))) + (PackAll(Offsets(items, HeaderSize(|items|))) + Flatten(items))
  }

  /** What the total size has room for. */
  predicate Fits(items: seq<Bytes>) { TotalSize(items) <= MAX_U32 }

  // ------------------------------------------------------------------- reading

  /** k numbers, from the given place on. */
  function ReadNumbers(slice: Bytes, at: nat, k: nat): (r: seq<nat>)
    requires at + NUMBER_SIZE * k <= |slice|
    ensures |r| == k
    decreases k
  {
    if k == 0 then [] else [Number(slice, at)] + ReadNumbers(slice, at + NUMBER_SIZE, k - 1)
  }

  /** The number of items, if the header is whole and the total size is right. */
  function CountOf(slice: Bytes): (r: Option<nat>)
    ensures r.Some? ==> HeaderSize(r.value) <= |slice| && (r.value == 0 ==> |slice| == NUMBER_SIZE)
    ensures r.Some? ==> Number(slice, 0) == |slice|
    ensures r.Some? && r.value > 0 ==> Number(slice, NUMBER_SIZE) == HeaderSize(r.value)
  {
    if |slice| < NUMBER_SIZE then None
    else if Number(slice, 0) != |slice| then None
    else if |slice| == NUMBER_SIZE then Some(0)
    else if |slice| < NUMBER_SIZE * 2 then None
    else
      var first := Number(slice, NUMBER_SIZE);
      if first % NUMBER_SIZE != 0 || first < NUMBER_SIZE * 2 then None
      else
        var count := first / NUMBER_SIZE - 1;
        if |slice| < NUMBER_SIZE * (count + 1) then None else Some(count)
  }

  predicate Adjacent(offsets: seq<nat>) {
    forall i :: 0 <= i < |offsets| - 1 ==> offsets[i] <= offsets[i + 1]
  }

  /** The offsets of a checked header, with the end of the last item. */
  function ReadOffsets(slice: Bytes): (r: Option<seq<nat>>) {
    match CountOf(slice)
    case None => None
    case Some(count) =>
      var offsets := ReadNumbers(slice, NUMBER_SIZE, count) + [|slice|];
      if Adjacent(offsets) then Some(offsets) else None
  }

  predicate Within(offsets: seq<nat>, n: nat) { forall i :: 0 <= i < |offsets| ==> offsets[i] <= n }

  lemma AdjacentTail(offsets: seq<nat>)
    requires offsets != [] && Adjacent(offsets)
    ensures Adjacent(offsets[1..])
  {
    var tail := offsets[1..];
    forall i | 0 <= i < |tail| - 1
      ensures tail[i] <= tail[i + 1]
    {
      assert offsets[i + 1] <= offsets[i + 1 + 1];
    }
  }

  lemma {:induction false} AdjacentWithin(offsets: seq<nat>)
    requires offsets != [] && Adjacent(offsets)
    ensures Within(offsets, offsets[|offsets| - 1])
  {
    if |offsets| > 1 {
      var tail := offsets[1..];
      AdjacentTail(offsets);
      AdjacentWithin(tail);
      assert offsets[0] <= offsets[1] == tail[0];
      assert forall i :: 0 < i < |offsets| ==> offsets[i] == tail[i - 1];
    }
  }

  /** The pieces between consecutive offsets. */
  function Cut(slice: Bytes, offsets: seq<nat>): (r: seq<Bytes>)
    requires Adjacent(offsets) && Within(offsets, |slice|)
    ensures |r| == if offsets == [] then 0 else |offsets| - 1
    ensures forall i :: 0 <= i < |r| ==> r[i] == slice[offsets[i]..offsets[i + 1]]
  {
    var count := if offsets == [] then 0 else |offsets| - 1;
    seq(count, i requires 0 <= i < |offsets| - 1 => slice[offsets[i]..offsets[i + 1]])
  }

  /** The items of a slice, if its header passes. */
  function Items(slice: Bytes): (r: Option<seq<Bytes>>) {
    match ReadOffsets(slice)
    case None => None
    case Some(offsets) =>
      AdjacentWithin(offsets);
      Some(Cut(slice, offsets))
  }

  // ------------------------------------------------------------------ accessors

  function ItemCount(slice: Bytes): (n: nat)
    requires Items(slice).Some?
    ensures n == |Items(slice).value|
  {
    if Number(slice, 0) == NUMBER_SIZE then 0 else Number(slice, NUMBER_SIZE) / NUMBER_SIZE - 1
  }

  lemma {:induction false} NumbersAt(slice: Bytes, at: nat, k: nat, i: nat)
    requires at + NUMBER_SIZE * k <= |slice| && i < k
    ensures ReadNumbers(slice, at, k)[i] == Number(slice, at + NUMBER_SIZE * i)
    decreases k
  {
    if i > 0 {
      NumbersAt(slice, at + NUMBER_SIZE, k - 1, i - 1);
    }
  }

  /** The places an item lies between are in its header, in order, and in the slice. */
  lemma ItemLies(slice: Bytes, idx: nat) returns (start: nat, end: nat)
    requires Items(slice).Some? && idx < ItemCount(slice)
    ensures start <= end <= |slice| && Items(slice).value[idx] == slice[start..end]
    ensures HeaderSize(idx + 1) <= |slice| && Number(slice, NUMBER_SIZE * (1 + idx)) == start
    ensures if idx == ItemCount(slice) - 1 then end == |slice|
      else HeaderSize(idx + 2) <= |slice| && Number(slice, NUMBER_SIZE * (2 + idx)) == end
  {
    hide Number;
    var offsets, count := ReadOffsets(slice).value, ItemCount(slice);
    AdjacentWithin(offsets);
    NumbersAt(slice, NUMBER_SIZE, count, idx);
    start, end := offsets[idx], offsets[idx + 1];
    if idx < count - 1 {
      NumbersAt(slice, NUMBER_SIZE, count, idx + 1);
    }
  }

  /** Every unchecked access to a slice that passes is in bounds, and hits the item. */
  lemma ItemInBounds(slice: Bytes, idx: nat)
    requires Items(slice).Some? && idx < ItemCount(slice)
    ensures HeaderSize(idx + 1) <= |slice|
    ensures var start := Number(slice, NUMBER_SIZE * (1 + idx));
      if idx == ItemCount(slice) - 1 then start <= |slice| && Items(slice).value[idx] == slice[start..]
      else
        && HeaderSize(idx + 2) <= |slice|
        && var end := Number(slice, NUMBER_SIZE * (2 + idx));
           start <= end <= |slice| && Items(slice).value[idx] == slice[start..end]
  {
    hide Number, Items;
    var start, end := ItemLies(slice, idx);
    assert slice[start..] == slice[start..|slice|];
  }

  /** get_unchecked and the field accessors: two numbers of the header, and the bytes between. */
  function Item(slice: Bytes, idx: nat): (r: Bytes)
    requires Items(slice).Some? && idx < ItemCount(slice)
    ensures r == Items(slice).value[idx]
  {
    ItemInBounds(slice, idx);
    var start := Number(slice, NUMBER_SIZE * (1 + idx));
    if idx == ItemCount(slice) - 1 then slice[start..]
    else slice[start..Number(slice, NUMBER_SIZE * (2 + idx))]
  }

  // ------------------------------------------------- what passes is what is written

  lemma {:induction false} PackedNumbers(slice: Bytes, at: nat, k: nat)
    requires at + NUMBER_SIZE * k <= |slice|
    ensures PackAll(ReadNumbers(slice, at, k)) == slice[at..at + NUMBER_SIZE * k]
    decreases k
  {
    if k > 0 {
      PackedNumbers(slice, at + NUMBER_SIZE, k - 1);
      var mid, end := at + NUMBER_SIZE, at + NUMBER_SIZE * k;
      assert slice[at..end] == slice[at..mid] + slice[mid..end];
      assert ReadNumbers(slice, at, k)[1..] == ReadNumbers(slice, mid, k - 1);
    }
  }

  /** The first piece, then the pieces between the later offsets. */
  lemma CutFirst(slice: Bytes, first: nat, tail: seq<nat>)
    requires tail != [] && Adjacent([first] + tail) && Within([first] + tail, |slice|)
    requires Adjacent(tail) && Within(tail, |slice|)
    ensures first <= tail[0] <= |slice| && Cut(slice, [first] + tail) == [slice[first..tail[0]]] + Cut(slice, tail)
  {
    var all := [first] + tail;
    assert all[0] == first && all[1] == tail[0];
    var pieces := Cut(slice, all);
    forall i | 0 < i < |pieces|
      ensures pieces[i] == Cut(slice, tail)[i - 1]
    {
      assert all[i] == tail[i - 1] && all[i + 1] == tail[i];
    }
  }

  lemma SplitSlice(slice: Bytes, a: nat, b: nat, c: nat)
    requires a <= b <= c <= |slice|
    ensures slice[a..c] == slice[a..b] + slice[b..c]
  {
  }

  lemma {:induction false} CutRejoins(slice: Bytes, offsets: seq<nat>)
    requires offsets != [] && Adjacent(offsets) && Within(offsets, |slice|)
    ensures offsets[0] <= offsets[|offsets| - 1]
    ensures Flatten(Cut(slice, offsets)) == slice[offsets[0]..offsets[|offsets| - 1]]
    ensures Offsets(Cut(slice, offsets), offsets[0]) == offsets[..|offsets| - 1]
    decreases |offsets|
  {
    if |offsets| > 1 {
      var first, tail, last := offsets[0], offsets[1..], offsets[|offsets| - 1];
      AdjacentTail(offsets);
      CutRejoins(slice, tail);
      assert offsets == [first] + tail;
      CutFirst(slice, first, tail);
      var piece, rest := slice[first..tail[0]], Cut(slice, tail);
      hide Adjacent, Within, Cut;
      assert ([piece] + rest)[1..] == rest;
      SplitSlice(slice, first, tail[0], last);
      assert offsets[..|offsets| - 1] == [first] + tail[..|tail| - 1];
    } else {
      hide Adjacent, Within;
    }
  }

  /** A slice that passes is the layout of its items. */
  lemma ItemsAreLaid(slice: Bytes)
    requires Items(slice).Some?
    ensures slice == Laid(Items(slice).value) && Fits(Items(slice).value)
  {
    var items := Items(slice).value;
    var header := HeaderSize(|items|);
    hide Number, Items, Pack, PackAll, Offsets, Flatten;
    PartsOfSlice(slice);
    Thirds(slice, NUMBER_SIZE, header);
  }

  /** The three parts of a slice that passes. */
  lemma PartsOfSlice(slice: Bytes)
    requires Items(slice).Some?
    ensures var items := Items(slice).value;
      var header := HeaderSize(|items|);
      && header <= |slice| <= MAX_U32
      && slice[0..NUMBER_SIZE] == Pack(|slice|)
      && slice[NUMBER_SIZE..header] == PackAll(Offsets(items, header))
      && slice[header..|slice|] == Flatten(items)
  {
    var offsets, count := ReadOffsets(slice).value, |Items(slice).value|;
    AdjacentWithin(offsets);
    assert Items(slice).value == Cut(slice, offsets);
    assert slice[0..NUMBER_SIZE] == Pack(|slice|);
    FirstOffset(slice);
    CutRejoins(slice, offsets);
    PackedNumbers(slice, NUMBER_SIZE, count);
    hide Number, Items, CountOf, ReadNumbers, Pack, PackAll, Offsets, Flatten, Cut, Adjacent, Within;
    assert ReadNumbers(slice, NUMBER_SIZE, count) == offsets[..count];
  }

  lemma FirstOffset(slice: Bytes)
    requires ReadOffsets(slice).Some?
    ensures var offsets := ReadOffsets(slice).value;
      offsets != [] && offsets[0] == HeaderSize(|offsets| - 1) && offsets[|offsets| - 1] == |slice|
  {
    var count := CountOf(slice).value;
    if count > 0 {
      NumbersAt(slice, NUMBER_SIZE, count, 0);
    }
  }

  lemma Thirds(slice: Bytes, i: nat, j: nat)
    requires i <= j <= |slice|
    ensures slice == slice[0..i] + (slice[i..j] + slice[j..|slice|])
  {
  }

  lemma {:induction false} ReadsPacked(pre: Bytes, ns: seq<nat>, post: Bytes)
    requires Within(ns, MAX_U32)
    ensures ReadNumbers(pre + (PackAll(ns) + post), |pre|, |ns|) == ns
    decreases |ns|
  {
    if ns != [] {
      var slice, head := pre + (PackAll(ns) + post), Pack(ns[0]);
      assert slice == (pre + head) + (PackAll(ns[1..]) + post) by {
        Assoc(head, PackAll(ns[1..]), post);
        Assoc(pre, head, PackAll(ns[1..]) + post);
      }
      assert slice[|pre|..|pre| + NUMBER_SIZE] == head;
      NumberIs(slice, |pre|, ns[0]);
      ReadsPacked(pre + head, ns[1..], post);
      assert ns == [ns[0]] + ns[1..];
    }
  }

  lemma {:induction false} OffsetsAscend(items: seq<Bytes>, start: nat)
    ensures var all := Offsets(items, start) + [start + |Flatten(items)|];
      Adjacent(all) && Within(all, start + |Flatten(items)|) && all[0] == start
    decreases |items|
  {
    if items != [] {
      var all, next := Offsets(items, start) + [start + |Flatten(items)|], start + |items[0]|;
      OffsetsAscend(items[1..], next);
      var tail := Offsets(items[1..], next) + [next + |Flatten(items[1..])|];
      assert all == [start] + tail;
    }
  }

  lemma {:induction false} CutsLaid(pre: Bytes, items: seq<Bytes>)
    requires var all := Offsets(items, |pre|) + [|pre| + |Flatten(items)|];
      Adjacent(all) && Within(all, |pre + Flatten(items)|)
    ensures Cut(pre + Flatten(items), Offsets(items, |pre|) + [|pre| + |Flatten(items)|]) == items
    decreases |items|
  {
    if items != [] {
      var all := Offsets(items, |pre|) + [|pre| + |Flatten(items)|];
      var pre', slice := pre + items[0], pre + Flatten(items);
      var tail := Offsets(items[1..], |pre'|) + [|pre'| + |Flatten(items[1..])|];
      Assoc(pre, items[0], Flatten(items[1..]));
      assert all == [|pre|] + tail;
      OffsetsAscend(items[1..], |pre'|);
      CutsLaid(pre', items[1..]);
      CutFirst(slice, |pre|, tail);
      assert slice[|pre|..|pre'|] == items[0];
      assert items == [items[0]] + items[1..];
    }
  }

  /** The layout of items that fit passes, and gives them back. */
  lemma LaidPasses(items: seq<Bytes>)
    requires Fits(items)
    ensures Items(Laid(items)) == Some(items)
  {
    var slice, total, header := Laid(items), TotalSize(items), HeaderSize(|items|);
    var offsets, body, size := Offsets(items, header), Flatten(items), Pack(total);
    OffsetsAscend(items, header);
    LaidCount(items);
    hide Number, CountOf, ReadNumbers, Pack, PackAll, Offsets, Flatten;
    assert Within(offsets, MAX_U32) by {
      assert forall i :: 0 <= i < |offsets| ==> offsets[i] == (offsets + [total])[i];
    }
    ReadsPacked(size, offsets, body);
    assert ReadOffsets(slice) == Some(offsets + [total]);
    Assoc(size, PackAll(offsets), body);
    CutsLaid(size + PackAll(offsets), items);
  }

  lemma LaidCount(items: seq<Bytes>)
    requires Fits(items)
    ensures CountOf(Laid(items)) == Some(|items|)
  {
    var slice, total, header := Laid(items), TotalSize(items), HeaderSize(|items|);
    assert slice[0..NUMBER_SIZE] == Pack(total);
    NumberIs(slice, 0, total);
    if items != [] {
      var offsets := Offsets(items, header);
      assert PackAll(offsets)[..NUMBER_SIZE] == Pack(header);
      assert slice[NUMBER_SIZE..NUMBER_SIZE + NUMBER_SIZE] == Pack(header);
      NumberIs(slice, NUMBER_SIZE, header);
    }
    hide Number, Pack, PackAll, Offsets, Flatten, Laid;
    assert header % NUMBER_SIZE == 0 && header / NUMBER_SIZE - 1 == |items|;
  }

  /** A slice passes with the given items exactly when it is their layout, and they fit. */
  lemma PassesIffLaid(slice: Bytes, items: seq<Bytes>)
    ensures Items(slice) == Some(items) <==> slice == Laid(items) && Fits(items)
  {
    if Items(slice) == Some(items) {
      ItemsAreLaid(slice);
    } else if Fits(items) {
      LaidPasses(items);
    }
  }

  // -------------------------------------------------------------- vectors of bytes

  /** A vector of bytes: the number of bytes, then the bytes. */
  function LaidBytes(data: Bytes): (b: Bytes)
    ensures |b| == NUMBER_SIZE + |data|
  {
    Pack(Wrap32(|data|)) + data
  }

  predicate VerifyBytes(slice: Bytes) {
    && |slice| >= NUMBER_SIZE
    && var count := Number(slice, 0);
       if count == 0 then |slice| == NUMBER_SIZE else |slice| == NUMBER_SIZE + count
  }

  function RawData(slice: Bytes): (data: Bytes)
    requires VerifyBytes(slice)
  {
    slice[NUMBER_SIZE..]
  }

  /** A slice passes for a vector of bytes exactly when it is the layout of its bytes, and they fit. */
  lemma BytesPassIffLaid(slice: Bytes, data: Bytes)
    ensures VerifyBytes(slice) && RawData(slice) == data <==> slice == LaidBytes(data) && |data| <= MAX_U32
  {
    if VerifyBytes(slice) {
      assert slice == slice[0..NUMBER_SIZE] + slice[NUMBER_SIZE..];
    }
    if slice == LaidBytes(data) && |data| <= MAX_U32 {
      assert slice[0..NUMBER_SIZE] == Pack(|data|) && slice[NUMBER_SIZE..] == data;
      NumberIs(slice, 0, |data|);
    }
  }

  // ------------------------------------------------------------------- the writers

  method WriteBytes(data: Bytes, w: ByteBuffer)
    modifies w
    ensures w.data == old(w.data) + LaidBytes(data)
  {
    ghost var was := w.data;
    w.Put(Pack(Wrap32(|data|)));
    ghost var head := w.data;
    for i := 0 to |data|
      invariant w.data == head + data[..i]
    {
      assert data[..i + 1] == data[..i] + [data[i]];
      w.Put([data[i]]);
    }
    assert data[..|data|] == data;
    Assoc(was, Pack(Wrap32(|data|)), data);
  }

  /** The builders of tables and dynamic vectors: offsets first, then the header, then the items. */
  method WriteItems(items: seq<Bytes>, w: ByteBuffer)
    modifies w
    ensures w.data == old(w.data) + Laid(items)
  {
    ghost var was := w.data;
    var start := HeaderSize(|items|);
    var totalSize: nat, offsets: seq<nat> := start, [];
    assert items[0..] == items && [] + Offsets(items, start) == Offsets(items, start);
    for i := 0 to |items|
      invariant w.data == was && totalSize + |Flatten(items[i..])| == TotalSize(items)
      invariant offsets + Offsets(items[i..], totalSize) == Offsets(items, start)
    {
      assert items[i..][0] == items[i] && items[i..][1..] == items[i + 1..];
      Assoc(offsets, [totalSize], Offsets(items[i + 1..], totalSize + |items[i]|));
      offsets := offsets + [totalSize];
      totalSize := totalSize + |items[i]|;
    }
    assert offsets + [] == offsets;
    assert items[|items|..] == [] && totalSize == TotalSize(items) && offsets == Offsets(items, start);
    hide Flatten, Offsets, PackAll, Pack;
    var size := Pack(Wrap32(totalSize));
    w.Put(size);
    WriteNumbers(offsets, w);
    WriteAll(items, w);
    Assoc(was + size, PackAll(offsets), Flatten(items));
    Assoc(was, size, PackAll(offsets) + Flatten(items));
  }

  method WriteNumbers(ns: seq<nat>, w: ByteBuffer)
    modifies w
    ensures w.data == old(w.data) + PackAll(ns)
  {
    ghost var was := w.data;
    assert ns[0..] == ns;
    for i := 0 to |ns|
      invariant w.data + PackAll(ns[i..]) == was + PackAll(ns)
    {
      assert ns[i..][0] == ns[i] && ns[i..][1..] == ns[i + 1..];
      Assoc(w.data, Pack(Wrap32(ns[i])), PackAll(ns[i + 1..]));
      w.Put(Pack(Wrap32(ns[i])));
    }
    assert w.data + [] == w.data;
  }

  method WriteAll(items: seq<Bytes>, w: ByteBuffer)
    modifies w
    ensures w.data == old(w.data) + Flatten(items)
  {
    ghost var was := w.data;
    assert items[0..] == items;
    for i := 0 to |items|
      invariant w.data + Flatten(items[i..]) == was + Flatten(items)
    {
      assert items[i..][0] == items[i] && items[i..][1..] == items[i + 1..];
      Assoc(w.data, items[i], Flatten(items[i + 1..]));
      w.Put(items[i]);
    }
    assert w.data + [] == w.data;
  }
}
