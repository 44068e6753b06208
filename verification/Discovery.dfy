/**
 * Messages of the discovery protocol: a table holding a union of two tables, one of which holds a
 * vector of tables of vectors of byte vectors. Each address must be a multiaddress.
 */
module Discovery {
  import opened ByteStrings
  import opened Molecule
  import opened HandshakeTables
  import opened MultiaddrAddress

  datatype Node = Node(addresses: seq<Bytes>)

  datatype Message =
    | GetNodes(version: u32, count: u32, listenPort: Option<u16>)
    | Nodes(announce: bool, items: seq<Node>)

  // ------------------------------------------------------------------- encoding

  function Pack16(n: u16): (b: Bytes)
    ensures |b| == 2
  {
    [n % 0x100, n / 0x100]
  }

  function Unpack16(b: Bytes): (n: u16)
    requires |b| == 2
    ensures Pack16(n) == b
  {
    var lo: int, hi: int := b[0], b[1];
    lo + 0x100 * hi
  }

  function EncodeBytesVec(addresses: seq<Bytes>): (b: Bytes) { Laid(ByteFields(addresses)) }

  function EncodeNode(n: Node): (b: Bytes) { Laid([EncodeBytesVec(n.addresses)]) }

  function EncodeEach(nodes: seq<Node>): (r: seq<Bytes>)
    ensures |r| == |nodes| && forall i :: 0 <= i < |nodes| ==> r[i] == EncodeNode(nodes[i])
  {
    seq(|nodes|, i requires 0 <= i < |nodes| => EncodeNode(nodes[i]))
  }

  function EncodeNodeVec(nodes: seq<Node>): (b: Bytes) { Laid(EncodeEach(nodes)) }

  function EncodePort(port: Option<u16>): (b: Bytes) { if port.Some? then Pack16(port.value) else [] }

  function EncodePayload(m: Message): (b: Bytes) {
    match m
    case GetNodes(version, count, port) => Pack(0) + Laid([Pack(version), Pack(count), EncodePort(port)])
    case Nodes(announce, nodes) => Pack(1) + Laid([[if announce then 1 else 0], EncodeNodeVec(nodes)])
  }

  function Encode(m: Message): (b: Bytes) { Laid([EncodePayload(m)]) }

  // -------------------------------------------------------------- the checks

  predicate VerifyBytesVec(slice: Bytes) {
    match Items(slice)
    case None => false
    case Some(items) => forall i :: 0 <= i < |items| ==> VerifyBytes(items[i])
  }

  predicate VerifyNode(slice: Bytes) {
    VerifyTable(slice, 1, true) && VerifyBytesVec(Items(slice).value[0])
  }

  predicate VerifyNodeVec(slice: Bytes) {
    match Items(slice)
    case None => false
    case Some(items) => forall i :: 0 <= i < |items| ==> VerifyNode(items[i])
  }

  predicate VerifyPort(slice: Bytes) { slice == [] || |slice| == 2 }

  predicate VerifyGetNodes(slice: Bytes) {
    && VerifyTable(slice, 3, true)
    && var fields := Items(slice).value;
       |fields[0]| == 4 && |fields[1]| == 4 && VerifyPort(fields[2])
  }

  predicate VerifyNodes(slice: Bytes) {
    && VerifyTable(slice, 2, true)
    && var fields := Items(slice).value;
       |fields[0]| == 1 && VerifyNodeVec(fields[1])
  }

  predicate VerifyPayload(slice: Bytes) {
    && |slice| >= NUMBER_SIZE
    && var id, inner := Number(slice, 0), slice[NUMBER_SIZE..];
       (id == 0 && VerifyGetNodes(inner)) || (id == 1 && VerifyNodes(inner))
  }

  predicate VerifyMessage(slice: Bytes) {
    VerifyTable(slice, 1, true) && VerifyPayload(Items(slice).value[0])
  }

  // -------------------------------------------------------------------- decoding

  /** One more in front, if the rest could be read. */
  function Cons<T>(x: T, rest: Option<seq<T>>): (r: Option<seq<T>>) {
    match rest
    case None => None
    case Some(more) => Some([x] + more)
  }

  function DecodeAddresses(slice: Bytes, i: nat): (r: Option<seq<Bytes>>)
    requires VerifyBytesVec(slice) && i <= ItemCount(slice)
    decreases ItemCount(slice) - i
  {
    if i == ItemCount(slice) then Some([])
    else
      var address := RawData(Item(slice, i));
      if IsMultiaddr(address) then Cons(address, DecodeAddresses(slice, i + 1)) else None
  }

  function DecodeNodeVec(slice: Bytes, i: nat): (r: Option<seq<Node>>)
    requires VerifyNodeVec(slice) && i <= ItemCount(slice)
    decreases ItemCount(slice) - i
  {
    if i == ItemCount(slice) then Some([])
    else
      match DecodeAddresses(Item(Item(slice, i), 0), 0)
      case None => None
      case Some(addresses) => Cons(Node(addresses), DecodeNodeVec(slice, i + 1))
  }

  function DecodeGetNodes(slice: Bytes): (m: Message)
    requires VerifyGetNodes(slice)
  {
    var port := Item(slice, 2);
    GetNodes(Unpack(Item(slice, 0)), Unpack(Item(slice, 1)), if port == [] then None else Some(Unpack16(port)))
  }

  function DecodeNodes(slice: Bytes): (r: Option<Message>)
    requires VerifyNodes(slice)
  {
    var announce := Item(slice, 0)[0];
    if announce > 1 then None
    else
      match DecodeNodeVec(Item(slice, 1), 0)
      case None => None
      case Some(nodes) => Some(Nodes(announce == 1, nodes))
  }

  function Decode(data: Bytes): (r: Option<Message>) {
    if !VerifyMessage(data) then None
    else
      var payload := Item(data, 0);
      var inner := payload[NUMBER_SIZE..];
      if Number(payload, 0) == 0 then Some(DecodeGetNodes(inner)) else DecodeNodes(inner)
  }

  // ------------------------------------------------------------------- round trip

  predicate AllAddresses(m: Message) {
    m.Nodes? ==> forall i :: 0 <= i < |m.items| ==> NodeOk(m.items[i])
  }

  predicate NodeOk(n: Node) { forall i :: 0 <= i < |n.addresses| ==> IsMultiaddr(n.addresses[i]) }

  lemma BytesVecPasses(addresses: seq<Bytes>)
    requires |EncodeBytesVec(addresses)| <= MAX_U32
    ensures var slice := EncodeBytesVec(addresses);
      VerifyBytesVec(slice) && ItemCount(slice) == |addresses| &&
      forall i :: 0 <= i < |addresses| ==> RawData(Items(slice).value[i]) == addresses[i]
  {
    assert ByteFields(addresses) + [] == ByteFields(addresses);
    LaidTablePasses(addresses, []);
    LaidPasses(ByteFields(addresses));
  }

  lemma {:induction false} AddressesBack(addresses: seq<Bytes>, i: nat)
    requires |EncodeBytesVec(addresses)| <= MAX_U32 && i <= |addresses|
    requires NodeOk(Node(addresses))
    requires VerifyBytesVec(EncodeBytesVec(addresses)) && ItemCount(EncodeBytesVec(addresses)) == |addresses|
    ensures DecodeAddresses(EncodeBytesVec(addresses), i) == Some(addresses[i..])
    decreases |addresses| - i
  {
    hide EncodeBytesVec, VerifyBytesVec, Items, RawData, IsMultiaddr;
    if i < |addresses| {
      BytesVecPasses(addresses);
      AddressesBack(addresses, i + 1);
      assert addresses[i..] == [addresses[i]] + addresses[i + 1..];
      assert IsMultiaddr(addresses[i]);
    } else {
      assert addresses[i..] == [];
    }
  }

  lemma NodePasses(n: Node)
    requires |EncodeNode(n)| <= MAX_U32
    ensures VerifyNode(EncodeNode(n)) && Items(EncodeNode(n)).value[0] == EncodeBytesVec(n.addresses)
    ensures |EncodeBytesVec(n.addresses)| <= MAX_U32
  {
    var fields := [EncodeBytesVec(n.addresses)];
    ItemWithinTotal(fields, 0);
    LaidPasses(fields);
    hide EncodeBytesVec, VerifyBytesVec;
    BytesVecPasses(n.addresses);
  }

  lemma NodeVecPasses(nodes: seq<Node>)
    requires |EncodeNodeVec(nodes)| <= MAX_U32
    ensures var slice := EncodeNodeVec(nodes);
      && VerifyNodeVec(slice) && Items(slice) == Some(EncodeEach(nodes))
      && forall i :: 0 <= i < |nodes| ==> |EncodeNode(nodes[i])| <= MAX_U32
  {
    var items := EncodeEach(nodes);
    LaidPasses(items);
    forall i | 0 <= i < |nodes|
      ensures VerifyNode(items[i]) && |EncodeNode(nodes[i])| <= MAX_U32
    {
      hide EncodeNode, VerifyNode;
      ItemWithinTotal(items, i);
      assert items[i] == EncodeNode(nodes[i]);
      NodePasses(nodes[i]);
    }
  }

  lemma {:induction false} NodesBack(nodes: seq<Node>, i: nat)
    requires |EncodeNodeVec(nodes)| <= MAX_U32 && i <= |nodes|
    requires forall j :: 0 <= j < |nodes| ==> NodeOk(nodes[j])
    requires VerifyNodeVec(EncodeNodeVec(nodes)) && Items(EncodeNodeVec(nodes)) == Some(EncodeEach(nodes))
    ensures DecodeNodeVec(EncodeNodeVec(nodes), i) == Some(nodes[i..])
    decreases |nodes| - i
  {
    hide EncodeNodeVec, EncodeNode, EncodeBytesVec, VerifyBytesVec, VerifyNode, VerifyNodeVec, VerifyTable;
    hide Items, Item, ItemCount, NodeOk, DecodeAddresses;
    if i < |nodes| {
      var n := nodes[i];
      NodeVecPasses(nodes);
      assert Item(EncodeNodeVec(nodes), i) == EncodeNode(n);
      NodePasses(n);
      BytesVecPasses(n.addresses);
      assert NodeOk(Node(n.addresses)) by { assert n == Node(n.addresses); }
      AddressesBack(n.addresses, 0);
      assert n.addresses[0..] == n.addresses;
      NodesBack(nodes, i + 1);
      assert nodes[i..] == [n] + nodes[i + 1..];
    } else {
      assert nodes[i..] == [];
    }
  }

  lemma PortBack(port: Option<u16>)
    ensures var b := EncodePort(port);
      VerifyPort(b) && port == if b == [] then None else Some(Unpack16(b))
  {
  }

  /** The payload of a message that fits passes and decodes to the message. */
  lemma GetNodesBack(m: Message)
    requires m.GetNodes? && |EncodePayload(m)| <= MAX_U32
    ensures var inner := EncodePayload(m)[NUMBER_SIZE..];
      VerifyGetNodes(inner) && DecodeGetNodes(inner) == m
  {
    var fields := [Pack(m.version), Pack(m.count), EncodePort(m.listenPort)];
    assert EncodePayload(m)[NUMBER_SIZE..] == Laid(fields);
    LaidPasses(fields);
    UnpackInverts(m.version);
    UnpackInverts(m.count);
    PortBack(m.listenPort);
    hide Laid, Items, Pack, Unpack, EncodePort, Unpack16;
  }

  lemma NodesTableBack(m: Message)
    requires m.Nodes? && |EncodePayload(m)| <= MAX_U32 && AllAddresses(m)
    ensures var inner := EncodePayload(m)[NUMBER_SIZE..];
      VerifyNodes(inner) && DecodeNodes(inner) == Some(m)
  {
    var fields := [[if m.announce then 1 else 0], EncodeNodeVec(m.items)];
    assert EncodePayload(m)[NUMBER_SIZE..] == Laid(fields);
    LaidPasses(fields);
    ItemWithinTotal(fields, 1);
    assert |EncodeNodeVec(m.items)| <= MAX_U32;
    hide Laid, Items, Fits, TotalSize, Flatten, EncodeNodeVec, EncodePayload, VerifyNodeVec, DecodeNodeVec;
    NodeVecPasses(m.items);
    NodesBack(m.items, 0);
    assert m.items[0..] == m.items;
  }

  /** Decoding undoes encoding, for every message whose encoding fits and whose addresses are multiaddresses. */
  lemma RoundTrip(m: Message)
    requires |Encode(m)| <= MAX_U32 && AllAddresses(m)
    ensures Decode(Encode(m)) == Some(m)
  {
    var payload := EncodePayload(m);
    ItemWithinTotal([payload], 0);
    LaidPasses([payload]);
    var id := if m.GetNodes? then 0 else 1;
    assert payload[0..NUMBER_SIZE] == Pack(id);
    NumberIs(payload, 0, id);
    hide Laid, Items, EncodePayload, VerifyGetNodes, VerifyNodes, DecodeGetNodes, DecodeNodes;
    if m.GetNodes? {
      GetNodesBack(m);
    } else {
      NodesTableBack(m);
    }
  }

  // ------------------------------------------------------------ as the source runs it

  /** The bytes of a table or dynamic vector, built in a buffer of its own. */
  method Build(items: seq<Bytes>) returns (b: Bytes)
    ensures b == Laid(items)
  {
    var w := new ByteBuffer();
    WriteItems(items, w);
    b := w.data;
    assert [] + Laid(items) == Laid(items);
  }

  method BuildBytesVec(addresses: seq<Bytes>) returns (b: Bytes)
    ensures b == EncodeBytesVec(addresses)
  {
    var vecAddrs: seq<Bytes> := [];
    for i := 0 to |addresses|
      invariant vecAddrs == ByteFields(addresses)[..i]
    {
      var w := new ByteBuffer();
      WriteBytes(addresses[i], w);
      assert [] + LaidBytes(addresses[i]) == LaidBytes(addresses[i]);
      vecAddrs := vecAddrs + [w.data];
    }
    assert vecAddrs == ByteFields(addresses);
    b := Build(vecAddrs);
  }

  method BuildNodeVec(nodes: seq<Node>) returns (b: Bytes)
    ensures b == EncodeNodeVec(nodes)
  {
    hide EncodeBytesVec;
    var itemVec: seq<Bytes> := [];
    for i := 0 to |nodes|
      invariant itemVec == EncodeEach(nodes)[..i]
    {
      var bytesVec := BuildBytesVec(nodes[i].addresses);
      var node := Build([bytesVec]);
      itemVec := itemVec + [node];
    }
    assert itemVec == EncodeEach(nodes);
    b := Build(itemVec);
  }

  method EncodeMessage(m: Message) returns (b: Bytes)
    ensures b == Encode(m)
  {
    hide Laid, EncodeNodeVec;
    var table;
    match m {
      case GetNodes(version, count, listenPort) =>
        table := Build([Pack(version), Pack(count), EncodePort(listenPort)]);
        b := Build([Pack(0) + table]);
      case Nodes(announce, nodes) =>
        var items := BuildNodeVec(nodes);
        table := Build([[if announce then 1 else 0], items]);
        b := Build([Pack(1) + table]);
    }
  }

  method ReadAddresses(slice: Bytes) returns (r: Option<seq<Bytes>>)
    requires VerifyBytesVec(slice)
    ensures r == DecodeAddresses(slice, 0)
  {
    var i, count := 0, ItemCount(slice);
    hide Items, VerifyBytesVec, IsMultiaddr, Components, Item, Prepend, Cons;
    var addresses: seq<Bytes> := [];
    PrependNothing(DecodeAddresses(slice, 0));
    while i < count
      invariant i <= count
      invariant DecodeAddresses(slice, 0) == Prepend(addresses, DecodeAddresses(slice, i))
    {
      CheckedItem(slice, i);
      var address := RawData(Item(slice, i));
      ValidWhenRead(address);
      PrependNext(addresses, address, DecodeAddresses(slice, i + 1));
      var checked := TryFrom(address);
      if checked.Failure? {
        return None;
      }
      addresses := addresses + [address];
      i := i + 1;
    }
    PrependEnd(addresses);
    return Some(addresses);
  }

  /** What was collected so far, then what is still to be read, if all of that can be read. */
  function Prepend<T>(done: seq<T>, rest: Option<seq<T>>): (r: Option<seq<T>>) {
    match rest
    case None => None
    case Some(more) => Some(done + more)
  }

  lemma PrependNothing<T>(rest: Option<seq<T>>)
    ensures Prepend([], rest) == rest
  {
    if rest.Some? {
      assert [] + rest.value == rest.value;
    }
  }

  lemma PrependEnd<T>(done: seq<T>)
    ensures Prepend(done, Some([])) == Some(done)
  {
    assert done + [] == done;
  }

  lemma PrependNext<T>(done: seq<T>, x: T, rest: Option<seq<T>>)
    ensures Prepend(done, Cons(x, rest)) == Prepend(done + [x], rest)
    ensures Prepend(done, None) == None
  {
    if rest.Some? {
      Assoc(done, [x], rest.value);
    }
  }

  lemma CheckedItem(slice: Bytes, i: nat)
    requires VerifyBytesVec(slice) && i < ItemCount(slice)
    ensures VerifyBytes(Item(slice, i))
  {
  }

  lemma ValidWhenRead(address: Bytes)
    ensures IsMultiaddr(address) <==> Components(address).Success?
  {
  }

  method ReadNodeVec(slice: Bytes) returns (r: Option<seq<Node>>)
    requires VerifyNodeVec(slice)
    ensures r == DecodeNodeVec(slice, 0)
  {
    var i, count := 0, ItemCount(slice);
    hide Items, VerifyNodeVec, VerifyBytesVec, DecodeAddresses, Item, Prepend, Cons;
    var items: seq<Node> := [];
    PrependNothing(DecodeNodeVec(slice, 0));
    while i < count
      invariant i <= count
      invariant DecodeNodeVec(slice, 0) == Prepend(items, DecodeNodeVec(slice, i))
    {
      CheckedNode(slice, i);
      var node := Item(slice, i);
      var addresses := ReadAddresses(Item(node, 0));
      if addresses.None? {
        PrependNext(items, Node([]), None);
        return None;
      }
      PrependNext(items, Node(addresses.value), DecodeNodeVec(slice, i + 1));
      items := items + [Node(addresses.value)];
      i := i + 1;
    }
    PrependEnd(items);
    return Some(items);
  }

  lemma CheckedNode(slice: Bytes, i: nat)
    requires VerifyNodeVec(slice) && i < ItemCount(slice)
    ensures Items(Item(slice, i)).Some? && ItemCount(Item(slice, i)) >= 1 && VerifyBytesVec(Item(Item(slice, i), 0))
  {
  }

  method DecodeMessage(data: Bytes) returns (r: Option<Message>)
    ensures r == Decode(data)
  {
    hide Items, VerifyGetNodes, VerifyNodes, DecodeGetNodes, DecodeNodes;
    if !VerifyMessage(data) {
      return None;
    }
    var payload := Item(data, 0);
    var inner := payload[NUMBER_SIZE..];
    if Number(payload, 0) == 0 {
      return Some(DecodeGetNodes(inner));
    }
    r := ReadNodes(inner);
  }

  method ReadNodes(slice: Bytes) returns (r: Option<Message>)
    requires VerifyNodes(slice)
    ensures r == DecodeNodes(slice)
  {
    hide Items, VerifyNodeVec, DecodeNodeVec;
    var announce;
    match Item(slice, 0)[0] {
      case 0 => announce := false;
      case 1 => announce := true;
      case _ => return None;
    }
    var items := ReadNodeVec(Item(slice, 1));
    if items.None? {
      return None;
    }
    return Some(Nodes(announce, items.value));
  }
}
