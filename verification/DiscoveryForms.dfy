/**
 * Exactly which byte strings decode to a discovery message: the layouts of its parts, one inside the
 * other, with any further fields at the end of each table, and every address a multiaddress.
 */
module DiscoveryForms {
  import opened ByteStrings
  import opened Molecule
  import opened HandshakeTables
  import opened MultiaddrAddress
  import opened Discovery

  /** The slice is a table that starts with these fields. */
  ghost predicate IsTable(slice: Bytes, first: seq<Bytes>) {
    exists extra: seq<Bytes> :: slice == Laid(first + extra) && Fits(first + extra)
  }

  lemma TableIff(slice: Bytes, first: seq<Bytes>)
    ensures IsTable(slice, first) <==>
      Items(slice).Some? && |first| <= |Items(slice).value| && Items(slice).value[..|first|] == first
  {
    hide Laid, Items, Fits;
    if IsTable(slice, first) {
      var extra :| slice == Laid(first + extra) && Fits(first + extra);
      PassesIffLaid(slice, first + extra);
    }
    if Items(slice).Some? && |first| <= |Items(slice).value| && Items(slice).value[..|first|] == first {
      var items := Items(slice).value;
      PassesIffLaid(slice, items);
      assert items == first + items[|first|..];
    }
  }

  // ------------------------------------------------------------------- addresses

  ghost predicate IsAddresses(slice: Bytes, addresses: seq<Bytes>) {
    && slice == Laid(ByteFields(addresses)) && Fits(ByteFields(addresses))
    && forall i :: 0 <= i < |addresses| ==> IsMultiaddr(addresses[i])
  }

  /** The data of the items of a vector of byte vectors. */
  function Datas(items: seq<Bytes>): (datas: seq<Bytes>)
    requires forall i :: 0 <= i < |items| ==> VerifyBytes(items[i])
    ensures |datas| == |items|
  {
    seq(|items|, i requires 0 <= i < |items| => RawData(items[i]))
  }

  lemma {:induction false} AddressesFrom(slice: Bytes, i: nat)
    requires VerifyBytesVec(slice) && i <= ItemCount(slice)
    ensures var datas := Datas(Items(slice).value);
      DecodeAddresses(slice, i) ==
        if forall j :: i <= j < |datas| ==> IsMultiaddr(datas[j]) then Some(datas[i..]) else None
    decreases ItemCount(slice) - i
  {
    hide Items, Item, RawData, VerifyBytes, IsMultiaddr;
    var datas := Datas(Items(slice).value);
    if i < ItemCount(slice) {
      AddressesFrom(slice, i + 1);
      assert datas[i..] == [datas[i]] + datas[i + 1..];
    } else {
      assert datas[i..] == [];
    }
  }

  lemma DatasOf(items: seq<Bytes>, datas: seq<Bytes>)
    requires forall i :: 0 <= i < |items| ==> |items[i]| <= MAX_U32
    ensures (forall i :: 0 <= i < |items| ==> VerifyBytes(items[i])) && Datas(items) == datas
      <==> items == ByteFields(datas)
  {
    if |items| == |datas| {
      forall i | 0 <= i < |items|
        ensures VerifyBytes(items[i]) && RawData(items[i]) == datas[i] <==> items[i] == LaidBytes(datas[i])
      {
        BytesPassIffLaid(items[i], datas[i]);
      }
    }
    hide VerifyBytes, RawData, LaidBytes;
    if (forall i :: 0 <= i < |items| ==> VerifyBytes(items[i])) && Datas(items) == datas {
      assert forall i :: 0 <= i < |items| ==> items[i] == LaidBytes(datas[i]);
    }
    if items == ByteFields(datas) {
      assert forall i :: 0 <= i < |items| ==> VerifyBytes(items[i]) && RawData(items[i]) == datas[i];
    }
  }

  lemma SmallItems(slice: Bytes)
    requires Items(slice).Some?
    ensures forall i :: 0 <= i < |Items(slice).value| ==> |Items(slice).value[i]| <= MAX_U32
  {
    var items := Items(slice).value;
    PassesIffLaid(slice, items);
    hide Items, Laid, Flatten;
    forall i | 0 <= i < |items|
      ensures |items[i]| <= MAX_U32
    {
      ItemWithinTotal(items, i);
    }
  }

  lemma AddressesIff(slice: Bytes, addresses: seq<Bytes>)
    ensures VerifyBytesVec(slice) && DecodeAddresses(slice, 0) == Some(addresses) <==> IsAddresses(slice, addresses)
  {
    hide Laid, Fits, IsMultiaddr, VerifyBytes, RawData;
    PassesIffLaid(slice, ByteFields(addresses));
    if Items(slice).Some? {
      SmallItems(slice);
      hide Items;
      var items := Items(slice).value;
      DatasOf(items, addresses);
      if VerifyBytesVec(slice) {
        AddressesFrom(slice, 0);
        assert Datas(items)[0..] == Datas(items);
      }
    }
  }

  // ----------------------------------------------------------------------- nodes

  ghost predicate IsNode(slice: Bytes, n: Node) {
    exists vec: Bytes :: IsTable(slice, [vec]) && IsAddresses(vec, n.addresses)
  }

  predicate ReadsNode(slice: Bytes, n: Node) {
    VerifyNode(slice) && DecodeAddresses(Items(slice).value[0], 0) == Some(n.addresses)
  }

  lemma NodeIff(slice: Bytes, n: Node)
    ensures ReadsNode(slice, n) <==> IsNode(slice, n)
  {
    hide Items, VerifyBytesVec, DecodeAddresses, IsTable, IsAddresses;
    if ReadsNode(slice, n) {
      var vec := Items(slice).value[0];
      TableIff(slice, [vec]);
      AddressesIff(vec, n.addresses);
      assert Items(slice).value[..1] == [vec];
    }
    if IsNode(slice, n) {
      var vec :| IsTable(slice, [vec]) && IsAddresses(vec, n.addresses);
      TableIff(slice, [vec]);
      AddressesIff(vec, n.addresses);
      assert Items(slice).value[0] == [vec][0];
    }
  }

  ghost predicate IsNodeVec(slice: Bytes, nodes: seq<Node>) {
    exists items: seq<Bytes> ::
      && slice == Laid(items) && Fits(items) && |items| == |nodes|
      && forall i :: 0 <= i < |nodes| ==> IsNode(items[i], nodes[i])
  }

  lemma {:induction false} NodesFrom(slice: Bytes, i: nat, nodes: seq<Node>)
    requires VerifyNodeVec(slice) && i <= ItemCount(slice)
    ensures var items := Items(slice).value;
      DecodeNodeVec(slice, i) == Some(nodes) <==>
        |nodes| == |items| - i && forall j :: 0 <= j < |nodes| ==> ReadsNode(items[i + j], nodes[j])
    decreases ItemCount(slice) - i
  {
    hide Items, Item, VerifyNode, DecodeAddresses;
    var items := Items(slice).value;
    if i < ItemCount(slice) {
      assert VerifyNode(items[i]) && Item(slice, i) == items[i];
      FirstOfNode(items[i]);
      var first := DecodeAddresses(Item(Item(slice, i), 0), 0);
      if nodes != [] {
        NodesFrom(slice, i + 1, nodes[1..]);
        assert nodes == [nodes[0]] + nodes[1..];
        assert ReadsNode(items[i], nodes[0]) <==> first == Some(nodes[0].addresses);
        if |nodes| == |items| - i && forall j :: 0 <= j < |nodes| ==> ReadsNode(items[i + j], nodes[j]) {
          forall j | 0 <= j < |nodes[1..]|
            ensures ReadsNode(items[i + 1 + j], nodes[1..][j])
          {
            assert ReadsNode(items[i + (j + 1)], nodes[j + 1]);
          }
          assert ReadsNode(items[i + 0], nodes[0]);
        }
        if DecodeNodeVec(slice, i) == Some(nodes) {
          var rest := DecodeNodeVec(slice, i + 1).value;
          assert nodes == [Node(first.value)] + rest && rest == nodes[1..];
          forall j | 0 <= j < |nodes|
            ensures ReadsNode(items[i + j], nodes[j])
          {
            if j > 0 {
              assert ReadsNode(items[i + 1 + (j - 1)], nodes[1..][j - 1]);
            }
          }
        }
      }
    }
  }

  lemma FirstOfNode(slice: Bytes)
    requires VerifyNode(slice)
    ensures Items(slice).Some? && ItemCount(slice) > 0 && Item(slice, 0) == Items(slice).value[0]
    ensures VerifyBytesVec(Items(slice).value[0])
  {
    hide Items, VerifyBytesVec;
  }

  lemma NodeVecIff(slice: Bytes, nodes: seq<Node>)
    ensures VerifyNodeVec(slice) && DecodeNodeVec(slice, 0) == Some(nodes) <==> IsNodeVec(slice, nodes)
  {
    hide Items, Laid, Fits, VerifyNode, DecodeAddresses, DecodeNodeVec, IsNode, ReadsNode;
    if VerifyNodeVec(slice) && DecodeNodeVec(slice, 0) == Some(nodes) {
      var items := Items(slice).value;
      NodesFrom(slice, 0, nodes);
      PassesIffLaid(slice, items);
      forall i | 0 <= i < |nodes|
        ensures IsNode(items[i], nodes[i])
      {
        assert ReadsNode(items[0 + i], nodes[i]);
        NodeIff(items[i], nodes[i]);
      }
    }
    if IsNodeVec(slice, nodes) {
      var items: seq<Bytes> :|
        && slice == Laid(items) && Fits(items) && |items| == |nodes|
        && forall i :: 0 <= i < |nodes| ==> IsNode(items[i], nodes[i]);
      PassesIffLaid(slice, items);
      forall i | 0 <= i < |nodes|
        ensures ReadsNode(items[i], nodes[i]) && VerifyNode(items[i])
      {
        NodeIff(items[i], nodes[i]);
        ReadsVerified(items[i], nodes[i]);
      }
      NodesFrom(slice, 0, nodes);
    }
  }

  lemma ReadsVerified(slice: Bytes, n: Node)
    requires ReadsNode(slice, n)
    ensures VerifyNode(slice)
  {
  }

  // -------------------------------------------------------------------- messages

  /** The number of the case, then a table. */
  ghost predicate IsPayload(slice: Bytes, m: Message) {
    match m
    case GetNodes(version, count, port) =>
      exists table: Bytes ::
        slice == Pack(0) + table && IsTable(table, [Pack(version), Pack(count), EncodePort(port)])
    case Nodes(announce, nodes) =>
      exists table: Bytes, vec: Bytes ::
        slice == Pack(1) + table && IsTable(table, [[if announce then 1 else 0], vec]) && IsNodeVec(vec, nodes)
  }

  ghost predicate IsMessage(data: Bytes, m: Message) {
    exists payload: Bytes :: IsTable(data, [payload]) && IsPayload(payload, m)
  }

  lemma PortIff(slice: Bytes, port: Option<u16>)
    ensures VerifyPort(slice) && (if slice == [] then None else Some(Unpack16(slice))) == port
      <==> slice == EncodePort(port)
  {
    PortBack(port);
  }

  lemma NumberFieldIff(slice: Bytes, n: u32)
    ensures |slice| == NUMBER_SIZE && Unpack(slice) == n <==> slice == Pack(n)
  {
    UnpackInverts(n);
  }

  lemma GetNodesIff(table: Bytes, version: u32, count: u32, port: Option<u16>)
    ensures VerifyGetNodes(table) && DecodeGetNodes(table) == GetNodes(version, count, port) <==>
      IsTable(table, [Pack(version), Pack(count), EncodePort(port)])
  {
    TableIff(table, [Pack(version), Pack(count), EncodePort(port)]);
    hide Items, IsTable, Pack, Unpack, EncodePort, Unpack16, VerifyPort;
    if Items(table).Some? && |Items(table).value| >= 3 {
      var f := Items(table).value;
      NumberFieldIff(f[0], version);
      NumberFieldIff(f[1], count);
      PortIff(f[2], port);
      assert f[..3] == [f[0], f[1], f[2]];
    }
  }

  lemma NodesTableIff(table: Bytes, announce: bool, nodes: seq<Node>)
    ensures VerifyNodes(table) && DecodeNodes(table) == Some(Nodes(announce, nodes)) <==>
      exists vec: Bytes :: IsTable(table, [[if announce then 1 else 0], vec]) && IsNodeVec(vec, nodes)
  {
    hide Items, IsTable, IsNodeVec, VerifyNodeVec, DecodeNodeVec;
    var bit: byte := if announce then 1 else 0;
    if VerifyNodes(table) && DecodeNodes(table) == Some(Nodes(announce, nodes)) {
      var f := Items(table).value;
      TableIff(table, [[bit], f[1]]);
      NodeVecIff(f[1], nodes);
      assert f[0] == [bit] && f[..2] == [f[0], f[1]];
    }
    if vec :| IsTable(table, [[bit], vec]) && IsNodeVec(vec, nodes) {
      TableIff(table, [[bit], vec]);
      NodeVecIff(vec, nodes);
      var f := Items(table).value;
      assert f[0] == f[..2][0] == [bit] && f[1] == f[..2][1] == vec;
    }
  }

  lemma CaseIs(slice: Bytes, id: u32, table: Bytes)
    ensures |slice| >= NUMBER_SIZE && Number(slice, 0) == id && slice[NUMBER_SIZE..] == table
      <==> slice == Pack(id) + table
  {
    if slice == Pack(id) + table {
      NumberIs(slice, 0, id);
    }
    if |slice| >= NUMBER_SIZE && Number(slice, 0) == id && slice[NUMBER_SIZE..] == table {
      assert slice == slice[0..NUMBER_SIZE] + slice[NUMBER_SIZE..];
    }
  }

  function DecodePayload(slice: Bytes): (r: Option<Message>)
    requires VerifyPayload(slice)
  {
    if Number(slice, 0) == 0 then Some(DecodeGetNodes(slice[NUMBER_SIZE..])) else DecodeNodes(slice[NUMBER_SIZE..])
  }

  lemma PayloadIff(slice: Bytes, m: Message)
    ensures VerifyPayload(slice) && DecodePayload(slice) == Some(m) <==> IsPayload(slice, m)
  {
    hide IsTable, IsNodeVec, VerifyGetNodes, VerifyNodes, DecodeGetNodes, DecodeNodes, Number, Pack, EncodePort;
    var inner := if |slice| >= NUMBER_SIZE then slice[NUMBER_SIZE..] else [];
    match m {
      case GetNodes(version, count, port) =>
        CaseIs(slice, 0, inner);
        GetNodesIff(inner, version, count, port);
        if table :| slice == Pack(0) + table && IsTable(table, [Pack(version), Pack(count), EncodePort(port)]) {
          CaseIs(slice, 0, table);
        }
        if VerifyPayload(slice) && DecodePayload(slice) == Some(m) {
          NodesAreNodes(inner);
        }
      case Nodes(announce, nodes) =>
        CaseIs(slice, 1, inner);
        NodesTableIff(inner, announce, nodes);
        if table, vec :|
          slice == Pack(1) + table && IsTable(table, [[if announce then 1 else 0], vec]) && IsNodeVec(vec, nodes)
        {
          CaseIs(slice, 1, table);
        }
        if VerifyPayload(slice) && DecodePayload(slice) == Some(m) {
          GetNodesAreGetNodes(inner);
        }
    }
  }

  lemma NodesAreNodes(table: Bytes)
    ensures VerifyNodes(table) && DecodeNodes(table).Some? ==> DecodeNodes(table).value.Nodes?
  {
    hide VerifyNodeVec, DecodeNodeVec, Items;
  }

  lemma GetNodesAreGetNodes(table: Bytes)
    ensures VerifyGetNodes(table) ==> DecodeGetNodes(table).GetNodes?
  {
    hide Items;
  }

  /**
   * A byte string decodes to a message if and only if it is laid out from it: each part where it
   * belongs, tables possibly with further fields at the end, vectors exactly, and every address a
   * multiaddress.
   */
  lemma DecodeIff(data: Bytes, m: Message)
    ensures Decode(data) == Some(m) <==> IsMessage(data, m)
  {
    hide Items, IsTable, IsPayload, VerifyPayload, DecodePayload;
    if VerifyMessage(data) {
      var payload := Items(data).value[0];
      assert Decode(data) == DecodePayload(payload) by { DecodesPayload(data); }
    }
    if Decode(data) == Some(m) {
      var payload := Items(data).value[0];
      TableIff(data, [payload]);
      PayloadIff(payload, m);
      assert Items(data).value[..1] == [payload];
    }
    if payload :| IsTable(data, [payload]) && IsPayload(payload, m) {
      TableIff(data, [payload]);
      PayloadIff(payload, m);
      assert Items(data).value[0] == Items(data).value[..1][0] == payload;
    }
  }

  lemma DecodesPayload(data: Bytes)
    requires VerifyMessage(data)
    ensures Items(data).Some? && |Items(data).value| > 0 && VerifyPayload(Items(data).value[0])
    ensures Decode(data) == DecodePayload(Items(data).value[0])
  {
    hide Items, VerifyGetNodes, VerifyNodes, DecodeGetNodes, DecodeNodes, Number;
  }
}
