/** A multiaddress: a byte string that reads as components, edited at its end or in the middle. */
module MultiaddrAddress {
  import opened ByteStrings
  import opened Multiaddr

  // ------------------------------------------------- byte strings and components

  function EncodeAll(ps: seq<Protocol>): (b: Bytes) {
    if ps == [] then [] else Encode(ps[0]) + EncodeAll(ps[1..])
  }

  /** The components of a byte string, if it is a multiaddress. */
  function Components(b: Bytes): (r: Result<seq<Protocol>, AddrError>)
    decreases |b|
  {
    if b == [] then Success([])
    else
      match FromBytes(b)
      case Failure(e) => Failure(e)
      case Success((p, rest)) =>
        Canonical(b);
        match Components(rest)
        case Failure(e) => Failure(e)
        case Success(ps) => Success([p] + ps)
  }

  predicate AllWellFormed(ps: seq<Protocol>) {
    forall i :: 0 <= i < |ps| ==> WellFormed(ps[i])
  }

  predicate IsMultiaddr(b: Bytes) { Components(b).Success? }

  lemma {:induction false} ComponentsOfEncoded(ps: seq<Protocol>)
    requires AllWellFormed(ps)
    ensures Components(EncodeAll(ps)) == Success(ps)
  {
    if ps != [] {
      ReadsBack(ps[0], EncodeAll(ps[1..]));
      ComponentsOfEncoded(ps[1..]);
      assert ps == [ps[0]] + ps[1..];
    }
  }

  lemma {:induction false} EncodedComponents(b: Bytes)
    requires Components(b).Success?
    ensures EncodeAll(Components(b).value) == b && AllWellFormed(Components(b).value)
    decreases |b|
  {
    if b != [] {
      Canonical(b);
      var (p, rest) := FromBytes(b).value;
      EncodedComponents(rest);
      assert Components(b).value[1..] == Components(rest).value;
    }
  }

  /** The byte strings that pass for multiaddresses are exactly the encodings of component lists. */
  lemma AddressesAreEncodings(b: Bytes, ps: seq<Protocol>)
    ensures Components(b) == Success(ps) <==> b == EncodeAll(ps) && AllWellFormed(ps)
  {
    if Components(b) == Success(ps) {
      EncodedComponents(b);
    } else if AllWellFormed(ps) {
      ComponentsOfEncoded(ps);
    }
  }

  lemma {:induction false} EncodeAllAppend(a: seq<Protocol>, b: seq<Protocol>)
    ensures EncodeAll(a + b) == EncodeAll(a) + EncodeAll(b)
  {
    hide Encode;
    if a == [] {
      assert a + b == b;
    } else {
      var tail := EncodeAll(a[1..]);
      assert EncodeAll(a + b) == Encode(a[0]) + (tail + EncodeAll(b)) by {
        EncodeAllAppend(a[1..], b);
        assert (a + b)[0] == a[0] && (a + b)[1..] == a[1..] + b;
      }
      assert EncodeAll(a) == Encode(a[0]) + tail;
    }
  }

  lemma NothingEncoded()
    ensures EncodeAll([]) == []
  {
  }

  lemma EncodeAllSnoc(a: seq<Protocol>, p: Protocol)
    ensures EncodeAll(a + [p]) == EncodeAll(a) + Encode(p)
  {
    EncodeAllAppend(a, [p]);
    assert EncodeAll([p]) == Encode(p) + EncodeAll([]);
  }

  /** Reading the first component of a multiaddress leaves the others. */
  lemma FirstComponent(b: Bytes)
    requires b != [] && IsMultiaddr(b)
    ensures FromBytes(b).Success?
    ensures var (p, rest) := FromBytes(b).value;
      && b == Encode(p) + rest && |rest| < |b| && WellFormed(p)
      && IsMultiaddr(rest) && Components(b) == Success([p] + Components(rest).value)
  {
    Canonical(b);
  }

  lemma NoComponents(b: Bytes)
    ensures b == [] <==> Components(b) == Success([])
  {
  }

  // ---------------------------------------------------------------- the address

  /** Reads a byte string through, to see whether it is a multiaddress. */
  method TryFrom(v: Bytes) returns (r: Result<Bytes, AddrError>)
    ensures r == match Components(v) case Failure(e) => Failure(e) case Success(_) => Success(v)
  {
    var slice := v;
    while slice != []
      invariant Components(v).Success? <==> Components(slice).Success?
      invariant Components(v).Failure? ==> Components(v) == Components(slice)
      decreases |slice|
    {
      var next := FromBytes(slice);
      if next.Failure? {
        return Failure(next.error);
      }
      Canonical(slice);
      slice := next.value.1;
    }
    return Success(v);
  }

  /** The iterator over the components of a multiaddress. */
  class Iter {
    var rest: Bytes

    constructor (bytes: Bytes)
      ensures rest == bytes
    {
      rest := bytes;
    }

    method Next() returns (p: Option<Protocol>)
      requires IsMultiaddr(rest)
      modifies this
      ensures IsMultiaddr(rest)
      ensures var was := old(Components(rest).value);
        if was == [] then p == None && rest == old(rest)
        else p == Some(was[0]) && Components(rest) == Success(was[1..]) && |rest| < |old(rest)|
    {
      if rest == [] {
        return None;
      }
      FirstComponent(rest);
      var (q, nextData) := FromBytes(rest).value;
      rest := nextData;
      return Some(q);
    }
  }

  /** Skips from component to component up to the last one, and says where that starts. */
  method LastComponent(bytes: Bytes) returns (last: Protocol, remaining: nat)
    requires bytes != [] && IsMultiaddr(bytes)
    ensures remaining <= |bytes| && bytes[remaining..] == Encode(last)
    ensures IsMultiaddr(bytes[..remaining])
    ensures Components(bytes).value == Components(bytes[..remaining]).value + [last]
  {
    EncodedComponents(bytes);
    NothingEncoded();
    hide Encode, EncodeAll, Components, FromBytes;
    var slice := bytes;
    ghost var done: seq<Protocol>, todo := [], Components(bytes).value;
    assert done + todo == todo;
    while true
      invariant slice != [] && |slice| <= |bytes|
      invariant bytes == EncodeAll(done) + slice && AllWellFormed(done)
      invariant Components(slice) == Success(todo) && Components(bytes) == Success(done + todo)
      decreases |slice|
    {
      FirstComponent(slice);
      var (p, s) := FromBytes(slice).value;
      NoComponents(s);
      if s == [] {
        last := p;
        break;
      }
      MoveComponent(done, p, s, Components(s).value);
      slice, done, todo := s, done + [p], Components(s).value;
    }
    remaining := |bytes| - |slice|;
    assert bytes[..remaining] == EncodeAll(done) && bytes[remaining..] == slice;
    AddressesAreEncodings(bytes[..remaining], done);
  }

  lemma MoveComponent(done: seq<Protocol>, p: Protocol, rest: Bytes, todo: seq<Protocol>)
    ensures EncodeAll(done) + (Encode(p) + rest) == EncodeAll(done + [p]) + rest
    ensures done + ([p] + todo) == (done + [p]) + todo
  {
    EncodeAllSnoc(done, p);
    hide EncodeAll, Encode;
    Assoc(EncodeAll(done), Encode(p), rest);
  }

  /** A list of components with one of them changed, if it can be. */
  function Replaced(parts: seq<Protocol>, at: nat, change: Protocol -> Option<Protocol>): (r: Option<seq<Protocol>>)
    ensures r.Some? <==> at < |parts| && change(parts[at]).Some?
    ensures r.Some? ==> r.value == parts[at := change(parts[at]).value]
  {
    if parts == [] then None
    else if at == 0 then
      match change(parts[0])
      case None => None
      case Some(q) => Some([q] + parts[1..])
    else
      match Replaced(parts[1..], at - 1, change)
      case None => None
      case Some(rest) => Some([parts[0]] + rest)
  }

  lemma Regrouped(done: seq<Protocol>, p: Protocol, q: Protocol, todo: seq<Protocol>, at: int,
                  change: Protocol -> Option<Protocol>)
    ensures done + ([p] + todo) == (done + [p]) + todo && done + ([q] + todo) == (done + [q]) + todo
    ensures at == 0 ==>
      Replaced([p] + todo, 0, change) == match change(p) case None => None case Some(c) => Some([c] + todo)
    ensures at > 0 ==>
      match Replaced(todo, at - 1, change)
      case None => Replaced([p] + todo, at, change) == None
      case Some(more) =>
        && Replaced([p] + todo, at, change) == Some([p] + more)
        && done + ([p] + more) == (done + [p]) + more
  {
    assert ([p] + todo)[1..] == todo;
  }

  /** Writes all components again, one of them changed. */
  method ReplaceComponent(bytes: Bytes, at: nat, change: Protocol -> Option<Protocol>) returns (r: Option<Bytes>)
    requires IsMultiaddr(bytes)
    ensures r == match Replaced(Components(bytes).value, at, change)
      case None => None
      case Some(parts) => Some(EncodeAll(parts))
  {
    NothingEncoded();
    hide Encode, EncodeAll, Components, FromBytes;
    var address := new ByteBuffer();
    var rest, replaced, i := bytes, false, 0;
    ghost var parts := Components(bytes).value;
    ghost var done: seq<Protocol>, todo := [], parts;
    assert forall more: seq<Protocol> :: done + more == more;
    while rest != []
      invariant fresh(address) && address.data == EncodeAll(done)
      invariant Components(rest) == Success(todo) && |done| == i && (replaced <==> at < i)
      invariant Replaced(parts, at, change) ==
        if replaced then Some(done + todo)
        else match Replaced(todo, at - i, change) case None => None case Some(more) => Some(done + more)
      decreases |rest|
    {
      FirstComponent(rest);
      var (p, next) := FromBytes(rest).value;
      ghost var todo' := Components(next).value;
      var q := p;
      if i == at {
        var found := change(p);
        if found.None? {
          return None;
        }
        q := found.value;
        replaced := true;
      }
      Regrouped(done, p, q, todo', at - i, change);
      EncodeAllSnoc(done, q);
      WriteToBytes(q, address);
      rest, i := next, i + 1;
      done, todo := done + [q], todo';
    }
    NoComponents(rest);
    assert done + [] == done;
    return if replaced then Some(address.data) else None;
  }

  class Address {
    var bytes: Bytes

    ghost predicate Valid()
      reads this
    {
      IsMultiaddr(bytes)
    }

    ghost function Parts(): (ps: seq<Protocol>)
      requires Valid()
      reads this
    {
      Components(bytes).value
    }

    /** The address of a list of components; iterating over it gives the list back. */
    constructor FromIter(ps: seq<Protocol>)
      ensures bytes == EncodeAll(ps)
      ensures AllWellFormed(ps) ==> Valid() && Parts() == ps
    {
      new;
      var writer := new ByteBuffer();
      assert ps[..0] == [];
      for i := 0 to |ps|
        invariant fresh(writer) && writer.data == EncodeAll(ps[..i])
      {
        assert ps[..i + 1] == ps[..i] + [ps[i]];
        EncodeAllSnoc(ps[..i], ps[i]);
        WriteToBytes(ps[i], writer);
      }
      bytes := writer.data;
      assert ps[..|ps|] == ps;
      AddressesAreEncodings(bytes, ps);
    }

    method Push(p: Protocol)
      modifies this
      ensures bytes == old(bytes) + Encode(p)
      ensures old(Valid()) && WellFormed(p) ==> Valid() && Parts() == old(Parts()) + [p]
    {
      hide Encode, EncodeAll, Components;
      ghost var was := bytes;
      var w := new ByteBuffer();
      w.Put(bytes);
      WriteToBytes(p, w);
      bytes := w.data;
      if IsMultiaddr(was) && WellFormed(p) {
        var ps := Components(was).value;
        EncodedComponents(was);
        EncodeAllSnoc(ps, p);
        AddressesAreEncodings(bytes, ps + [p]);
      }
    }

    /** Takes the last component off. */
    method Pop() returns (p: Option<Protocol>)
      requires Valid()
      modifies this
      ensures Valid()
      ensures old(Parts()) == [] ==> p == None && Parts() == []
      ensures old(Parts()) != [] ==> p.Some? && Parts() + [p.value] == old(Parts())
      ensures old(Parts()) != [] ==> bytes + Encode(p.value) == old(bytes)
    {
      NoComponents(bytes);
      if bytes == [] {
        return None;
      }
      hide Encode, Components;
      var last, remaining := LastComponent(bytes);
      assert bytes == bytes[..remaining] + bytes[remaining..];
      bytes := bytes[..remaining];
      return Some(last);
    }

    /**
     * A copy with one component replaced, all others as they are; nothing if there is no such
     * component or no replacement for it.
     */
    method Replace(at: nat, change: Protocol -> Option<Protocol>) returns (r: Option<Bytes>)
      requires Valid()
      ensures r.Some? <==> at < |Parts()| && change(Parts()[at]).Some?
      ensures r.Some? ==> r.value == EncodeAll(Parts()[at := change(Parts()[at]).value])
      ensures r.Some? && WellFormed(change(Parts()[at]).value) ==>
        Components(r.value) == Success(Parts()[at := change(Parts()[at]).value])
    {
      r := ReplaceComponent(bytes, at, change);
      EncodedComponents(bytes);
      if r.Some? {
        AddressesAreEncodings(r.value, Parts()[at := change(Parts()[at]).value]);
      }
    }
  }
}
