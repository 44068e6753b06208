/** Lists of frames as the queues between two sessions see them. */
module YamuxQueues {
  import opened Subsequences
  import opened YamuxFrame

  /** The frames of one stream, in order. */
  function Select(fs: seq<Frame>, id: StreamId): (r: seq<Frame>) {
    if fs == [] then []
    else (if fs[0].OnStream() && fs[0].Id() == id then [fs[0]] else []) + Select(fs[1..], id)
  }

  lemma {:induction false} SelectAppend(a: seq<Frame>, b: seq<Frame>, id: StreamId)
    ensures Select(a + b, id) == Select(a, id) + Select(b, id)
  {
    if a == [] {
      assert a + b == b;
    } else {
      var head := if a[0].OnStream() && a[0].Id() == id then [a[0]] else [];
      assert Select(a + b, id) == head + (Select(a[1..], id) + Select(b, id)) by {
        SelectAppend(a[1..], b, id);
        assert (a + b)[0] == a[0] && (a + b)[1..] == a[1..] + b;
      }
    }
  }

  lemma SelectOne(f: Frame, id: StreamId)
    ensures Select([f], id) == if f.OnStream() && f.Id() == id then [f] else []
  {
    assert Select([f], id) == (if f.OnStream() && f.Id() == id then [f] else []) + Select([], id);
  }

  lemma {:induction false} SelectNone(fs: seq<Frame>, id: StreamId)
    requires forall f :: f in fs ==> !(f.OnStream() && f.Id() == id)
    ensures Select(fs, id) == []
  {
    if fs != [] {
      SelectNone(fs[1..], id);
    }
  }

  lemma {:induction false} SelectAll(fs: seq<Frame>, id: StreamId)
    requires forall f :: f in fs ==> f.OnStream() && f.Id() == id
    ensures Select(fs, id) == fs
  {
    if fs != [] {
      SelectAll(fs[1..], id);
    }
  }

  lemma {:induction false} SelectMember(fs: seq<Frame>, f: Frame)
    requires f in fs && f.OnStream()
    ensures f in Select(fs, f.Id())
  {
    if fs[0] != f {
      SelectMember(fs[1..], f);
    }
  }

  predicate HasGoAway(fs: seq<Frame>) {
    exists i :: 0 <= i < |fs| && fs[i].Ty() == GoAway
  }

  lemma HasGoAwayAppend(a: seq<Frame>, b: seq<Frame>)
    ensures HasGoAway(a + b) <==> HasGoAway(a) || HasGoAway(b)
  {
    assert forall i :: 0 <= i < |a| ==> (a + b)[i] == a[i];
    assert forall i :: 0 <= i < |b| ==> (a + b)[|a| + i] == b[i];
  }

  /** What comes before the first GoAway: all the peer will ever act on. */
  function Before(fs: seq<Frame>): (r: seq<Frame>) {
    if fs == [] || fs[0].Ty() == GoAway then [] else [fs[0]] + Before(fs[1..])
  }

  lemma {:induction false} BeforeAppend(a: seq<Frame>, b: seq<Frame>)
    ensures Before(a + b) == if HasGoAway(a) then Before(a) else a + Before(b)
  {
    if a == [] {
      assert a + b == b;
    } else {
      assert (a + b)[0] == a[0] && (a + b)[1..] == a[1..] + b;
      if a[0].Ty() != GoAway {
        BeforeAppend(a[1..], b);
        assert HasGoAway(a) <==> HasGoAway(a[1..]) by {
          assert forall i :: 0 <= i < |a[1..]| ==> a[1..][i] == a[i + 1];
          assert forall i :: 0 < i < |a| ==> a[i] == a[1..][i - 1];
        }
        assert [a[0]] + (a[1..] + Before(b)) == a + Before(b);
      }
    }
  }

  lemma BeforeAll(a: seq<Frame>)
    requires !HasGoAway(a)
    ensures Before(a) == a
  {
    BeforeAppend(a, []);
    assert a + [] == a;
  }

  /** What a subsequence carries, its source carries too. */
  lemma {:induction false} SubseqTotals(a: seq<Frame>, b: seq<Frame>)
    requires IsSubseq(a, b)
    ensures |PayloadOf(a)| <= |PayloadOf(b)| && CreditOf(a) <= CreditOf(b)
    decreases |b|
  {
    if a != [] {
      if a[0] == b[0] {
        SubseqTotals(a[1..], b[1..]);
      } else {
        SubseqTotals(a, b[1..]);
      }
    }
  }
}
