/**
 * One direction of one stream between two sessions: what the sender has emitted, the queues and the
 * wire in between, and what has arrived. Frames may be thrown away on the way (a full stop for the
 * session, a stream nobody holds any more), but nothing is ever reordered, duplicated or made up,
 * and what arrives is always a prefix of what was emitted.
 */
module YamuxTransport {
  import opened Subsequences
  import opened YamuxFrame
  import opened YamuxQueues

  /** The sending end, for one stream: the frames emitted, the session's queue, and whether it still sends. */
  datatype Tx = Tx(sent: seq<Frame>, queue: seq<Frame>, dead: bool)

  /** The receiving end: the frames arrived at the stream, those waiting, and whether more can arrive. */
  datatype Rx = Rx(front: seq<Frame>, pending: seq<Frame>, listening: bool)

  /** The frames the receiver can still act on. */
  function Ahead(tx: Tx, w: seq<Frame>): (r: seq<Frame>) {
    Before(if tx.dead then w else w + tx.queue)
  }

  /** Nothing has been thrown away on the sending side. */
  predicate Exact(tx: Tx, w: seq<Frame>) {
    !tx.dead && !HasGoAway(w + tx.queue)
  }

  ghost predicate Fifo(tx: Tx, w: seq<Frame>, rx: Rx, id: StreamId) {
    match rx
    case Rx(front, pending, listening) =>
      && front <= tx.sent
      && IsSubseq(Select(pending + (w + tx.queue), id), tx.sent[|front|..])
      && (listening ==>
            var ahead := Select(pending + Ahead(tx, w), id);
            ahead <= tx.sent[|front|..] && (Exact(tx, w) ==> ahead == tx.sent[|front|..]))
  }

  // ------------------------------------------------------------- the sender

  /** Frames move from the queue to the wire. */
  lemma TxMove(tx: Tx, tx': Tx, w: seq<Frame>, w': seq<Frame>, rx: Rx, id: StreamId)
    requires Fifo(tx, w, rx, id) && !tx.dead && !tx'.dead
    requires tx'.sent == tx.sent && w' + tx'.queue == w + tx.queue
    ensures Fifo(tx', w', rx, id)
  {
  }

  /** Frames without a GoAway join the end of the queue; those of the stream are emissions of its handle. */
  lemma TxEmit(tx: Tx, w: seq<Frame>, rx: Rx, id: StreamId, fs: seq<Frame>)
    requires Fifo(tx, w, rx, id) && !HasGoAway(fs)
    ensures Fifo(Tx(tx.sent + Select(fs, id), tx.queue + fs, tx.dead), w, rx, id)
  {
    var tx' := Tx(tx.sent + Select(fs, id), tx.queue + fs, tx.dead);
    var added, due, all := Select(fs, id), tx.sent[|rx.front|..], w + tx.queue;
    assert tx'.sent[|rx.front|..] == due + added;
    assert w + tx'.queue == all + fs;
    assert IsSubseq(Select(rx.pending + (all + fs), id), due + added) by {
      assert rx.pending + (all + fs) == (rx.pending + all) + fs;
      SelectAppend(rx.pending + all, fs, id);
      SubseqGrow(Select(rx.pending + all, id), due, added);
    }
    if !tx.dead {
      HasGoAwayAppend(all, fs);
      BeforeAppend(all, fs);
      if !HasGoAway(all) {
        BeforeAll(all);
        BeforeAll(fs);
        assert rx.pending + (all + fs) == (rx.pending + all) + fs;
        SelectAppend(rx.pending + all, fs, id);
      } else {
        BeforeAppend(all, []);
        assert all + [] == all;
      }
    }
  }

  /** A frame joins the middle of the queue, when no frame of its stream is behind it. */
  lemma TxPush(tx: Tx, w: seq<Frame>, rx: Rx, id: StreamId, q: seq<Frame>, f: Frame, e: seq<Frame>)
    requires Fifo(tx, w, rx, id) && tx.queue == q + e && f.Ty() != GoAway && !HasGoAway(e)
    requires Select([f], id) != [] ==> Select(e, id) == []
    ensures Fifo(Tx(tx.sent + Select([f], id), q + [f] + e, tx.dead), w, rx, id)
  {
    // pushing f in front of e looks, to this stream, like emitting it after e
    TxEmit(tx, w, rx, id, [f]);
    TxReorder(Tx(tx.sent + Select([f], id), tx.queue + [f], tx.dead), w, rx, id, q, f, e);
  }

  lemma TxReorder(tx: Tx, w: seq<Frame>, rx: Rx, id: StreamId, q: seq<Frame>, f: Frame, e: seq<Frame>)
    requires Fifo(tx, w, rx, id) && tx.queue == q + e + [f] && f.Ty() != GoAway && !HasGoAway(e)
    requires Select([f], id) != [] ==> Select(e, id) == []
    ensures Fifo(tx.(queue := q + [f] + e), w, rx, id)
  {
    assert Select([f] + e, id) == Select(e + [f], id) by {
      SelectAppend([f], e, id);
      SelectAppend(e, [f], id);
    }
    var p := w + q;
    assert w + tx.queue == p + (e + [f]) && w + (q + [f] + e) == p + ([f] + e);
    SelectMiddle(rx.pending, p, e + [f], [f] + e, id);
    HasGoAwayAppend(e, [f]);
    HasGoAwayAppend([f], e);
    HasGoAwayAppend(p, e + [f]);
    HasGoAwayAppend(p, [f] + e);
    BeforeAppend(p, e + [f]);
    BeforeAppend(p, [f] + e);
    BeforeAll(e + [f]);
    BeforeAll([f] + e);
  }

  lemma SelectMiddle(a: seq<Frame>, b: seq<Frame>, c: seq<Frame>, d: seq<Frame>, id: StreamId)
    requires Select(c, id) == Select(d, id)
    ensures Select(a + (b + c), id) == Select(a + (b + d), id)
  {
    SelectAppend(a, b + c, id);
    SelectAppend(a, b + d, id);
    SelectAppend(b, c, id);
    SelectAppend(b, d, id);
  }

  lemma BeforeIsPrefix(a: seq<Frame>, b: seq<Frame>)
    ensures Before(a) <= Before(a + b)
  {
    BeforeAppend(a, b);
    BeforeAppend(a, []);
    assert a + [] == a;
  }

  lemma SelectPrefix(p: seq<Frame>, a: seq<Frame>, b: seq<Frame>, id: StreamId)
    requires a <= b
    ensures Select(p + a, id) <= Select(p + b, id)
  {
    assert p + b == (p + a) + b[|a|..];
    SelectAppend(p + a, b[|a|..], id);
  }

  /** Taking a stretch out of a list of frames takes a stretch out of each stream. */
  lemma SelectCut(a: seq<Frame>, cut: seq<Frame>, c: seq<Frame>, id: StreamId)
    ensures IsSubseq(Select(a + c, id), Select(a + (cut + c), id))
  {
    SelectAppend(a, c, id);
    SelectAppend(a, cut + c, id);
    SelectAppend(cut, c, id);
    SubseqCut(Select(a, id), Select(cut, id), Select(c, id));
    assert Select(a, id) + (Select(cut, id) + Select(c, id)) == Select(a, id) + Select(cut, id) + Select(c, id);
  }

  /** The queue is thrown away up to e, and a GoAway takes its place, on the wire or still queued. */
  lemma TxGoAway(tx: Tx, tx': Tx, w: seq<Frame>, w': seq<Frame>, rx: Rx, id: StreamId,
                 q: seq<Frame>, g: Frame, e: seq<Frame>)
    requires Fifo(tx, w, rx, id) && tx.queue == q + e && g.Ty() == GoAway
    requires tx'.sent == tx.sent && w' + tx'.queue == w + ([g] + e) && w <= w' <= w + [g]
    ensures Fifo(tx', w', rx, id)
  {
    assert IsSubseq(Select(rx.pending + (w' + tx'.queue), id), tx.sent[|rx.front|..]) by {
      var p := rx.pending + w;
      assert rx.pending + (w' + tx'.queue) == p + ([g] + e) && rx.pending + (w + tx.queue) == p + (q + e);
      SelectOne(g, id);
      SelectAppend([g], e, id);
      SelectMiddle([], p, e, [g] + e, id);
      assert [] + (p + e) == p + e && [] + (p + ([g] + e)) == p + ([g] + e);
      SelectCut(p, q, e, id);
      SubseqTrans(Select(p + e, id), Select(p + (q + e), id), tx.sent[|rx.front|..]);
    }
    assert Ahead(tx', w') == Before(w) by {
      BeforeAppend(w, [g] + e);
      BeforeAppend(w, [g]);
      BeforeAppend(w, []);
      assert w + [] == w;
      assert w' == w || w' == w + [g];
    }
    BeforeIsPrefix(w, tx.queue);
    SelectPrefix(rx.pending, Before(w), Ahead(tx, w), id);
    assert !Exact(tx', w') by {
      assert (w + ([g] + e))[|w|] == g;
    }
  }

  /** The session stops sending, keeping at most part of its queue. */
  lemma TxDie(tx: Tx, tx': Tx, w: seq<Frame>, rx: Rx, id: StreamId, cut: seq<Frame>)
    requires Fifo(tx, w, rx, id) && tx'.dead && tx'.sent == tx.sent && tx.queue == cut + tx'.queue
    ensures Fifo(tx', w, rx, id)
  {
    assert IsSubseq(Select(rx.pending + (w + tx'.queue), id), tx.sent[|rx.front|..]) by {
      var p := rx.pending + w;
      assert rx.pending + (w + tx'.queue) == p + tx'.queue && rx.pending + (w + tx.queue) == p + (cut + tx'.queue);
      SelectCut(p, cut, tx'.queue, id);
      SubseqTrans(Select(p + tx'.queue, id), Select(p + tx.queue, id), tx.sent[|rx.front|..]);
    }
    BeforeIsPrefix(w, tx.queue);
    SelectPrefix(rx.pending, Before(w), Ahead(tx, w), id);
  }

  // ----------------------------------------------------------- the receiver

  /** The session takes a frame from the wire into its pending frames. */
  lemma RxReceive(tx: Tx, w: seq<Frame>, rx: Rx, id: StreamId)
    requires Fifo(tx, w, rx, id) && w != [] && w[0].Ty() != GoAway
    ensures Fifo(tx, w[1..], rx.(pending := rx.pending + [w[0]]), id)
  {
    var f, w', p := w[0], w[1..], rx.pending;
    assert (p + [f]) + (w' + tx.queue) == p + (w + tx.queue);
    assert w == [f] + w' && w + tx.queue == [f] + (w' + tx.queue);
    BeforeAppend([f], w');
    BeforeAppend([f], w' + tx.queue);
    assert (p + [f]) + Ahead(tx, w') == p + Ahead(tx, w);
    HasGoAwayAppend([f], w' + tx.queue);
  }

  /** The session takes a frame from the wire that is neither of this stream nor a GoAway. */
  lemma RxSkip(tx: Tx, w: seq<Frame>, rx: Rx, id: StreamId)
    requires Fifo(tx, w, rx, id) && w != [] && w[0].Ty() != GoAway && Select([w[0]], id) == []
    ensures Fifo(tx, w[1..], rx, id)
  {
    RxReceive(tx, w, rx, id);
    RxDrop(tx, w[1..], rx.(pending := rx.pending + [w[0]]), id, rx.pending, w[0], []);
    assert rx.pending + [] == rx.pending;
  }

  /** The session stops receiving; it may have taken one last frame from the wire. */
  lemma RxDeafen(tx: Tx, w: seq<Frame>, w': seq<Frame>, rx: Rx, id: StreamId)
    requires Fifo(tx, w, rx, id) && (w' == w || (w != [] && w' == w[1..]))
    ensures Fifo(tx, w', rx.(listening := false), id)
  {
    if w' != w {
      var p := rx.pending;
      assert rx.pending + (w + tx.queue) == p + ([w[0]] + (w' + tx.queue));
      SelectCut(p, [w[0]], w' + tx.queue, id);
      SubseqTrans(Select(p + (w' + tx.queue), id), Select(p + (w + tx.queue), id), tx.sent[|rx.front|..]);
    }
  }

  /** A pending frame that is of another stream, or of a stream nobody listens to, is taken out. */
  lemma RxDrop(tx: Tx, w: seq<Frame>, rx: Rx, id: StreamId, a: seq<Frame>, f: Frame, c: seq<Frame>)
    requires Fifo(tx, w, rx, id) && rx.pending == a + [f] + c && (rx.listening ==> Select([f], id) == [])
    ensures Fifo(tx, w, rx.(pending := a + c), id)
  {
    var q := w + tx.queue;
    assert a + [f] + c + q == a + ([f] + (c + q)) && a + c + q == a + (c + q);
    SelectCut(a, [f], c + q, id);
    SubseqTrans(Select(a + (c + q), id), Select(a + [f] + c + q, id), tx.sent[|rx.front|..]);
    if rx.listening {
      var r := c + Ahead(tx, w);
      assert a + [f] + c + Ahead(tx, w) == a + ([f] + r) && a + c + Ahead(tx, w) == a + r;
      SelectAppend([f], r, id);
      SelectMiddle([], a, [f] + r, r, id);
      assert [] + (a + ([f] + r)) == a + ([f] + r) && [] + (a + r) == a + r;
    }
  }

  /** The first pending frame of the stream reaches it. */
  lemma RxDeliver(tx: Tx, w: seq<Frame>, rx: Rx, id: StreamId, a: seq<Frame>, f: Frame, c: seq<Frame>)
    requires Fifo(tx, w, rx, id) && rx.listening && rx.pending == a + [f] + c
    requires Select(a, id) == [] && f.OnStream() && f.Id() == id
    ensures rx.front + [f] <= tx.sent
    ensures Fifo(tx, w, rx.(front := rx.front + [f], pending := a + c), id)
  {
    var due, front', ahead, q := tx.sent[|rx.front|..], rx.front + [f], Ahead(tx, w), w + tx.queue;
    assert rx.pending + ahead == a + ([f] + (c + ahead)) && a + c + ahead == a + (c + ahead);
    assert rx.pending + q == a + ([f] + (c + q)) && a + c + q == a + (c + q);
    SelectHead(a, f, c + ahead, id);
    SelectHead(a, f, c + q, id);
    DueHead(tx.sent, rx.front, f, Select(a + (c + ahead), id), Select(a + (c + q), id));
  }

  lemma DueHead(sent: seq<Frame>, front: seq<Frame>, f: Frame, ahead: seq<Frame>, flight: seq<Frame>)
    requires front <= sent && [f] + ahead <= sent[|front|..] && IsSubseq([f] + flight, sent[|front|..])
    ensures front + [f] <= sent
    ensures ahead <= sent[|front + [f]|..] && IsSubseq(flight, sent[|front + [f]|..])
    ensures [f] + ahead == sent[|front|..] ==> ahead == sent[|front + [f]|..]
  {
    var due := sent[|front|..];
    assert due[0] == f && due[1..] == sent[|front| + 1..];
    assert ([f] + flight)[1..] == flight;
    assert ([f] + ahead)[1..] == ahead;
  }

  lemma SelectHead(a: seq<Frame>, f: Frame, c: seq<Frame>, id: StreamId)
    requires Select(a, id) == [] && f.OnStream() && f.Id() == id
    ensures Select(a + ([f] + c), id) == [f] + Select(a + c, id)
  {
    SelectAppend(a, [f] + c, id);
    SelectAppend([f], c, id);
    SelectOne(f, id);
    SelectAppend(a, c, id);
  }

  // ------------------------------------------------------------ what follows

  /** What is in flight, with what has arrived, never carries more than was emitted. */
  lemma FifoTotals(tx: Tx, w: seq<Frame>, rx: Rx, id: StreamId)
    requires Fifo(tx, w, rx, id)
    ensures var flight := Select(rx.pending + (w + tx.queue), id);
      && |PayloadOf(rx.front)| + |PayloadOf(flight)| <= |PayloadOf(tx.sent)|
      && CreditOf(rx.front) + CreditOf(flight) <= CreditOf(tx.sent)
      && (rx.listening && Exact(tx, w) ==>
            && PayloadOf(rx.front) + PayloadOf(flight) == PayloadOf(tx.sent)
            && CreditOf(rx.front) + CreditOf(flight) == CreditOf(tx.sent))
  {
    var due := tx.sent[|rx.front|..];
    assert tx.sent == rx.front + due;
    PayloadOfAppend(rx.front, due);
    CreditOfAppend(rx.front, due);
    SubseqTotals(Select(rx.pending + (w + tx.queue), id), due);
    if Exact(tx, w) {
      BeforeAll(w + tx.queue);
    }
  }

  lemma PrefixTotals(a: seq<Frame>, b: seq<Frame>)
    requires a <= b
    ensures PayloadOf(a) <= PayloadOf(b) && CreditOf(a) <= CreditOf(b)
  {
    assert b == a + b[|a|..];
    PayloadOfAppend(a, b[|a|..]);
    CreditOfAppend(a, b[|a|..]);
  }
}
