/** The bulk gadget's request pools as values, and the moves that requests make between them. */
module ScaleRequests {
  import opened Common
  import opened Bits
  import opened ScalePackets

  type Req = nat

  function Count(rs: seq<Req>, r: Req): nat {
    multiset(rs)[r]
  }

  /** The bytes a request's buffer holds after its last completion. */
  function Payload(contents: map<Req, seq<Byte>>, r: Req): seq<Byte> {
    if r in contents then contents[r] else []
  }

  function Stream(contents: map<Req, seq<Byte>>, rs: seq<Req>): seq<Byte> {
    if rs == [] then [] else Payload(contents, rs[0]) + Stream(contents, rs[1..])
  }

  lemma {:induction false} StreamAppend(contents: map<Req, seq<Byte>>, rs: seq<Req>, r: Req)
    ensures Stream(contents, rs + [r]) == Stream(contents, rs) + Payload(contents, r)
  {
    if rs == [] {
      assert rs + [r] == [r];
    } else {
      assert (rs + [r])[1..] == rs[1..] + [r];
      StreamAppend(contents, rs[1..], r);
    }
  }

  lemma {:induction false} StreamFrame(contents: map<Req, seq<Byte>>, rs: seq<Req>, r: Req, data: seq<Byte>)
    requires r !in rs
    ensures Stream(contents[r := data], rs) == Stream(contents, rs)
  {
    if rs != [] {
      StreamFrame(contents, rs[1..], r, data);
    }
  }

  /** at says where in c each byte of a stands. */
  ghost predicate Embeds(at: seq<nat>, a: seq<Byte>, c: seq<Byte>) {
    && |at| == |a|
    && (forall i {:trigger at[i]} :: 0 <= i < |at| ==> at[i] < |c| && a[i] == c[at[i]])
    && (forall i, j {:trigger at[i], at[j]} :: 0 <= i < j < |at| ==> at[i] < at[j])
  }

  /** a is some of the bytes of c, in order. */
  ghost predicate Subseq(a: seq<Byte>, c: seq<Byte>) {
    exists at :: Embeds(at, a, c)
  }

  lemma SubseqSelf(a: seq<Byte>)
    ensures Subseq(a, a)
  {
    assert Embeds(seq(|a|, i requires 0 <= i => i), a, a);
  }

  lemma SubseqAppend(a: seq<Byte>, c: seq<Byte>, d: seq<Byte>)
    requires Subseq(a, c)
    ensures Subseq(a + d, c + d)
  {
    var at :| Embeds(at, a, c);
    assert Embeds(at + seq(|d|, i requires 0 <= i => |c| + i), a + d, c + d);
  }

  /** Leaving out a middle part m leaves a subsequence. */
  lemma SubseqDrop(a: seq<Byte>, m: seq<Byte>, b: seq<Byte>, c: seq<Byte>)
    requires Subseq(a + m + b, c)
    ensures Subseq(a + b, c)
  {
    var at :| Embeds(at, a + m + b, c);
    assert Embeds(at[..|a|] + at[|a| + |m|..], a + b, c);
  }

  lemma SubseqTransitive(a: seq<Byte>, b: seq<Byte>, c: seq<Byte>)
    requires Subseq(a, b) && Subseq(b, c)
    ensures Subseq(a, c)
  {
    var inB :| Embeds(inB, a, b);
    var inC :| Embeds(inC, b, c);
    assert Embeds(seq(|a|, i requires 0 <= i < |a| => inC[inB[i]]), a, c);
  }

  lemma SubseqExtend(a: seq<Byte>, c: seq<Byte>, d: seq<Byte>)
    requires Subseq(a, c)
    ensures Subseq(a, c + d)
  {
    SubseqAppend(a, c, d);
    assert a + d + [] == a + d;
    SubseqDrop(a, d, [], c + d);
    assert a + [] == a;
  }

  /** list_del of a request. */
  function Without(rs: seq<Req>, q: Req): (l: seq<Req>)
    ensures |l| == |rs| - if q in rs then 1 else 0
  {
    if rs == [] then [] else if rs[0] == q then rs[1..] else [rs[0]] + Without(rs[1..], q)
  }

  lemma {:induction false} WithoutCounts(rs: seq<Req>, q: Req, r: Req)
    requires q in rs
    ensures Count(rs, r) == Count(Without(rs, q), r) + (if r == q then 1 else 0)
  {
    PopCounts(rs, r);
    if rs[0] != q {
      WithoutCounts(rs[1..], q, r);
      PushCounts(Without(rs[1..], q), rs[0], r);
    }
  }

  lemma PushCounts(rs: seq<Req>, q: Req, r: Req)
    ensures Count([q] + rs, r) == Count(rs, r) + (if r == q then 1 else 0)
    ensures Count(rs + [q], r) == Count(rs, r) + (if r == q then 1 else 0)
  {
  }

  lemma PopCounts(rs: seq<Req>, r: Req)
    requires rs != []
    ensures Count(rs, r) == Count(rs[1..], r) + (if r == rs[0] then 1 else 0)
  {
    assert rs == [rs[0]] + rs[1..];
  }

  lemma {:induction false} DistinctCounts(rs: seq<Req>, r: Req)
    requires forall i, j :: 0 <= i < j < |rs| ==> rs[i] != rs[j]
    ensures Count(rs, r) == if r in rs then 1 else 0
  {
    if rs != [] {
      DistinctCounts(rs[1..], r);
      PopCounts(rs, r);
    }
  }

  /** A request in a reader's hands: `bytes` are left to copy, from offset pos of its buffer. */
  datatype Hand = Nothing | Hand(req: Req, pos: nat, bytes: nat)

  /**
    The receive side.  A request is free, submitted, completed, kept partly read by the device, or in
    the hands of a reader that has dropped the lock.  `completed` and `delivered` are histories: the
    payloads the controller completed and the bytes copied to callers; `intact` says no reset struck.
   */
  datatype Rx = Rx(reqs: seq<Req>, active: seq<Req>, buffers: seq<Req>, curReq: Option<Req>, curPos: nat,
                   curBytes: nat, hand: Hand, contents: map<Req, seq<Byte>>, pool: set<Req>,
                   completed: seq<Byte>, delivered: seq<Byte>, intact: bool)

  /** How many places hold the request. */
  ghost function RxPlaces(x: Rx, r: Req): nat {
    Count(x.reqs, r) + Count(x.active, r) + Count(x.buffers, r) + (if x.curReq == Some(r) then 1 else 0) +
    (if x.hand.Hand? && x.hand.req == r then 1 else 0)
  }

  /** Every receive request of the pool is in exactly one place, and no other request is anywhere. */
  ghost predicate RxConserved(x: Rx) {
    forall r :: RxPlaces(x, r) == if r in x.pool then 1 else 0
  }

  /** What is left of a request from position pos on. */
  function RestOf(contents: map<Req, seq<Byte>>, r: Req, pos: nat): seq<Byte> {
    var p := Payload(contents, r);
    p[Min(pos, |p|)..]
  }

  function CurRest(x: Rx): seq<Byte> {
    if x.curReq.Some? then RestOf(x.contents, x.curReq.value, x.curPos) else []
  }

  function HandRest(x: Rx): seq<Byte> {
    if x.hand.Hand? then RestOf(x.contents, x.hand.req, x.hand.pos) else []
  }

  ghost predicate Bookkeeping(x: Rx) {
    && (x.curReq.Some? <==> x.curBytes > 0)
    && (x.curReq.Some? ==> x.curPos + x.curBytes == |Payload(x.contents, x.curReq.value)|)
    && (x.hand.Hand? ==> x.curReq.None? && x.hand.bytes > 0 && x.hand.pos + x.hand.bytes == |Payload(x.contents, x.hand.req)|)
    && (forall r :: r in x.buffers ==> |Payload(x.contents, r)| > 0)
  }

  /** What was delivered, then what is kept back, then what waits. */
  function Seen(x: Rx): seq<Byte> {
    x.delivered + HandRest(x) + CurRest(x) + Stream(x.contents, x.buffers)
  }

  /** Nothing lost unless a reset struck; nothing invented, repeated or reordered even then. */
  ghost predicate Faithful(x: Rx) {
    if x.intact then Seen(x) == x.completed else Subseq(Seen(x), x.completed)
  }

  datatype Aspect = Pools | Books | Bytes

  ghost predicate Keeps(x: Rx, a: Aspect) {
    match a
    case Pools => RxConserved(x)
    case Books => Bookkeeping(x)
    case Bytes => Faithful(x)
  }

  ghost predicate RxInv(x: Rx) {
    forall a :: Keeps(x, a)
  }

  lemma Opened(x: Rx)
    requires RxInv(x)
    ensures RxConserved(x) && Bookkeeping(x) && Faithful(x)
  {
    assert Keeps(x, Pools) && Keeps(x, Books) && Keeps(x, Bytes);
  }

  lemma Closed(x: Rx)
    requires RxConserved(x) && Bookkeeping(x) && Faithful(x)
    ensures RxInv(x)
  {
  }

  // ----- moves

  /** rx_complete. */
  function RxDone(x: Rx, req: Req, status: int, data: seq<Byte>): Rx
    requires req in x.active
  {
    var y := x.(active := Without(x.active, req));
    if status == 0 && |data| > 0 then
      y.(buffers := y.buffers + [req], contents := y.contents[req := data], completed := y.completed + data)
    else
      y.(reqs := [req] + y.reqs)
  }

  lemma ActiveIsElsewhereNot(x: Rx, req: Req)
    requires RxConserved(x) && req in x.active
    ensures req !in x.buffers && x.curReq != Some(req) && (x.hand.Hand? ==> x.hand.req != req)
  {
    assert RxPlaces(x, req) <= 1;
    assert Count(x.active, req) >= 1;
    assert req in x.buffers <==> Count(x.buffers, req) >= 1;
  }

  lemma RxDonePlaces(x: Rx, req: Req, status: int, data: seq<Byte>, r: Req)
    requires req in x.active
    ensures RxPlaces(RxDone(x, req, status, data), r) == RxPlaces(x, r)
  {
    WithoutCounts(x.active, req, r);
    if status == 0 && |data| > 0 {
      PushCounts(x.buffers, req, r);
    } else {
      PushCounts(x.reqs, req, r);
    }
  }

  lemma RxDoneConserves(x: Rx, req: Req, status: int, data: seq<Byte>)
    requires RxConserved(x) && req in x.active
    ensures RxConserved(RxDone(x, req, status, data))
  {
    var y := RxDone(x, req, status, data);
    forall r ensures RxPlaces(y, r) == if r in y.pool then 1 else 0 {
      RxDonePlaces(x, req, status, data, r);
      assert RxPlaces(x, r) == if r in x.pool then 1 else 0;
    }
  }

  lemma RxDoneBooks(x: Rx, req: Req, data: seq<Byte>)
    requires Bookkeeping(x) && req in x.active && |data| > 0
    requires req !in x.buffers && x.curReq != Some(req) && (x.hand.Hand? ==> x.hand.req != req)
    ensures var y := RxDone(x, req, 0, data);
            Bookkeeping(y) && HandRest(y) == HandRest(x) && CurRest(y) == CurRest(x)
  {
  }

  lemma RxDoneStream(x: Rx, req: Req, data: seq<Byte>)
    requires Bookkeeping(x) && Faithful(x) && req in x.active && |data| > 0
    requires req !in x.buffers && x.curReq != Some(req) && (x.hand.Hand? ==> x.hand.req != req)
    ensures var y := RxDone(x, req, 0, data); Bookkeeping(y) && Faithful(y) && Seen(y) == Seen(x) + data
  {
    RxDoneBooks(x, req, data);
    StreamFrame(x.contents, x.buffers, req, data);
    StreamAppend(x.contents[req := data], x.buffers, req);
    var front := x.delivered + HandRest(x) + CurRest(x);
    Assoc(front, Stream(x.contents, x.buffers), data);
    if !x.intact {
      SubseqAppend(Seen(x), x.completed, data);
    }
  }

  lemma RxDoneKeeps(x: Rx, req: Req, status: int, data: seq<Byte>)
    requires RxInv(x) && req in x.active
    ensures RxInv(RxDone(x, req, status, data))
    ensures Seen(RxDone(x, req, status, data)) == if status == 0 && |data| > 0 then Seen(x) + data else Seen(x)
  {
    Opened(x);
    RxDoneConserves(x, req, status, data);
    if status == 0 && |data| > 0 {
      ActiveIsElsewhereNot(x, req);
      RxDoneStream(x, req, data);
    }
    Closed(RxDone(x, req, status, data));
  }

  /** One request moves from the free list to the controller. */
  function Submit(x: Rx): Rx
    requires x.reqs != []
  {
    x.(reqs := x.reqs[1..], active := [x.reqs[0]] + x.active)
  }

  lemma SubmitConserves(x: Rx)
    requires RxConserved(x) && x.reqs != []
    ensures RxConserved(Submit(x))
  {
    var y := Submit(x);
    forall r ensures RxPlaces(y, r) == if r in y.pool then 1 else 0 {
      assert RxPlaces(x, r) == if r in x.pool then 1 else 0;
      PopCounts(x.reqs, r);
      PushCounts(x.active, x.reqs[0], r);
    }
  }

  lemma SubmitKeeps(x: Rx)
    requires RxInv(x) && x.reqs != []
    ensures RxInv(Submit(x)) && Seen(Submit(x)) == Seen(x)
  {
    Opened(x);
    SubmitConserves(x);
    Closed(Submit(x));
  }

  /** A reader takes over the partly read request. */
  function TakeCurrent(x: Rx): Rx {
    x.(hand := if x.curReq.Some? then Hand(x.curReq.value, x.curPos, x.curBytes) else Nothing,
       curReq := None, curBytes := 0, curPos := 0)
  }

  lemma TakeCurrentConserves(x: Rx)
    requires RxConserved(x) && x.hand == Nothing
    ensures RxConserved(TakeCurrent(x))
  {
    var y := TakeCurrent(x);
    forall r ensures RxPlaces(y, r) == if r in y.pool then 1 else 0 {
      assert RxPlaces(x, r) == if r in x.pool then 1 else 0;
    }
  }

  lemma TakeCurrentKeeps(x: Rx)
    requires RxInv(x) && x.hand == Nothing
    ensures RxInv(TakeCurrent(x)) && Seen(TakeCurrent(x)) == Seen(x)
  {
    Opened(x);
    TakeCurrentConserves(x);
    assert Seen(TakeCurrent(x)) == Seen(x);
    Closed(TakeCurrent(x));
  }

  /** A reader with nothing in hand takes the oldest completed request. */
  function TakeBuffer(x: Rx): Rx
    requires x.buffers != []
  {
    var r := x.buffers[0];
    x.(buffers := x.buffers[1..], hand := Hand(r, 0, |Payload(x.contents, r)|))
  }

  lemma TakeBufferConserves(x: Rx)
    requires RxConserved(x) && x.hand == Nothing && x.buffers != []
    ensures RxConserved(TakeBuffer(x))
  {
    var y := TakeBuffer(x);
    forall r ensures RxPlaces(y, r) == if r in y.pool then 1 else 0 {
      assert RxPlaces(x, r) == if r in x.pool then 1 else 0;
      PopCounts(x.buffers, r);
    }
  }

  lemma TakeBufferBooks(x: Rx)
    requires Bookkeeping(x) && x.hand == Nothing && x.curReq == None && x.buffers != []
    ensures Bookkeeping(TakeBuffer(x)) && TakeBuffer(x).hand.bytes > 0
  {
    var y := TakeBuffer(x);
    assert x.buffers[0] in x.buffers;
    forall r | r in y.buffers ensures |Payload(y.contents, r)| > 0 {
      assert r in x.buffers;
    }
  }

  lemma NewFront(a: seq<Byte>, first: seq<Byte>, rest: seq<Byte>)
    ensures a + [] + [] + (first + rest) == a + first + [] + rest
  {
  }

  lemma RestOfAll(contents: map<Req, seq<Byte>>, r: Req)
    ensures RestOf(contents, r, 0) == Payload(contents, r)
  {
  }

  lemma TakeBufferSeen(x: Rx)
    requires x.hand == Nothing && x.curReq == None && x.buffers != []
    ensures Seen(TakeBuffer(x)) == Seen(x)
  {
    RestOfAll(x.contents, x.buffers[0]);
    NewFront(x.delivered, Payload(x.contents, x.buffers[0]), Stream(x.contents, x.buffers[1..]));
  }

  lemma TakeBufferKeeps(x: Rx)
    requires RxInv(x) && x.hand == Nothing && x.curReq == None && x.buffers != []
    ensures RxInv(TakeBuffer(x)) && Seen(TakeBuffer(x)) == Seen(x) && TakeBuffer(x).hand.bytes > 0
  {
    Opened(x);
    TakeBufferConserves(x);
    TakeBufferBooks(x);
    TakeBufferSeen(x);
    Closed(TakeBuffer(x));
  }

  /** The next n bytes of the request in hand, as far as it has them. */
  function NextBytes(x: Rx, n: nat): seq<Byte>
    requires x.hand.Hand?
  {
    var p := Payload(x.contents, x.hand.req);
    p[Min(x.hand.pos, |p|)..Min(x.hand.pos + n, |p|)]
  }

  /** The reader copied n bytes out; an emptied request goes back to the free list. */
  function Copy(x: Rx, n: nat): Rx
    requires x.hand.Hand? && n <= x.hand.bytes
  {
    var h := x.hand;
    var y := x.(delivered := x.delivered + NextBytes(x, n));
    if n < h.bytes then y.(hand := Hand(h.req, h.pos + n, h.bytes - n))
    else y.(hand := Nothing, reqs := [h.req] + y.reqs)
  }

  lemma CopyConserves(x: Rx, n: nat)
    requires RxConserved(x) && Bookkeeping(x) && x.hand.Hand? && n <= x.hand.bytes
    ensures RxConserved(Copy(x, n))
  {
    var y := Copy(x, n);
    forall r ensures RxPlaces(y, r) == if r in y.pool then 1 else 0 {
      assert RxPlaces(x, r) == if r in x.pool then 1 else 0;
      PushCounts(x.reqs, x.hand.req, r);
    }
  }

  lemma CopyBooks(x: Rx, n: nat)
    requires Bookkeeping(x) && x.hand.Hand? && n <= x.hand.bytes
    ensures var y, h := Copy(x, n), x.hand;
            && Bookkeeping(y) && CurRest(y) == CurRest(x)
            && HandRest(x) == NextBytes(x, n) + HandRest(y) && |NextBytes(x, n)| == n
  {
    var h, p := x.hand, Payload(x.contents, x.hand.req);
    assert p[h.pos..] == p[h.pos..h.pos + n] + p[h.pos + n..];
  }

  lemma CopyStream(x: Rx, n: nat)
    requires Bookkeeping(x) && Faithful(x) && x.hand.Hand? && n <= x.hand.bytes
    ensures Bookkeeping(Copy(x, n)) && Faithful(Copy(x, n)) && Seen(Copy(x, n)) == Seen(x)
  {
    CopyBooks(x, n);
    Assoc(x.delivered, NextBytes(x, n), HandRest(Copy(x, n)));
  }

  lemma CopyKeeps(x: Rx, n: nat)
    requires RxInv(x) && x.hand.Hand? && n <= x.hand.bytes
    ensures RxInv(Copy(x, n)) && Seen(Copy(x, n)) == Seen(x)
  {
    Opened(x);
    CopyConserves(x, n);
    CopyStream(x, n);
    Closed(Copy(x, n));
  }

  /** The reader leaves the rest for the next read. */
  function KeepCurrent(x: Rx): Rx {
    if x.hand.Hand? then x.(hand := Nothing, curReq := Some(x.hand.req), curPos := x.hand.pos, curBytes := x.hand.bytes)
    else x
  }

  lemma KeepCurrentKeeps(x: Rx)
    requires RxInv(x)
    ensures RxInv(KeepCurrent(x)) && Seen(KeepCurrent(x)) == Seen(x) && KeepCurrent(x).hand == Nothing
  {
    Opened(x);
    var y := KeepCurrent(x);
    forall r ensures RxPlaces(y, r) == if r in y.pool then 1 else 0 {
      assert RxPlaces(x, r) == if r in x.pool then 1 else 0;
    }
    assert Seen(y) == Seen(x);
    Closed(KeepCurrent(x));
  }

  /** Dropping the bytes kept back, in hand or not, leaves a subsequence of what completed. */
  lemma DropRest(x: Rx, y: Rx)
    requires Bookkeeping(x) && Faithful(x) && Bookkeeping(y) && y.hand == Nothing && y.curReq == None && !y.intact
    requires y.delivered == x.delivered && y.completed == x.completed
    requires y.contents == x.contents && y.buffers == x.buffers
    ensures Faithful(y)
  {
    SubseqSelf(Seen(x));
    var rest, waiting := HandRest(x) + CurRest(x), Stream(x.contents, x.buffers);
    assert Seen(x) == x.delivered + rest + waiting;
    SubseqDrop(x.delivered, rest, waiting, x.completed);
    assert Seen(y) == x.delivered + waiting;
  }

  /** After a reset the reader gives its request up. */
  function GiveUp(x: Rx): Rx {
    if x.hand.Hand? then x.(hand := Nothing, reqs := [x.hand.req] + x.reqs, intact := false) else x
  }

  lemma GiveUpKeeps(x: Rx)
    requires RxInv(x)
    ensures RxInv(GiveUp(x)) && GiveUp(x).hand == Nothing
  {
    Opened(x);
    var y := GiveUp(x);
    forall r ensures RxPlaces(y, r) == if r in y.pool then 1 else 0 {
      assert RxPlaces(x, r) == if r in x.pool then 1 else 0;
      if x.hand.Hand? {
        PushCounts(x.reqs, x.hand.req, r);
      }
    }
    if x.hand.Hand? {
      DropRest(x, y);
    }
    Closed(GiveUp(x));
  }

  /** The device part of a soft reset, once the controller has given every request back. */
  function DropCurrent(x: Rx): Rx {
    x.(reqs := if x.curReq.Some? then [x.curReq.value] + x.reqs else x.reqs,
       curReq := None, curBytes := 0, curPos := 0, intact := false)
  }

  lemma DropCurrentKeeps(x: Rx)
    requires RxInv(x)
    ensures RxInv(DropCurrent(x))
  {
    Opened(x);
    var y := DropCurrent(x);
    forall r ensures RxPlaces(y, r) == if r in y.pool then 1 else 0 {
      assert RxPlaces(x, r) == if r in x.pool then 1 else 0;
      if x.curReq.Some? {
        PushCounts(x.reqs, x.curReq.value, r);
      }
    }
    if x.hand.Hand? {
      assert Seen(y) == Seen(x);
      SubseqSelf(Seen(x));
    } else {
      DropRest(x, y);
    }
    Closed(DropCurrent(x));
  }

  // ----- the transmit side

  /** The transmit side; `queued` is the history of what the controller accepted. */
  datatype Tx = Tx(reqs: seq<Req>, active: seq<Req>, hand: Option<Req>, pool: set<Req>, queued: seq<Packet>)

  ghost function TxPlaces(t: Tx, r: Req): nat {
    Count(t.reqs, r) + Count(t.active, r) + (if t.hand == Some(r) then 1 else 0)
  }

  /** Every transmit request of the pool is in exactly one place, and no other request is anywhere. */
  ghost predicate TxInv(t: Tx) {
    forall r :: TxPlaces(t, r) == if r in t.pool then 1 else 0
  }

  /** tx_complete. */
  function TxDone(t: Tx, req: Req): Tx
    requires req in t.active
  {
    t.(active := Without(t.active, req), reqs := [req] + t.reqs)
  }

  lemma TxDoneKeeps(t: Tx, req: Req)
    requires TxInv(t) && req in t.active
    ensures TxInv(TxDone(t, req))
  {
    var u := TxDone(t, req);
    forall r ensures TxPlaces(u, r) == if r in u.pool then 1 else 0 {
      assert TxPlaces(t, r) == if r in t.pool then 1 else 0;
      WithoutCounts(t.active, req, r);
      PushCounts(t.reqs, req, r);
    }
  }

  function TxTake(t: Tx): Tx
    requires t.reqs != []
  {
    t.(reqs := t.reqs[1..], hand := Some(t.reqs[0]))
  }

  lemma TxTakeKeeps(t: Tx)
    requires TxInv(t) && t.hand == None && t.reqs != []
    ensures TxInv(TxTake(t))
  {
    var u := TxTake(t);
    forall r ensures TxPlaces(u, r) == if r in u.pool then 1 else 0 {
      assert TxPlaces(t, r) == if r in t.pool then 1 else 0;
      PopCounts(t.reqs, r);
    }
  }

  /** The writer's request goes back to the free list. */
  function TxPutBack(t: Tx): Tx
    requires t.hand.Some?
  {
    t.(hand := None, reqs := [t.hand.value] + t.reqs)
  }

  /** The writer's request, filled with p, was accepted by the controller. */
  function TxQueue(t: Tx, p: Packet): Tx
    requires t.hand.Some?
  {
    t.(hand := None, active := [t.hand.value] + t.active, queued := t.queued + [p])
  }

  lemma TxLeaveKeeps(t: Tx, p: Packet)
    requires TxInv(t) && t.hand.Some?
    ensures TxInv(TxPutBack(t)) && TxInv(TxQueue(t, p))
  {
    var u, v := TxPutBack(t), TxQueue(t, p);
    forall r ensures TxPlaces(u, r) == TxPlaces(v, r) == if r in t.pool then 1 else 0 {
      assert TxPlaces(t, r) == if r in t.pool then 1 else 0;
      PushCounts(t.reqs, t.hand.value, r);
      PushCounts(t.active, t.hand.value, r);
    }
  }

  // ----- set-up and interference

  function EmptyRx(pool: set<Req>): Rx {
    Rx([], [], [], None, 0, 0, Nothing, map[], pool, [], [], true)
  }

  function EmptyTx(pool: set<Req>): Tx {
    Tx([], [], None, pool, [])
  }

  lemma FreshInv(rxNew: seq<Req>, x: Rx, txNew: seq<Req>, t: Tx)
    requires forall i, j :: 0 <= i < j < |rxNew| ==> rxNew[i] != rxNew[j]
    requires forall i, j :: 0 <= i < j < |txNew| ==> txNew[i] != txNew[j]
    requires x == EmptyRx(set r | r in rxNew).(reqs := x.reqs) && multiset(x.reqs) == multiset(rxNew)
    requires t == EmptyTx(set r | r in txNew).(reqs := t.reqs) && multiset(t.reqs) == multiset(txNew)
    ensures RxInv(x) && TxInv(t)
  {
    forall r ensures RxPlaces(x, r) == if r in x.pool then 1 else 0 {
      DistinctCounts(rxNew, r);
    }
    forall r ensures TxPlaces(t, r) == if r in t.pool then 1 else 0 {
      DistinctCounts(txNew, r);
    }
    Closed(x);
  }

  /** What events leave alone on the receive side: the reader's hand and all that was delivered. */
  ghost predicate RxEnv(x: Rx, y: Rx) {
    && y.hand == x.hand && y.pool == x.pool && y.delivered == x.delivered
    && (x.curReq.None? ==> y.curReq.None?)
    && (y.intact ==> x.intact)
  }

  /** The bytes the reader has in hand stay as they are. */
  ghost predicate HandSafe(x: Rx, y: Rx) {
    x.hand.Hand? ==> Payload(y.contents, x.hand.req) == Payload(x.contents, x.hand.req)
  }

  ghost predicate TxEnv(t: Tx, u: Tx) {
    u.hand == t.hand && u.pool == t.pool && u.queued == t.queued
  }

  lemma RxDoneSafe(x: Rx, req: Req, status: int, data: seq<Byte>)
    requires RxInv(x) && req in x.active
    ensures HandSafe(x, RxDone(x, req, status, data))
  {
    Opened(x);
    ActiveIsElsewhereNot(x, req);
  }
}
