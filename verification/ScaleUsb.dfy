/**
  The bulk gadget device.  Each method is proved to do what its model does to the device's value; callers
  pass a schedule of what happens while they have dropped the device lock.  Completions are taken to be
  atomic with respect to the lock, and usb_ep_disable to give back every submitted request through its
  completion routine.
 */
module ScaleUsb {
  import opened Common
  import opened Bits
  import opened ScaleRequests
  import opened ScalePackets
  import opened ScaleModel
  import opened ScaleRuns

  /** list_add of each request in turn. */
  method ListAll(rs: seq<Req>) returns (l: seq<Req>)
    ensures l == Listed(rs)
  {
    l := [];
    for i := 0 to |rs|
      invariant l == Listed(rs[..i])
    {
      assert rs[..i + 1][..i] == rs[..i];
      l := [rs[i]] + l;
    }
    assert rs[..|rs|] == rs;
  }

  class ScaleDev {
    var rx: Rx
    var tx: Tx
    var interface: int
    var resetScale: bool

    function St(): Dev
      reads this
    {
      Dev(rx, tx, interface, resetScale)
    }

    /** Takes QLEN freshly allocated requests for each direction. */
    constructor (rxNew: seq<Req>, txNew: seq<Req>)
      requires |rxNew| == QLEN && |txNew| == QLEN && Distinct(rxNew) && Distinct(txNew)
      ensures St() == Fresh(rxNew, txNew) && Idle(St())
      ensures multiset(rx.reqs) == multiset(rxNew) && multiset(tx.reqs) == multiset(txNew)
    {
      var txList := ListAll(txNew);
      var rxList := ListAll(rxNew);
      rx := EmptyRx(set r | r in rxNew).(reqs := rxList);
      tx := EmptyTx(set r | r in txNew).(reqs := txList);
      interface, resetScale := -1, false;
      FreshIdle(rxNew, txNew);
      ListedAll(rxNew);
      ListedAll(txNew);
    }

    /** The controller finished a receive request. */
    method RxComplete(req: Req, status: int, data: seq<Byte>)
      requires req in rx.active
      modifies this`rx
      ensures rx == RxDone(old(rx), req, status, data)
    {
      rx := rx.(active := Without(rx.active, req));
      if status == 0 {
        if |data| > 0 {
          rx := rx.(contents := rx.contents[req := data], completed := rx.completed + data);
          rx := rx.(buffers := rx.buffers + [req]);
        } else {
          rx := rx.(reqs := [req] + rx.reqs);
        }
      } else {
        rx := rx.(reqs := [req] + rx.reqs);
      }
    }

    /** The controller finished a transmit request, well or not. */
    method TxComplete(req: Req)
      requires req in tx.active
      modifies this`tx
      ensures tx == TxDone(old(tx), req)
    {
      tx := tx.(active := Without(tx.active, req), reqs := [req] + tx.reqs);
    }

    /** Submits free receive requests until none is left or the controller refuses one. */
    method SetupRxReqs(accept: nat)
      modifies this`rx
      ensures rx == Submitted(old(rx), accept)
    {
      var left := accept;
      while rx.reqs != []
        invariant Submitted(rx, left) == Submitted(old(rx), accept)
        decreases |rx.reqs|
      {
        var req := rx.reqs[0];
        if left == 0 {
          break;
        }
        rx := rx.(reqs := rx.reqs[1..], active := [req] + rx.active);
        left := left - 1;
      }
    }

    /** usb_ep_disable on the transmit endpoint: submitted requests come back, oldest first. */
    method DisableIn()
      modifies this`tx
      ensures tx == GiveBackTx(old(tx))
    {
      while tx.active != []
        invariant GiveBackTx(tx) == GiveBackTx(old(tx))
        decreases |tx.active|
      {
        TxComplete(tx.active[|tx.active| - 1]);
      }
    }

    /** usb_ep_disable on the receive endpoint. */
    method DisableOut()
      modifies this`rx
      ensures rx == GiveBackRx(old(rx))
    {
      while rx.active != []
        invariant GiveBackRx(rx) == GiveBackRx(old(rx))
        decreases |rx.active|
      {
        RxComplete(rx.active[|rx.active| - 1], -ESHUTDOWN, []);
      }
    }

    /** Soft reset: everything submitted comes back, the partly read request is dropped. */
    method SoftReset()
      modifies this`rx, this`tx, this`resetScale
      ensures St() == ResetAll(old(St()))
    {
      DisableIn();
      DisableOut();
      if rx.curReq != None {
        rx := rx.(reqs := [rx.curReq.value] + rx.reqs, curReq := None);
      }
      rx := rx.(curBytes := 0, curPos := 0, intact := false);
      resetScale := true;
      FreeActive();
    }

    /** Moves what is still on the active list to the free list; after usb_ep_disable there is nothing. */
    method FreeActive()
      modifies this`tx
      ensures tx.active == [] && (old(tx.active) == [] ==> tx == old(tx))
      ensures TxInv(old(tx)) ==> TxInv(tx)
    {
      while tx.active != []
        invariant old(tx.active) == [] ==> tx == old(tx)
        invariant TxInv(old(tx)) ==> TxInv(tx)
        decreases |tx.active|
      {
        if TxInv(tx) {
          TxDoneKeeps(tx, tx.active[0]);
        }
        tx := tx.(active := tx.active[1..], reqs := [tx.active[0]] + tx.reqs);
      }
    }

    /** One event; one about a request that is not submitted does nothing. */
    method Happen(e: Event)
      modifies this`rx, this`tx, this`resetScale
      ensures St() == Happened(old(St()), e)
    {
      match e {
        case RxFinished(req, status, data) =>
          if req in rx.active {
            RxComplete(req, status, data);
          }
        case TxFinished(req) =>
          if req in tx.active {
            TxComplete(req);
          }
        case Reset =>
          SoftReset();
      }
    }

    /** Lets a chunk of events happen. */
    method Interfere(evs: seq<Event>)
      modifies this`rx, this`tx, this`resetScale
      ensures St() == Interfered(old(St()), evs)
    {
      for j := 0 to |evs|
        invariant St() == Interfered(old(St()), evs[..j])
      {
        assert evs[..j + 1][..j] == evs[..j];
        Happen(evs[j]);
      }
      assert evs[..|evs|] == evs;
    }

    // ----- reading

    /** The reader takes the oldest completed request unless it has one in hand. */
    method Grab()
      requires HasData(rx)
      modifies this`rx
      ensures St() == Grabbed(old(St()))
    {
      if rx.hand == Nothing {
        var req := rx.buffers[0];
        rx := rx.(buffers := rx.buffers[1..], hand := Hand(req, 0, |Payload(rx.contents, req)|));
      }
    }

    /** After the copy: the request is given up if a reset struck, else n bytes are booked as delivered. */
    method Settle(n: nat)
      requires rx.hand.Hand? && n <= rx.hand.bytes
      modifies this`rx
      ensures St() == AfterCopy(old(St()), n)
    {
      if resetScale {
        rx := rx.(reqs := [rx.hand.req] + rx.reqs, hand := Nothing, intact := false);
      } else {
        BookCopied(n);
      }
    }

    /** One turn of the copy loop, in which a copy misses some bytes and events strike. */
    method CopyTurn(len: nat, missed: nat, sched: seq<seq<Event>>, k: nat, ghost turn: Turns) returns (piece: seq<Byte>)
      requires AtWork(St()) && HasData(rx) && len > 0 && TurnsOf(turn, sched)
      modifies this`rx, this`tx, this`resetScale
      ensures Turn(St(), piece) == turn(old(St()), len, missed, k)
    {
      assert IsWorld(Scheduled(sched), sched);
      ScheduledSane(sched);
      GrabbedKeeps(St());
      Grab();
      ghost var g := St();
      var size := if len > rx.hand.bytes then rx.hand.bytes else len;
      var n := Moved(size, missed);
      piece := NextBytes(rx, n);
      Interfere(Chunk(sched, k));
      assert MayBecome(g, Scheduled(sched)(g, k));
      Settle(n);
    }

    /** Books n bytes as copied; an emptied request goes back to the free list. */
    method BookCopied(n: nat)
      requires rx.hand.Hand? && n <= rx.hand.bytes
      modifies this`rx
      ensures rx == Copy(old(rx), n)
    {
      var h := rx.hand;
      rx := rx.(delivered := rx.delivered + NextBytes(rx, n));
      if n < h.bytes {
        rx := rx.(hand := Hand(h.req, h.pos + n, h.bytes - n));
      } else {
        rx := rx.(hand := Nothing, reqs := [h.req] + rx.reqs);
      }
    }

    /** One turn of the copy loop on its way to `whole`. */
    method LoopTurn(len: nat, sched: seq<seq<Event>>, k: nat, faults: seq<nat>, c: nat, ghost turn: Turns,
                    ghost whole: Reading, ghost out: seq<Byte>)
      returns (piece: seq<Byte>)
      requires AtWork(St()) && TurnsOf(turn, sched) && Proper(turn) && HasData(rx) && len > 0
      requires Going(whole, out, St(), len, turn, k, faults, c)
      modifies this`rx, this`tx, this`resetScale
      ensures AtWork(St()) && |piece| <= len
      ensures Ahead(faults, c + 1) < Ahead(faults, c) || (Ahead(faults, c + 1) == Ahead(faults, c) && piece != [])
      ensures if resetScale then whole == Reading(St(), true, out + piece)
              else Going(whole, out + piece, St(), len - |piece|, turn, k + 1, faults, c + 1)
    {
      GoingOn(whole, out, St(), len, turn, k, faults, c);
      piece := CopyTurn(len, Missed(faults, c), sched, k, turn);
    }

    /** The copy loop: takes completed requests in turn until the caller has len0 bytes or none is left. */
    method CopyLoop(len0: nat, sched: seq<seq<Event>>, k0: nat, faults: seq<nat>, ghost turn: Turns)
      returns (aborted: bool, out: seq<Byte>)
      requires AtWork(St()) && TurnsOf(turn, sched) && Proper(turn)
      modifies this`rx, this`tx, this`resetScale
      ensures Reading(St(), aborted, out) == ReadLoop(old(St()), len0, turn, k0, faults, 0)
    {
      ghost var whole := ReadLoop(St(), len0, turn, k0, faults, 0);
      GoingStart(St(), len0, turn, k0, faults);
      out := [];
      var len: nat, k: nat, c: nat := len0, k0, 0;
      while HasData(rx) && len > 0
        invariant AtWork(St()) && Going(whole, out, St(), len, turn, k, faults, c)
        decreases Ahead(faults, c), len
      {
        var piece := LoopTurn(len, sched, k, faults, c, turn, whole, out);
        k, c := k + 1, c + 1;
        out := out + piece;
        len := len - |piece|;
        if resetScale {
          return true, out;
        }
      }
      GoingDone(whole, out, St(), len, turn, k, faults, c);
      KeepRest();
      aborted := false;
    }

    /** What the reader has not copied stays for the next read. */
    method KeepRest()
      modifies this`rx
      ensures St() == Kept(old(St())).dev
    {
      if rx.hand.Hand? {
        rx := rx.(curReq := Some(rx.hand.req), curPos := rx.hand.pos, curBytes := rx.hand.bytes, hand := Nothing);
      }
    }

    /**
      A read of up to len bytes.  `accept` limits the submissions the controller takes, `sched` says
      what happens while the lock is dropped, `faults` how many bytes each copy to the caller misses.
     */
    method DoRead(len: nat, nonblock: bool, accept: nat, sched: seq<seq<Event>>, faults: seq<nat>)
      returns (ret: int, out: seq<Byte>)
      requires Idle(St()) && Sane(Scheduled(sched))
      modifies this`rx, this`tx, this`resetScale
      ensures ReadDone(St(), ret, out) == Read(old(St()), len, nonblock, accept, Scheduled(sched), faults)
    {
      out := [];
      if len == 0 {
        return -EINVAL, out;
      }
      StartedKeeps(St(), accept);
      TurnsAreProper(Scheduled(sched));
      resetScale := false;
      SetupRxReqs(accept);
      var hand := if rx.curReq.Some? then Hand(rx.curReq.value, rx.curPos, rx.curBytes) else Nothing;
      rx := rx.(hand := hand, curReq := None, curPos := 0, curBytes := 0);
      var k: nat := 0;
      if !HasData(rx) {
        if nonblock {
          return -EAGAIN, out;
        }
        ghost var e := St();
        Interfere(Chunk(sched, 0));
        assert MayBecome(e, Scheduled(sched)(e, 0));
        k := 1;
      }
      var aborted;
      aborted, out := CopyLoop(len, sched, k, faults, TurnsIn(Scheduled(sched)));
      ret := if !aborted && |out| > 0 then |out| else -EAGAIN;
    }

    // ----- writing

    /** One turn of the transmit loop: a free request is filled, then queued unless something fails. */
    method FillTurn(p: Packet, trouble: Trouble, sched: seq<seq<Event>>, k: nat, c: nat, ghost send: Sends)
      returns (queued: bool)
      requires Good(St()) && tx.hand == None && tx.reqs != [] && SendsOf(send, trouble, sched)
      modifies this`rx, this`tx, this`resetScale
      ensures Sent(St(), queued, trouble.Fails(c)) == send(old(St()), p, k, c)
    {
      assert IsWorld(Scheduled(sched), sched);
      ScheduledSane(sched);
      TxTakeKeeps(tx);
      var req := tx.reqs[0];
      tx := tx.(reqs := tx.reqs[1..], hand := Some(req));
      ghost var g := St();
      Interfere(Chunk(sched, k));
      assert MayBecome(g, Scheduled(sched)(g, k));
      queued := !trouble.Fails(c) && !resetScale && !trouble.Refuses(c);
      if queued {
        tx := tx.(hand := None, active := [req] + tx.active, queued := tx.queued + [p]);
      } else {
        tx := tx.(hand := None, reqs := [req] + tx.reqs);
      }
    }

    /** The transmit loop: fills and queues free requests until the buffer or the requests run out. */
    method FillLoop(buf: seq<Byte>, maxPacket: nat, sched: seq<seq<Event>>, k: nat, trouble: Trouble, ghost send: Sends)
      returns (end: End, sent: seq<Packet>, rest: seq<Byte>)
      requires Good(St()) && tx.hand == None && maxPacket > 0 && SendsOf(send, trouble, sched) && ProperSends(send)
      modifies this`rx, this`tx, this`resetScale
      ensures Sending(St(), end, sent, rest) == SendLoop(old(St()), buf, maxPacket, send, k, 0)
    {
      ghost var whole := SendLoop(St(), buf, maxPacket, send, k, 0);
      SendGoingStart(St(), buf, maxPacket, send, k);
      sent, rest, end := [], buf, RanOut;
      var c: nat := 0;
      while tx.reqs != [] && rest != []
        invariant Good(St()) && tx.hand == None && end == RanOut
        invariant SendGoing(whole, sent, St(), rest, maxPacket, send, k + c, c)
        decreases |rest|
      {
        SendGoingOn(whole, sent, St(), rest, maxPacket, send, k + c, c);
        var p := Piece(rest, maxPacket);
        var queued := FillTurn(p, trouble, sched, k + c, c, send);
        if !queued {
          end := if trouble.Fails(c) then CopyFault else Refused;
          return;
        }
        sent := sent + [p];
        rest := rest[PieceSize(|rest|)..];
        c := c + 1;
      }
      SendGoingDone(whole, sent, St(), rest, maxPacket, send, k + c, c);
    }

    /** Waits for a free request if there is none. */
    method AwaitFree(sched: seq<seq<Event>>) returns (k: nat)
      modifies this`rx, this`tx, this`resetScale
      ensures St() == Awaited(old(St()), Scheduled(sched)) && k == if old(tx).reqs == [] then 1 else 0
    {
      resetScale := false;
      k := 0;
      if tx.reqs == [] {
        Interfere(Chunk(sched, 0));
        k := 1;
      }
    }

    /**
      A blocking write.  `sent` lists the requests the controller accepted; `trouble` says in which turns
      the copy from the caller faults and the controller refuses.
     */
    method DoWrite(buf: seq<Byte>, maxPacket: nat, sched: seq<seq<Event>>, trouble: Trouble)
      returns (ret: int, sent: seq<Packet>)
      requires Idle(St()) && maxPacket > 0 && Sane(Scheduled(sched))
      modifies this`rx, this`tx, this`resetScale
      ensures var r := Write(old(St()), buf, maxPacket, Scheduled(sched), trouble);
              St() == r.dev && ret == r.ret && sent == r.sent
    {
      if interface < 0 || buf == [] {
        return -EINVAL, [];
      }
      AwaitedKeeps(St(), Scheduled(sched));
      SendsAreProper(Scheduled(sched), trouble);
      var k := AwaitFree(sched);
      var end, rest;
      end, sent, rest := FillLoop(buf, maxPacket, sched, k, trouble, SendsIn(Scheduled(sched), trouble));
      var copied := |buf| - |rest|;
      match end {
        case Refused => ret := -EAGAIN;
        case CopyFault => ret := copied;
        case RanOut => ret := if copied > 0 then copied else -EAGAIN;
      }
    }

    // ----- any operation

    /** Performs an operation; `bytes` is what a successful read gave the caller. */
    method Perform(op: Op) returns (bytes: seq<Byte>)
      requires Idle(St()) && OpOk(op)
      modifies this
      ensures Effect(St(), bytes) == Performed(old(St()), op) && Idle(St())
    {
      PerformedKeeps(St(), op);
      bytes := [];
      match op {
        case ReadOp(len, nonblock, accept, sched, faults) =>
          ScheduledSane(sched);
          var ret, out := DoRead(len, nonblock, accept, sched, faults);
          if ret > 0 {
            bytes := out;
          }
        case WriteOp(buf, maxPacket, sched, trouble) =>
          ScheduledSane(sched);
          var ret, sent := DoWrite(buf, maxPacket, sched, trouble);
        case PollOp(accept) =>
          SetupRxReqs(accept);
        case ConnectOp(value) =>
          interface := value;
        case EventOp(e) =>
          Happen(e);
      }
    }
  }

  /** The driver performs exactly the run: it ends in the device, and returns the bytes, that the run leads to. */
  method Run(rxNew: seq<Req>, txNew: seq<Req>, ops: seq<Op>) returns (dev: ScaleDev, got: seq<Byte>)
    requires |rxNew| == QLEN && |txNew| == QLEN && Distinct(rxNew) && Distinct(txNew)
    requires forall i :: 0 <= i < |ops| ==> OpOk(ops[i])
    ensures Idle(Fresh(rxNew, txNew))
    ensures dev.St() == Exec(Fresh(rxNew, txNew), ops) && got == Got(Fresh(rxNew, txNew), ops)
  {
    FreshIdle(rxNew, txNew);
    dev := new ScaleDev(rxNew, txNew);
    got := [];
    for i := 0 to |ops|
      invariant dev.St() == Exec(Fresh(rxNew, txNew), ops[..i]) && got == Got(Fresh(rxNew, txNew), ops[..i])
    {
      assert ops[..i + 1][..i] == ops[..i];
      var bytes := dev.Perform(ops[i]);
      got := got + bytes;
    }
    assert ops[..|ops|] == ops;
  }
}
