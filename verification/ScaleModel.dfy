/**
  The bulk gadget as a value and what each operation makes of it.  Reads, writes, completions and resets
  interleave at every point where a caller has dropped the device lock; a schedule given to each operation
  says what happens there.
 */
module ScaleModel {
  import opened Common
  import opened Bits
  import opened ScaleRequests
  import opened ScalePackets

  /** What the controller or the host does while no caller holds the lock. */
  datatype Event =
    | RxFinished(req: Req, status: int, data: seq<Byte>)
    | TxFinished(req: Req)
    | Reset

  /** `reset` is the flag by which a caller notices that a reset struck. */
  datatype Dev = Dev(rx: Rx, tx: Tx, interface: int, reset: bool)

  ghost predicate Good(d: Dev) {
    RxInv(d.rx) && TxInv(d.tx)
  }

  predicate Calm(evs: seq<Event>) {
    forall j :: 0 <= j < |evs| ==> !evs[j].Reset?
  }

  predicate NoReset(sched: seq<seq<Event>>) {
    forall i :: 0 <= i < |sched| ==> Calm(sched[i])
  }

  /** What happens at the k-th point where the lock is dropped. */
  function Chunk(sched: seq<seq<Event>>, k: nat): (c: seq<Event>)
    ensures NoReset(sched) ==> Calm(c)
  {
    if k < |sched| then sched[k] else []
  }

  // ----- events

  /** Every submitted transmit request comes back, oldest first. */
  function GiveBackTx(t: Tx): (u: Tx)
    ensures TxEnv(t, u) && u.active == [] && |u.reqs| >= |t.reqs|
    decreases |t.active|
  {
    if t.active == [] then t else GiveBackTx(TxDone(t, t.active[|t.active| - 1]))
  }

  lemma {:induction false} GiveBackTxKeeps(t: Tx)
    requires TxInv(t)
    ensures TxInv(GiveBackTx(t))
    decreases |t.active|
  {
    if t.active != [] {
      TxDoneKeeps(t, t.active[|t.active| - 1]);
      GiveBackTxKeeps(TxDone(t, t.active[|t.active| - 1]));
    }
  }

  /** Every submitted receive request comes back, with a shutdown status and no data. */
  function GiveBackRx(x: Rx): (y: Rx)
    ensures RxEnv(x, y) && y.active == [] && y.completed == x.completed && y.contents == x.contents
    decreases |x.active|
  {
    if x.active == [] then x else GiveBackRx(RxDone(x, x.active[|x.active| - 1], -ESHUTDOWN, []))
  }

  lemma {:induction false} GiveBackRxKeeps(x: Rx)
    requires RxInv(x)
    ensures RxInv(GiveBackRx(x))
    decreases |x.active|
  {
    if x.active != [] {
      var req := x.active[|x.active| - 1];
      var y := RxDone(x, req, -ESHUTDOWN, []);
      RxDoneKeeps(x, req, -ESHUTDOWN, []);
      GiveBackRxKeeps(y);
    }
  }

  /** Soft reset: everything submitted comes back, the partly read request is dropped. */
  function ResetAll(d: Dev): (f: Dev)
    ensures f.rx.active == f.tx.active == [] && f.rx.curReq == None && f.reset && !f.rx.intact
  {
    d.(tx := GiveBackTx(d.tx), rx := DropCurrent(GiveBackRx(d.rx)), reset := true)
  }

  /** One event; one about a request that is not submitted does nothing. */
  function Happened(d: Dev, e: Event): (f: Dev)
    ensures RxEnv(d.rx, f.rx) && TxEnv(d.tx, f.tx) && f.interface == d.interface && |f.tx.reqs| >= |d.tx.reqs|
    ensures if e.Reset? then f.reset && !f.rx.intact else f.reset == d.reset && f.rx.intact == d.rx.intact
  {
    match e
    case RxFinished(req, status, data) =>
      if req in d.rx.active then d.(rx := RxDone(d.rx, req, status, data)) else d
    case TxFinished(req) =>
      if req in d.tx.active then d.(tx := TxDone(d.tx, req)) else d
    case Reset => ResetAll(d)
  }

  lemma HappenedKeeps(d: Dev, e: Event)
    requires Good(d)
    ensures Good(Happened(d, e)) && HandSafe(d.rx, Happened(d, e).rx)
  {
    match e {
      case RxFinished(req, status, data) =>
        if req in d.rx.active {
          RxDoneKeeps(d.rx, req, status, data);
          RxDoneSafe(d.rx, req, status, data);
        }
      case TxFinished(req) =>
        if req in d.tx.active {
          TxDoneKeeps(d.tx, req);
        }
      case Reset =>
        GiveBackTxKeeps(d.tx);
        GiveBackRxKeeps(d.rx);
        DropCurrentKeeps(GiveBackRx(d.rx));
    }
  }

  /** A completed receive request that was submitted is off the controller; its data is added to what is unread. */
  lemma RxFinishedMeans(d: Dev, req: Req, status: int, data: seq<Byte>)
    requires Good(d) && req in d.rx.active
    ensures var x, y := d.rx, Happened(d, RxFinished(req, status, data)).rx;
            && req !in y.active && (forall r :: r != req ==> (r in y.active <==> r in x.active))
            && (if status == 0 && data != [] then
                  && y.buffers == x.buffers + [req] && Payload(y.contents, req) == data && y.reqs == x.reqs
                  && y.completed == x.completed + data && CurRest(y) + Stream(y.contents, y.buffers)
                                                         == CurRest(x) + Stream(x.contents, x.buffers) + data
                else y.reqs == [req] + x.reqs && y.buffers == x.buffers && y.contents == x.contents
                     && y.completed == x.completed)
    ensures Happened(d, RxFinished(req, status, data)).tx == d.tx
  {
    Opened(d.rx);
    ActiveIsElsewhereNot(d.rx, req);
    OnlyOnce(d.rx, req);
    if status == 0 && data != [] {
      RxDoneBooks(d.rx, req, data);
      StreamFrame(d.rx.contents, d.rx.buffers, req, data);
      StreamAppend(d.rx.contents[req := data], d.rx.buffers, req);
      Assoc(CurRest(d.rx), Stream(d.rx.contents, d.rx.buffers), data);
    }
  }

  lemma OnlyOnce(x: Rx, req: Req)
    requires RxConserved(x) && req in x.active
    ensures req !in Without(x.active, req)
    ensures forall r :: r != req ==> (r in Without(x.active, req) <==> r in x.active)
  {
    assert RxPlaces(x, req) <= 1;
    forall r ensures r != req ==> (r in Without(x.active, req) <==> r in x.active) {
      WithoutCounts(x.active, req, r);
      assert r in x.active <==> Count(x.active, r) > 0;
      assert r in Without(x.active, req) <==> Count(Without(x.active, req), r) > 0;
    }
    WithoutCounts(x.active, req, req);
    assert req in Without(x.active, req) <==> Count(Without(x.active, req), req) > 0;
  }

  /** A finished transmit request that was submitted is free again, and nothing else moves. */
  lemma TxFinishedMeans(d: Dev, req: Req)
    requires Good(d) && req in d.tx.active
    ensures var t, u := d.tx, Happened(d, TxFinished(req)).tx;
            && u.reqs == [req] + t.reqs && req !in u.active && |u.active| == |t.active| - 1
            && u.queued == t.queued && u.hand == t.hand && u.pool == t.pool
    ensures Happened(d, TxFinished(req)).rx == d.rx
  {
    assert TxPlaces(d.tx, req) == if req in d.tx.pool then 1 else 0;
    WithoutCounts(d.tx.active, req, req);
    assert req in d.tx.active <==> Count(d.tx.active, req) > 0;
    assert req in Without(d.tx.active, req) <==> Count(Without(d.tx.active, req), req) > 0;
  }

  /** A chunk of events, in order. */
  function Interfered(d: Dev, evs: seq<Event>): (f: Dev)
    ensures RxEnv(d.rx, f.rx) && TxEnv(d.tx, f.tx) && f.interface == d.interface && |f.tx.reqs| >= |d.tx.reqs|
    ensures f.reset ==> d.reset || !f.rx.intact
    ensures Calm(evs) ==> f.rx.intact == d.rx.intact && f.reset == d.reset
  {
    if evs == [] then d else Happened(Interfered(d, evs[..|evs| - 1]), evs[|evs| - 1])
  }

  /** Events happen one after the other. */
  lemma {:induction false} InOrder(d: Dev, a: seq<Event>, b: seq<Event>)
    ensures Interfered(d, a + b) == Interfered(Interfered(d, a), b)
    ensures |b| == 1 ==> Interfered(d, b) == Happened(d, b[0])
  {
    if b == [] {
      assert a + b == a;
    } else {
      assert (a + b)[..|a + b| - 1] == a + b[..|b| - 1];
      InOrder(d, a, b[..|b| - 1]);
    }
    if |b| == 1 {
      assert b[..0] == [];
      assert Interfered(d, b[..0]) == d;
    }
  }

  /** A reset takes everything off the controller and drops only the partly read request; completed ones stay. */
  lemma ResetMeans(d: Dev)
    requires Good(d)
    ensures var f := Happened(d, Reset);
            && f.rx.active == [] && f.tx.active == [] && f.rx.curReq == None && f.rx.curBytes == 0 && f.reset
            && f.rx.buffers == d.rx.buffers && f.rx.completed == d.rx.completed
            && CurRest(f.rx) + Stream(f.rx.contents, f.rx.buffers) == Stream(d.rx.contents, d.rx.buffers)
            && (forall r :: r in d.rx.active || d.rx.curReq == Some(r) ==> r in f.rx.reqs)
            && (forall r :: r in d.tx.active ==> r in f.tx.reqs)
  {
    var f := Happened(d, Reset);
    assert CurRest(f.rx) == [];
    Comeback(d.rx);
    ComebackTx(d.tx);
  }

  lemma {:induction false} Comeback(x: Rx)
    ensures GiveBackRx(x).buffers == x.buffers && GiveBackRx(x).curReq == x.curReq
    ensures forall r :: r in x.active || r in x.reqs ==> r in GiveBackRx(x).reqs
    decreases |x.active|
  {
    if x.active != [] {
      var req := x.active[|x.active| - 1];
      Comeback(RxDone(x, req, -ESHUTDOWN, []));
      forall r | r in x.active ensures r == req || r in Without(x.active, req) {
        if r != req {
          StillThere(x.active, req, r);
        }
      }
    }
  }

  lemma {:induction false} ComebackTx(t: Tx)
    ensures forall r :: r in t.active || r in t.reqs ==> r in GiveBackTx(t).reqs
    decreases |t.active|
  {
    if t.active != [] {
      var req := t.active[|t.active| - 1];
      ComebackTx(TxDone(t, req));
      forall r | r in t.active ensures r == req || r in Without(t.active, req) {
        if r != req {
          StillThere(t.active, req, r);
        }
      }
    }
  }

  lemma {:induction false} StillThere(rs: seq<Req>, q: Req, r: Req)
    requires r in rs && r != q
    ensures r in Without(rs, q)
  {
    if rs[0] != q && rs[0] != r {
      StillThere(rs[1..], q, r);
      assert ([rs[0]] + Without(rs[1..], q))[1..] == Without(rs[1..], q);
    }
  }

  lemma {:induction false} InterferedKeeps(d: Dev, evs: seq<Event>)
    requires Good(d)
    ensures Good(Interfered(d, evs)) && HandSafe(d.rx, Interfered(d, evs).rx)
  {
    if evs != [] {
      InterferedKeeps(d, evs[..|evs| - 1]);
      HappenedKeeps(Interfered(d, evs[..|evs| - 1]), evs[|evs| - 1]);
    }
  }

  // ----- what callers may expect of the world

  /** What the world makes of the device at the k-th point where a caller has dropped the lock. */
  type World = (Dev, nat) -> Dev

  function Scheduled(sched: seq<seq<Event>>): World {
    (d: Dev, k: nat) => Interfered(d, Chunk(sched, k))
  }

  /** Whatever happens, the invariants are kept and the caller's own request is left alone. */
  ghost predicate MayBecome(d: Dev, f: Dev) {
    && Good(f) && RxEnv(d.rx, f.rx) && HandSafe(d.rx, f.rx) && TxEnv(d.tx, f.tx)
    && f.interface == d.interface && |f.tx.reqs| >= |d.tx.reqs|
  }

  ghost predicate Sane(w: World) {
    forall d: Dev, k: nat :: Good(d) ==> MayBecome(d, w(d, k))
  }

  /** No reset strikes: nothing is lost, and what arrives is added at the end. */
  ghost predicate Undisturbed(d: Dev, f: Dev) {
    f.reset == d.reset && f.rx.intact == d.rx.intact && Accounts(d.rx, f.rx)
  }

  ghost predicate Gentle(w: World) {
    Sane(w) && forall d: Dev, k: nat :: Good(d) ==> Undisturbed(d, w(d, k))
  }

  ghost predicate IsSeen(x: Rx, seen: seq<Byte>) {
    seen == Seen(x)
  }

  /** These bytes completed between x, when `seen` was seen, and y, and were added at the end of what is seen. */
  ghost predicate Brings(x: Rx, seen: seq<Byte>, y: Rx, arrived: seq<Byte>) {
    y.completed == x.completed + arrived && Seen(y) == seen + arrived
  }

  /** Whatever completed in between is seen, at the end, and nothing else is. */
  ghost predicate Accounts(x: Rx, y: Rx) {
    forall seen {:trigger IsSeen(x, seen)} :: IsSeen(x, seen) ==> exists arrived :: Brings(x, seen, y, arrived)
  }

  lemma AccountsBy(x: Rx, y: Rx, arrived: seq<Byte>)
    requires y.completed == x.completed + arrived && Seen(y) == Seen(x) + arrived
    ensures Accounts(x, y)
  {
    assert Brings(x, Seen(x), y, arrived);
  }

  lemma Arrived(x: Rx, y: Rx) returns (arrived: seq<Byte>)
    requires Accounts(x, y)
    ensures y.completed == x.completed + arrived && Seen(y) == Seen(x) + arrived
  {
    assert IsSeen(x, Seen(x));
    arrived :| Brings(x, Seen(x), y, arrived);
  }

  lemma AccountsTrans(x: Rx, y: Rx, z: Rx)
    requires Accounts(x, y) && Accounts(y, z)
    ensures Accounts(x, z)
  {
    var a := Arrived(x, y);
    var b := Arrived(y, z);
    Assoc(x.completed, a, b);
    Assoc(Seen(x), a, b);
    AccountsBy(x, z, a + b);
  }

  lemma AccountsSame(x: Rx, y: Rx)
    requires y.completed == x.completed && Seen(y) == Seen(x)
    ensures Accounts(x, y)
  {
    AccountsBy(x, y, []);
  }

  lemma HappenedAccounts(d: Dev, e: Event)
    requires Good(d) && !e.Reset?
    ensures Good(Happened(d, e)) && Accounts(d.rx, Happened(d, e).rx)
  {
    HappenedKeeps(d, e);
    if e.RxFinished? && e.req in d.rx.active {
      RxDoneKeeps(d.rx, e.req, e.status, e.data);
      AccountsBy(d.rx, Happened(d, e).rx, if e.status == 0 then e.data else []);
    } else {
      AccountsSame(d.rx, Happened(d, e).rx);
    }
  }

  lemma {:induction false} InterferedAccounts(d: Dev, evs: seq<Event>)
    requires Good(d) && Calm(evs)
    ensures Good(Interfered(d, evs)) && Accounts(d.rx, Interfered(d, evs).rx)
  {
    InterferedKeeps(d, evs);
    AccountsSame(d.rx, d.rx);
    if evs != [] {
      var front, last := evs[..|evs| - 1], evs[|evs| - 1];
      InterferedAccounts(d, front);
      HappenedAccounts(Interfered(d, front), last);
      AccountsTrans(d.rx, Interfered(d, front).rx, Interfered(d, evs).rx);
    }
  }

  lemma ScheduledSane(sched: seq<seq<Event>>)
    ensures Sane(Scheduled(sched))
    ensures NoReset(sched) ==> Gentle(Scheduled(sched))
  {
    var w := Scheduled(sched);
    forall d: Dev, k: nat | Good(d) ensures MayBecome(d, w(d, k)) {
      InterferedKeeps(d, Chunk(sched, k));
    }
    if NoReset(sched) {
      forall d: Dev, k: nat | Good(d) ensures Undisturbed(d, w(d, k)) {
        InterferedAccounts(d, Chunk(sched, k));
      }
    }
  }

  // ----- reading

  /** Free requests are submitted until none is left or the controller, after `accept` of them, refuses one. */
  function Submitted(x: Rx, accept: nat): (y: Rx)
    ensures y == x.(reqs := y.reqs, active := y.active)
    ensures y.reqs == [] || |y.active| == |x.active| + accept
    decreases accept
  {
    if x.reqs == [] || accept == 0 then x else Submitted(Submit(x), accept - 1)
  }

  lemma {:induction false} SubmittedKeeps(x: Rx, accept: nat)
    requires RxInv(x)
    ensures RxInv(Submitted(x, accept)) && Seen(Submitted(x, accept)) == Seen(x)
    decreases accept
  {
    if x.reqs != [] && accept > 0 {
      SubmitKeeps(x);
      SubmittedKeeps(Submit(x), accept - 1);
    }
  }

  /** A reader has something to copy, in hand or completed. */
  predicate HasData(x: Rx) {
    x.hand.Hand? || x.buffers != []
  }

  /** A reader at work has taken over the partly read request. */
  ghost predicate AtWork(d: Dev) {
    Good(d) && d.rx.curReq == None
  }

  /** The reader has a request in hand, the oldest completed one if it had none. */
  function Grabbed(d: Dev): (f: Dev)
    requires HasData(d.rx)
    ensures f == d.(rx := f.rx) && f.rx.hand.Hand? && f.rx.pool == d.rx.pool && f.rx.curReq == d.rx.curReq
    ensures f.rx.delivered == d.rx.delivered && f.rx.completed == d.rx.completed && f.rx.intact == d.rx.intact
  {
    if d.rx.hand.Hand? then d else d.(rx := TakeBuffer(d.rx))
  }

  lemma GrabbedKeeps(d: Dev)
    requires AtWork(d) && HasData(d.rx)
    ensures AtWork(Grabbed(d)) && Seen(Grabbed(d).rx) == Seen(d.rx) && Grabbed(d).rx.hand.bytes > 0
  {
    if d.rx.hand == Nothing {
      TakeBufferKeeps(d.rx);
    } else {
      Opened(d.rx);
    }
  }

  /** How many bytes a copy that should move `size` moves when it misses some. */
  function Moved(size: nat, missed: nat): (n: nat)
    ensures n <= size && (missed == 0 ==> n == size)
  {
    if missed > size then 0 else size - missed
  }

  /** A turn of the copy loop: the device, and the bytes that reached the caller's buffer. */
  datatype Turn = Turn(dev: Dev, piece: seq<Byte>)

  /** The rest of a turn once n bytes were copied and the world has had its turn. */
  function AfterCopy(e: Dev, n: nat): Dev {
    e.(rx := if e.reset || e.rx.hand == Nothing || n > e.rx.hand.bytes then GiveUp(e.rx) else Copy(e.rx, n))
  }

  function ReadTurn(d: Dev, len: nat, missed: nat, w: World, k: nat): Turn
    requires HasData(d.rx)
  {
    var g := Grabbed(d);
    var n := Moved(Min(len, g.rx.hand.bytes), missed);
    Turn(AfterCopy(w(g, k), n), NextBytes(g.rx, n))
  }

  /** What a turn may do to the device. */
  ghost predicate TurnOk(d: Dev, len: nat, t: Turn) {
    && AtWork(t.dev) && |t.piece| <= len
    && t.dev.rx.pool == d.rx.pool && TxEnv(d.tx, t.dev.tx) && t.dev.interface == d.interface
    && if t.dev.reset then t.dev.rx.hand == Nothing && t.dev.rx.delivered == d.rx.delivered
       else t.dev.rx.delivered == d.rx.delivered + t.piece
  }

  lemma HeldBytes(x: Rx, n: nat)
    requires RxInv(x) && x.hand.Hand? && n <= x.hand.bytes
    ensures |NextBytes(x, n)| == n
  {
    Opened(x);
  }

  lemma AfterCopyOk(d: Dev, g: Dev, e: Dev, len: nat, n: nat)
    requires AtWork(d) && HasData(d.rx) && g == Grabbed(d) && AtWork(g) && n <= g.rx.hand.bytes && n <= len
    requires MayBecome(g, e)
    ensures TurnOk(d, len, Turn(AfterCopy(e, n), NextBytes(g.rx, n))) && |NextBytes(g.rx, n)| == n
  {
    HeldBytes(g.rx, n);
    if e.reset {
      GiveUpKeeps(e.rx);
    } else {
      CopyKeeps(e.rx, n);
    }
  }

  lemma ReadTurnKeeps(d: Dev, len: nat, missed: nat, w: World, k: nat)
    requires AtWork(d) && HasData(d.rx) && Sane(w) && len > 0
    ensures TurnOk(d, len, ReadTurn(d, len, missed, w, k))
    ensures missed == 0 ==> ReadTurn(d, len, missed, w, k).piece != []
  {
    GrabbedKeeps(d);
    var g := Grabbed(d);
    AfterCopyOk(d, g, w(g, k), len, Moved(Min(len, g.rx.hand.bytes), missed));
  }

  /** Turns by the device, the bytes wanted, the bytes missed and the number of the lock's drop. */
  type Turns = (Dev, nat, nat, nat) -> Turn

  function TurnsIn(w: World): Turns {
    (d: Dev, len: nat, missed: nat, k: nat) => if HasData(d.rx) then ReadTurn(d, len, missed, w, k) else Turn(d, [])
  }

  ghost predicate Proper(turn: Turns) {
    forall d: Dev, len: nat, missed: nat, k: nat :: AtWork(d) && HasData(d.rx) && len > 0 ==>
      TurnOk(d, len, turn(d, len, missed, k)) && (missed == 0 ==> turn(d, len, missed, k).piece != [])
  }

  lemma TurnsAreProper(w: World)
    requires Sane(w)
    ensures Proper(TurnsIn(w))
  {
    forall d: Dev, len: nat, missed: nat, k: nat | AtWork(d) && HasData(d.rx) && len > 0
      ensures TurnOk(d, len, TurnsIn(w)(d, len, missed, k)) &&
              (missed == 0 ==> TurnsIn(w)(d, len, missed, k).piece != [])
    {
      ReadTurnKeeps(d, len, missed, w, k);
    }
  }

  /** The copy loop: whether it was cut short by a reset, and all bytes that reached the caller's buffer. */
  datatype Reading = Reading(dev: Dev, aborted: bool, out: seq<Byte>)

  /** The loop ends and leaves the rest of the request in hand for the next read. */
  function Kept(d: Dev): Reading {
    Reading(d.(rx := KeepCurrent(d.rx)), false, [])
  }

  /** Turns in which a copy may still miss bytes. */
  function Ahead(faults: seq<nat>, c: nat): nat {
    if c < |faults| then |faults| - c else 0
  }

  function Missed(faults: seq<nat>, c: nat): nat {
    if c < |faults| then faults[c] else 0
  }

  function ReadLoop(d: Dev, len: nat, turn: Turns, k: nat, faults: seq<nat>, c: nat): (r: Reading)
    requires AtWork(d) && Proper(turn)
    decreases Ahead(faults, c), len
  {
    if !HasData(d.rx) || len == 0 then Kept(d)
    else
      var t := turn(d, len, Missed(faults, c), k);
      if t.dev.reset then Reading(t.dev, true, t.piece)
      else
        var r := ReadLoop(t.dev, len - |t.piece|, turn, k + 1, faults, c + 1);
        Reading(r.dev, r.aborted, t.piece + r.out)
  }

  /** What a copy loop for len bytes that started with d may do. */
  ghost predicate ReadOk(d: Dev, len: nat, r: Reading) {
    && Good(r.dev) && r.dev.rx.hand == Nothing && r.dev.rx.pool == d.rx.pool
    && TxEnv(d.tx, r.dev.tx) && r.dev.interface == d.interface
    && d.rx.delivered <= r.dev.rx.delivered && |r.out| <= len
    && (!r.aborted ==> r.dev.rx.delivered == d.rx.delivered + r.out)
  }

  lemma ReadMore(d: Dev, len: nat, t: Turn, r: Reading)
    requires TurnOk(d, len, t) && !t.dev.reset && ReadOk(t.dev, len - |t.piece|, r)
    ensures ReadOk(d, len, Reading(r.dev, r.aborted, t.piece + r.out))
  {
    Assoc(d.rx.delivered, t.piece, r.out);
  }

  lemma {:induction false} ReadLoopKeeps(d: Dev, len: nat, turn: Turns, k: nat, faults: seq<nat>, c: nat)
    requires AtWork(d) && Proper(turn)
    ensures ReadOk(d, len, ReadLoop(d, len, turn, k, faults, c))
    decreases Ahead(faults, c), len
  {
    if HasData(d.rx) && len > 0 {
      var t := turn(d, len, Missed(faults, c), k);
      if !t.dev.reset {
        ReadLoopKeeps(t.dev, len - |t.piece|, turn, k + 1, faults, c + 1);
        ReadMore(d, len, t, ReadLoop(t.dev, len - |t.piece|, turn, k + 1, faults, c + 1));
      }
    } else {
      KeepCurrentKeeps(d.rx);
    }
  }

  // ----- no reset, nothing lost

  function TurnAt(turn: Turns, d: Dev, len: nat, missed: nat, k: nat): Turn {
    turn(d, len, missed, k)
  }

  /** A turn without a reset accounts for every byte. */
  ghost predicate Lossless(turn: Turns) {
    forall d: Dev, len: nat, missed: nat, k: nat {:trigger TurnAt(turn, d, len, missed, k)} ::
      AtWork(d) && HasData(d.rx) && len > 0 && !d.reset ==> Undisturbed(d, TurnAt(turn, d, len, missed, k).dev)
  }

  lemma ReadTurnLossless(d: Dev, len: nat, missed: nat, w: World, k: nat)
    requires AtWork(d) && HasData(d.rx) && Gentle(w) && len > 0 && !d.reset
    ensures TurnOk(d, len, ReadTurn(d, len, missed, w, k)) && Undisturbed(d, ReadTurn(d, len, missed, w, k).dev)
  {
    ReadTurnKeeps(d, len, missed, w, k);
    GrabbedKeeps(d);
    var g := Grabbed(d);
    var e := w(g, k);
    assert MayBecome(g, e) && Undisturbed(g, e);
    var n := Moved(Min(len, g.rx.hand.bytes), missed);
    CopyKeeps(e.rx, n);
    AccountsSame(d.rx, g.rx);
    AccountsSame(e.rx, Copy(e.rx, n));
    AccountsTrans(d.rx, g.rx, e.rx);
    AccountsTrans(d.rx, e.rx, Copy(e.rx, n));
  }

  lemma TurnsAreLossless(w: World)
    requires Gentle(w)
    ensures Proper(TurnsIn(w)) && Lossless(TurnsIn(w))
  {
    TurnsAreProper(w);
    forall d: Dev, len: nat, missed: nat, k: nat | AtWork(d) && HasData(d.rx) && len > 0 && !d.reset
      ensures Undisturbed(d, TurnAt(TurnsIn(w), d, len, missed, k).dev)
    {
      ReadTurnLossless(d, len, missed, w, k);
    }
  }

  /** The rest of the partly read request, then the completed requests. */
  function Unread(x: Rx): seq<Byte> {
    CurRest(x) + Stream(x.contents, x.buffers)
  }

  /** A loop that no reset cut short has all the bytes wanted, or has left none unread. */
  lemma {:induction false} ReadLoopFills(d: Dev, len: nat, turn: Turns, k: nat, faults: seq<nat>, c: nat)
    requires AtWork(d) && Proper(turn)
    ensures var r := ReadLoop(d, len, turn, k, faults, c);
            r.aborted || |r.out| == len || Unread(r.dev.rx) == []
    decreases Ahead(faults, c), len
  {
    if HasData(d.rx) && len > 0 {
      var t := turn(d, len, Missed(faults, c), k);
      if !t.dev.reset {
        ReadLoopFills(t.dev, len - |t.piece|, turn, k + 1, faults, c + 1);
      }
    }
  }

  /** What a loop without reset has done: it ran to its end and lost no byte. */
  ghost predicate ReadAllOf(d: Dev, r: Reading) {
    Good(r.dev) && !r.aborted && Undisturbed(d, r.dev)
  }

  lemma KeptAll(d: Dev)
    requires AtWork(d)
    ensures ReadAllOf(d, Kept(d))
  {
    KeepCurrentKeeps(d.rx);
    AccountsSame(d.rx, KeepCurrent(d.rx));
  }

  lemma ReadAllMore(d: Dev, t: Turn, r: Reading)
    requires Good(d) && Good(t.dev) && Undisturbed(d, t.dev) && ReadAllOf(t.dev, r)
    ensures ReadAllOf(d, Reading(r.dev, r.aborted, t.piece + r.out))
  {
    AccountsTrans(d.rx, t.dev.rx, r.dev.rx);
  }

  lemma {:induction false} ReadLoopLossless(d: Dev, len: nat, turn: Turns, k: nat, faults: seq<nat>, c: nat)
    requires AtWork(d) && Proper(turn) && Lossless(turn) && !d.reset
    ensures ReadAllOf(d, ReadLoop(d, len, turn, k, faults, c))
    decreases Ahead(faults, c), len
  {
    if HasData(d.rx) && len > 0 {
      var t := TurnAt(turn, d, len, Missed(faults, c), k);
      ReadLoopLossless(t.dev, len - |t.piece|, turn, k + 1, faults, c + 1);
      ReadAllMore(d, t, ReadLoop(t.dev, len - |t.piece|, turn, k + 1, faults, c + 1));
    } else {
      KeptAll(d);
    }
  }

  // ----- whole reads

  /** What a read returns: its result and the bytes in the caller's buffer. */
  datatype ReadDone = ReadDone(dev: Dev, ret: int, out: seq<Byte>)

  function Finished(r: Reading): ReadDone {
    ReadDone(r.dev, if !r.aborted && |r.out| > 0 then |r.out| else -EAGAIN, r.out)
  }

  /** The reader submits free requests and takes over what is left of the partly read one. */
  function Started(d: Dev, accept: nat): (f: Dev)
    ensures f.rx.curReq == None && f.rx.pool == d.rx.pool && f.rx.delivered == d.rx.delivered && !f.reset
    ensures f.rx.intact == d.rx.intact && f.rx.completed == d.rx.completed && f.tx == d.tx && f.interface == d.interface
    ensures f.rx.reqs == [] || |f.rx.active| == |d.rx.active| + accept
  {
    d.(rx := TakeCurrent(Submitted(d.rx, accept)), reset := false)
  }

  lemma StartedKeeps(d: Dev, accept: nat)
    requires Good(d) && d.rx.hand == Nothing
    ensures AtWork(Started(d, accept)) && Accounts(d.rx, Started(d, accept).rx)
  {
    SubmittedKeeps(d.rx, accept);
    TakeCurrentKeeps(Submitted(d.rx, accept));
    AccountsSame(d.rx, Started(d, accept).rx);
  }

  /** A read of up to len bytes. */
  function Read(d: Dev, len: nat, nonblock: bool, accept: nat, w: World, faults: seq<nat>): ReadDone
    requires Good(d) && d.rx.hand == Nothing && Sane(w)
  {
    if len == 0 then ReadDone(d, -EINVAL, [])
    else
      StartedKeeps(d, accept);
      TurnsAreProper(w);
      var e := Started(d, accept);
      if HasData(e.rx) then Finished(ReadLoop(e, len, TurnsIn(w), 0, faults, 0))
      else if nonblock then ReadDone(e, -EAGAIN, [])
      else Finished(ReadLoop(w(e, 0), len, TurnsIn(w), 1, faults, 0))
  }

  /** A read keeps the pools; a positive result counts the bytes it delivered, any other says why there are none. */
  ghost predicate ReadDoneOk(d: Dev, len: nat, r: ReadDone) {
    && Good(r.dev) && r.dev.rx.hand == Nothing && r.dev.rx.pool == d.rx.pool
    && TxEnv(d.tx, r.dev.tx) && r.dev.interface == d.interface
    && |r.out| <= len && d.rx.delivered <= r.dev.rx.delivered
    && (r.ret == if r.ret > 0 then |r.out| else if len == 0 then -EINVAL else -EAGAIN)
    && (r.ret > 0 ==> r.dev.rx.delivered == d.rx.delivered + r.out)
  }

  lemma FinishedOk(d: Dev, e: Dev, len: nat, r: Reading)
    requires ReadOk(e, len, r) && len > 0
    requires e.rx.pool == d.rx.pool && e.rx.delivered == d.rx.delivered && TxEnv(d.tx, e.tx) && e.interface == d.interface
    ensures ReadDoneOk(d, len, Finished(r))
  {
  }

  lemma ReadMeans(d: Dev, len: nat, nonblock: bool, accept: nat, w: World, faults: seq<nat>)
    requires Good(d) && d.rx.hand == Nothing && Sane(w)
    ensures ReadDoneOk(d, len, Read(d, len, nonblock, accept, w, faults))
  {
    if len > 0 {
      var e := Started(d, accept);
      StartedKeeps(d, accept);
      TurnsAreProper(w);
      if HasData(e.rx) {
        ReadLoopKeeps(e, len, TurnsIn(w), 0, faults, 0);
        FinishedOk(d, e, len, ReadLoop(e, len, TurnsIn(w), 0, faults, 0));
      } else if !nonblock {
        assert MayBecome(e, w(e, 0));
        ReadLoopKeeps(w(e, 0), len, TurnsIn(w), 1, faults, 0);
        FinishedOk(d, w(e, 0), len, ReadLoop(w(e, 0), len, TurnsIn(w), 1, faults, 0));
      }
    }
  }

  ghost predicate FlowsBy(d: Dev, r: ReadDone, arrived: seq<Byte>) {
    r.dev.rx.completed == d.rx.completed + arrived && r.out + Unread(r.dev.rx) == Unread(d.rx) + arrived
  }

  /** Bytes returned, then unread, are the bytes unread before, then those that arrived. */
  ghost predicate ReadFlow(d: Dev, r: ReadDone) {
    && r.dev.rx.intact == d.rx.intact && r.dev.rx.delivered == d.rx.delivered + r.out
    && exists arrived :: FlowsBy(d, r, arrived)
  }

  lemma SeenIdle(x: Rx)
    requires x.hand == Nothing
    ensures Seen(x) == x.delivered + Unread(x)
  {
  }

  lemma Cancel(p: seq<Byte>, a: seq<Byte>, b: seq<Byte>)
    requires p + a == p + b
    ensures a == b
  {
    assert a == (p + a)[|p|..] && b == (p + b)[|p|..];
  }

  lemma FlowOf(d: Dev, r: ReadDone)
    requires Good(d) && Good(r.dev) && d.rx.hand == r.dev.rx.hand == Nothing && Accounts(d.rx, r.dev.rx)
    requires r.dev.rx.delivered == d.rx.delivered + r.out && r.dev.rx.intact == d.rx.intact
    ensures ReadFlow(d, r)
  {
    var arrived := Arrived(d.rx, r.dev.rx);
    SeenIdle(d.rx);
    SeenIdle(r.dev.rx);
    Assoc(d.rx.delivered, r.out, Unread(r.dev.rx));
    Assoc(d.rx.delivered, Unread(d.rx), arrived);
    Cancel(d.rx.delivered, r.out + Unread(r.dev.rx), Unread(d.rx) + arrived);
    assert FlowsBy(d, r, arrived);
  }

  lemma NothingLeft(x: Rx)
    requires x.hand == Nothing && x.curReq == None && !HasData(x)
    ensures Unread(x) == []
  {
  }

  lemma LoopFlow(d: Dev, e: Dev, len: nat, r: Reading)
    requires Good(d) && d.rx.hand == Nothing && Good(e) && !e.reset && len > 0
    requires Accounts(d.rx, e.rx) && e.rx.intact == d.rx.intact && e.rx.delivered == d.rx.delivered
    requires ReadOk(e, len, r) && ReadAllOf(e, r)
    ensures ReadFlow(d, Finished(r)) && (r.out != [] <==> Finished(r).ret > 0)
  {
    AccountsTrans(d.rx, e.rx, r.dev.rx);
    FlowOf(d, Finished(r));
  }

  /**
    Unless a reset strikes, a read loses nothing and keeps the order, returns all the bytes wanted or leaves
    none unread, and is positive exactly if it returns some.
   */
  lemma ReadProgress(d: Dev, len: nat, nonblock: bool, accept: nat, w: World, faults: seq<nat>)
    requires Good(d) && d.rx.hand == Nothing && Gentle(w)
    ensures var r := Read(d, len, nonblock, accept, w, faults);
            && ReadFlow(d, r) && (r.out != [] <==> r.ret > 0)
            && (|r.out| == len || Unread(r.dev.rx) == [])
  {
    if len > 0 {
      var e := Started(d, accept);
      StartedKeeps(d, accept);
      TurnsAreLossless(w);
      if HasData(e.rx) {
        ReadLoopKeeps(e, len, TurnsIn(w), 0, faults, 0);
        ReadLoopLossless(e, len, TurnsIn(w), 0, faults, 0);
        ReadLoopFills(e, len, TurnsIn(w), 0, faults, 0);
        LoopFlow(d, e, len, ReadLoop(e, len, TurnsIn(w), 0, faults, 0));
      } else if nonblock {
        NothingLeft(e.rx);
        FlowOf(d, ReadDone(e, -EAGAIN, []));
      } else {
        var f := w(e, 0);
        assert MayBecome(e, f) && Undisturbed(e, f);
        AccountsTrans(d.rx, e.rx, f.rx);
        ReadLoopKeeps(f, len, TurnsIn(w), 1, faults, 0);
        ReadLoopLossless(f, len, TurnsIn(w), 1, faults, 0);
        ReadLoopFills(f, len, TurnsIn(w), 1, faults, 0);
        LoopFlow(d, f, len, ReadLoop(f, len, TurnsIn(w), 1, faults, 0));
      }
    } else {
      AccountsSame(d.rx, d.rx);
      FlowOf(d, ReadDone(d, -EINVAL, []));
    }
  }

  // ----- writing

  /** A turn of the transmit loop: whether the request was queued, and if not, whether the copy faulted. */
  datatype Sent = Sent(dev: Dev, queued: bool, fault: bool)

  /** What goes wrong in each turn: the copy from the caller faults, the controller refuses. */
  datatype Trouble = Trouble(copyFails: seq<bool>, refusals: seq<bool>) {
    predicate Fails(c: nat) {
      c < |copyFails| && copyFails[c]
    }
    predicate Refuses(c: nat) {
      c < |refusals| && refusals[c]
    }
  }

  const NoTrouble := Trouble([], [])

  /** The writer's request is queued or goes back to the free list. */
  function AfterFill(e: Dev, p: Packet, queued: bool): Dev {
    e.(tx := if e.tx.hand == None then e.tx else if queued then TxQueue(e.tx, p) else TxPutBack(e.tx))
  }

  function WriteTurn(d: Dev, p: Packet, fails: bool, refused: bool, w: World, k: nat): Sent
    requires d.tx.reqs != []
  {
    var e := w(d.(tx := TxTake(d.tx)), k);
    var queued := !fails && !e.reset && !refused;
    Sent(AfterFill(e, p, queued), queued, fails)
  }

  /** What a turn may do to the device, and that it queues the packet or nothing. */
  ghost predicate SentOk(d: Dev, p: Packet, s: Sent) {
    && Good(s.dev) && s.dev.tx.hand == None && s.dev.tx.pool == d.tx.pool && |s.dev.tx.reqs| + 1 >= |d.tx.reqs|
    && RxEnv(d.rx, s.dev.rx) && s.dev.interface == d.interface
    && s.dev.tx.queued == d.tx.queued + (if s.queued then [p] else [])
  }

  lemma WriteTurnKeeps(d: Dev, p: Packet, fails: bool, refused: bool, w: World, k: nat)
    requires Good(d) && d.tx.hand == None && d.tx.reqs != [] && Sane(w)
    ensures SentOk(d, p, WriteTurn(d, p, fails, refused, w, k))
  {
    TxTakeKeeps(d.tx);
    var g := d.(tx := TxTake(d.tx));
    var e := w(g, k);
    assert MayBecome(g, e);
    TxLeaveKeeps(e.tx, p);
  }

  /** Turns by the device, the packet, the number of the lock's drop and that of the turn. */
  type Sends = (Dev, Packet, nat, nat) -> Sent

  function SendsIn(w: World, tr: Trouble): Sends {
    (d: Dev, p: Packet, k: nat, c: nat) =>
      if d.tx.reqs != [] then WriteTurn(d, p, tr.Fails(c), tr.Refuses(c), w, k) else Sent(d, false, false)
  }

  ghost predicate ProperSends(send: Sends) {
    forall d: Dev, p: Packet, k: nat, c: nat :: Good(d) && d.tx.hand == None && d.tx.reqs != [] ==>
      SentOk(d, p, send(d, p, k, c))
  }

  lemma SendsAreProper(w: World, tr: Trouble)
    requires Sane(w)
    ensures ProperSends(SendsIn(w, tr))
  {
    forall d: Dev, p: Packet, k: nat, c: nat | Good(d) && d.tx.hand == None && d.tx.reqs != []
      ensures SentOk(d, p, SendsIn(w, tr)(d, p, k, c))
    {
      WriteTurnKeeps(d, p, tr.Fails(c), tr.Refuses(c), w, k);
    }
  }

  /** How the transmit loop ended. */
  datatype End = RanOut | CopyFault | Refused

  datatype Sending = Sending(dev: Dev, end: End, sent: seq<Packet>, rest: seq<Byte>)

  /** Fills and queues free requests until the buffer or the requests run out, or something fails. */
  function SendLoop(d: Dev, rest: seq<Byte>, maxPacket: nat, send: Sends, k: nat, c: nat): Sending
    requires Good(d) && d.tx.hand == None && ProperSends(send) && maxPacket > 0
    decreases |rest|
  {
    if d.tx.reqs == [] || rest == [] then Sending(d, RanOut, [], rest)
    else
      var p := Piece(rest, maxPacket);
      var t := send(d, p, k, c);
      if !t.queued then Sending(t.dev, if t.fault then CopyFault else Refused, [], rest)
      else
        var r := SendLoop(t.dev, rest[PieceSize(|rest|)..], maxPacket, send, k + 1, c + 1);
        r.(sent := [p] + r.sent)
  }

  /** The loop cuts `sent` off the front and stops of itself only when nothing is left or no request is free. */
  ghost predicate SendOk(d: Dev, rest: seq<Byte>, maxPacket: nat, r: Sending)
    requires maxPacket > 0
  {
    && Good(r.dev) && r.dev.tx.hand == None && r.dev.tx.pool == d.tx.pool
    && RxEnv(d.rx, r.dev.rx) && r.dev.interface == d.interface
    && r.dev.tx.queued == d.tx.queued + r.sent
    && Pieces(rest, maxPacket) == r.sent + Pieces(r.rest, maxPacket)
    && (r.end == RanOut ==> r.rest == [] || r.dev.tx.reqs == [])
    && (r.end == RanOut ==> |r.sent| >= Min(|d.tx.reqs|, |Pieces(rest, maxPacket)|))
  }

  lemma SendMore(d: Dev, rest: seq<Byte>, maxPacket: nat, t: Sent, r: Sending)
    requires maxPacket > 0 && rest != [] && SentOk(d, Piece(rest, maxPacket), t) && t.queued
    requires SendOk(t.dev, rest[PieceSize(|rest|)..], maxPacket, r)
    ensures SendOk(d, rest, maxPacket, r.(sent := [Piece(rest, maxPacket)] + r.sent))
  {
    var p := Piece(rest, maxPacket);
    Assoc(d.tx.queued, [p], r.sent);
    Assoc([p], r.sent, Pieces(r.rest, maxPacket));
  }

  lemma {:induction false} SendLoopKeeps(d: Dev, rest: seq<Byte>, maxPacket: nat, send: Sends, k: nat, c: nat)
    requires Good(d) && d.tx.hand == None && ProperSends(send) && maxPacket > 0
    ensures SendOk(d, rest, maxPacket, SendLoop(d, rest, maxPacket, send, k, c))
    decreases |rest|
  {
    if d.tx.reqs != [] && rest != [] {
      var t := send(d, Piece(rest, maxPacket), k, c);
      if t.queued {
        SendLoopKeeps(t.dev, rest[PieceSize(|rest|)..], maxPacket, send, k + 1, c + 1);
        SendMore(d, rest, maxPacket, t, SendLoop(t.dev, rest[PieceSize(|rest|)..], maxPacket, send, k + 1, c + 1));
      }
    }
  }

  /** The result of a write of a nonempty buffer of n bytes. */
  function Result(n: nat, r: Sending): int {
    match r.end
    case Refused => -EAGAIN
    case CopyFault => n - |r.rest|
    case RanOut => if n > |r.rest| then n - |r.rest| else -EAGAIN
  }

  datatype WriteDone = WriteDone(dev: Dev, ret: int, sent: seq<Packet>)

  /** Where the transmit loop starts: after the wait for a free request if there was none. */
  function Awaited(d: Dev, w: World): Dev {
    if d.tx.reqs == [] then w(d.(reset := false), 0) else d.(reset := false)
  }

  lemma AwaitedKeeps(d: Dev, w: World)
    requires Good(d) && Sane(w)
    ensures MayBecome(d, Awaited(d, w))
    ensures Gentle(w) ==> Undisturbed(d.(reset := false), Awaited(d, w))
  {
    var e := d.(reset := false);
    assert MayBecome(e, w(e, 0));
    AccountsSame(e.rx, e.rx);
  }

  /** A blocking write. */
  function Write(d: Dev, buf: seq<Byte>, maxPacket: nat, w: World, tr: Trouble): WriteDone
    requires Good(d) && d.tx.hand == None && maxPacket > 0 && Sane(w)
  {
    if d.interface < 0 || buf == [] then WriteDone(d, -EINVAL, [])
    else
      AwaitedKeeps(d, w);
      SendsAreProper(w, tr);
      var r := SendLoop(Awaited(d, w), buf, maxPacket, SendsIn(w, tr), if d.tx.reqs == [] then 1 else 0, 0);
      WriteDone(r.dev, Result(|buf|, r), r.sent)
  }

  /** What a write's result says about the requests it queued. */
  ghost predicate Queued(buf: seq<Byte>, maxPacket: nat, ret: int, sent: seq<Packet>)
    requires maxPacket > 0
  {
    && sent <= Pieces(buf, maxPacket)
    && (ret > 0 ==> ret <= |buf| && Data(sent) == buf[..ret])
    && (ret == |buf| && buf != [] ==> sent == Pieces(buf, maxPacket))
  }

  lemma {:induction false} DataConcat(ps: seq<Packet>, qs: seq<Packet>)
    ensures Data(ps + qs) == Data(ps) + Data(qs)
  {
    if ps == [] {
      assert ps + qs == qs;
    } else {
      assert (ps + qs)[1..] == ps[1..] + qs;
      DataConcat(ps[1..], qs);
    }
  }

  /** A loop that cut `sent` off the buffer has left exactly the rest. */
  lemma CutMeans(buf: seq<Byte>, r: Sending, maxPacket: nat)
    requires maxPacket > 0 && Pieces(buf, maxPacket) == r.sent + Pieces(r.rest, maxPacket)
    ensures Data(r.sent) + r.rest == buf
    ensures buf != [] ==> Queued(buf, maxPacket, Result(|buf|, r), r.sent)
  {
    PiecesData(buf, maxPacket);
    PiecesData(r.rest, maxPacket);
    DataConcat(r.sent, Pieces(r.rest, maxPacket));
  }

  /** A write keeps the pools, and its result says which prefix of the buffer it queued. */
  ghost predicate WriteDoneOk(d: Dev, buf: seq<Byte>, maxPacket: nat, r: WriteDone)
    requires maxPacket > 0
  {
    && Good(r.dev) && r.dev.tx.hand == None && r.dev.tx.pool == d.tx.pool
    && RxEnv(d.rx, r.dev.rx) && r.dev.interface == d.interface
    && r.dev.tx.queued == d.tx.queued + r.sent && Queued(buf, maxPacket, r.ret, r.sent)
    && (if d.interface < 0 || buf == [] then r.ret == -EINVAL && r.dev == d else r.ret >= 0 || r.ret == -EAGAIN)
  }

  lemma WriteMeans(d: Dev, buf: seq<Byte>, maxPacket: nat, w: World, tr: Trouble)
    requires Good(d) && d.tx.hand == None && maxPacket > 0 && Sane(w)
    ensures WriteDoneOk(d, buf, maxPacket, Write(d, buf, maxPacket, w, tr))
  {
    if d.interface >= 0 && buf != [] {
      AwaitedKeeps(d, w);
      SendsAreProper(w, tr);
      var e, k := Awaited(d, w), if d.tx.reqs == [] then 1 else 0;
      SendLoopKeeps(e, buf, maxPacket, SendsIn(w, tr), k, 0);
      CutMeans(buf, SendLoop(e, buf, maxPacket, SendsIn(w, tr), k, 0), maxPacket);
    }
  }

  // ----- no reset, no trouble

  /** Turns without a reset leave the received stream as it is. */
  ghost predicate CalmSends(send: Sends) {
    forall d: Dev, p: Packet, k: nat, c: nat :: Good(d) && d.tx.hand == None && d.tx.reqs != [] && !d.reset ==>
      Undisturbed(d, send(d, p, k, c).dev)
  }

  /** Turns in which nothing goes wrong queue their packet. */
  ghost predicate SureSends(send: Sends) {
    forall d: Dev, p: Packet, k: nat, c: nat :: Good(d) && d.tx.hand == None && d.tx.reqs != [] && !d.reset ==>
      send(d, p, k, c).queued
  }

  lemma SendsAreCalm(w: World, tr: Trouble)
    requires Gentle(w)
    ensures CalmSends(SendsIn(w, tr)) && (tr == NoTrouble ==> SureSends(SendsIn(w, tr)))
  {
    forall d: Dev, p: Packet, k: nat, c: nat | Good(d) && d.tx.hand == None && d.tx.reqs != [] && !d.reset
      ensures Undisturbed(d, SendsIn(w, tr)(d, p, k, c).dev)
      ensures tr == NoTrouble ==> SendsIn(w, tr)(d, p, k, c).queued
    {
      TxTakeKeeps(d.tx);
      var g := d.(tx := TxTake(d.tx));
      assert Undisturbed(g, w(g, k));
    }
  }

  lemma {:induction false} SendLoopCalm(d: Dev, rest: seq<Byte>, maxPacket: nat, send: Sends, k: nat, c: nat)
    requires Good(d) && d.tx.hand == None && ProperSends(send) && maxPacket > 0 && CalmSends(send) && !d.reset
    ensures var r := SendLoop(d, rest, maxPacket, send, k, c);
            Undisturbed(d, r.dev) && (SureSends(send) ==> r.end == RanOut)
    decreases |rest|
  {
    AccountsSame(d.rx, d.rx);
    if d.tx.reqs != [] && rest != [] {
      var t := send(d, Piece(rest, maxPacket), k, c);
      if t.queued {
        SendLoopCalm(t.dev, rest[PieceSize(|rest|)..], maxPacket, send, k + 1, c + 1);
        AccountsTrans(d.rx, t.dev.rx, SendLoop(t.dev, rest[PieceSize(|rest|)..], maxPacket, send, k + 1, c + 1).dev.rx);
      }
    }
  }

  /** Unless a reset strikes, a write leaves the received stream as it is. */
  lemma WriteCalm(d: Dev, buf: seq<Byte>, maxPacket: nat, w: World, tr: Trouble)
    requires Good(d) && d.tx.hand == None && maxPacket > 0 && Gentle(w)
    ensures var r := Write(d, buf, maxPacket, w, tr); r.dev.rx.intact == d.rx.intact && Accounts(d.rx, r.dev.rx)
  {
    AccountsSame(d.rx, d.rx);
    if d.interface >= 0 && buf != [] {
      var e, k := Awaited(d, w), if d.tx.reqs == [] then 1 else 0;
      AwaitedKeeps(d, w);
      SendsAreProper(w, tr);
      SendsAreCalm(w, tr);
      SendLoopCalm(e, buf, maxPacket, SendsIn(w, tr), k, 0);
      AccountsTrans(d.rx, e.rx, SendLoop(e, buf, maxPacket, SendsIn(w, tr), k, 0).dev.rx);
    }
  }

  /**
    A write that meets no reset, fault or refusal queues the whole buffer or uses up the free requests, at
    least as many as were free, and is positive exactly if it queued something.
   */
  lemma WriteProgress(d: Dev, buf: seq<Byte>, maxPacket: nat, w: World)
    requires Good(d) && d.tx.hand == None && maxPacket > 0 && Gentle(w) && d.interface >= 0 && buf != []
    ensures var r := Write(d, buf, maxPacket, w, NoTrouble);
            && (r.sent == Pieces(buf, maxPacket) || r.dev.tx.reqs == [])
            && |r.sent| >= Min(|d.tx.reqs|, |Pieces(buf, maxPacket)|)
            && (r.ret > 0 <==> r.sent != [])
  {
    var e, k := Awaited(d, w), if d.tx.reqs == [] then 1 else 0;
    AwaitedKeeps(d, w);
    SendsAreProper(w, NoTrouble);
    SendsAreCalm(w, NoTrouble);
    SendLoopCalm(e, buf, maxPacket, SendsIn(w, NoTrouble), k, 0);
    SendLoopKeeps(e, buf, maxPacket, SendsIn(w, NoTrouble), k, 0);
    var r := SendLoop(e, buf, maxPacket, SendsIn(w, NoTrouble), k, 0);
    CutMeans(buf, r, maxPacket);
    SentSome(buf, r, maxPacket);
  }

  lemma SentSome(buf: seq<Byte>, r: Sending, maxPacket: nat)
    requires maxPacket > 0 && Pieces(buf, maxPacket) == r.sent + Pieces(r.rest, maxPacket) && Data(r.sent) + r.rest == buf
    ensures r.sent != [] <==> |r.rest| < |buf|
  {
    PiecesData(buf, maxPacket);
    if r.sent != [] {
      assert Pieces(buf, maxPacket)[0] == r.sent[0];
      assert Data(r.sent) == r.sent[0].data + Data(r.sent[1..]);
    }
  }

  // ----- loops, one turn at a time

  ghost predicate IsWorld(w: World, sched: seq<seq<Event>>) {
    w == Scheduled(sched)
  }

  /** These are the copy loop's turns under the schedule. */
  ghost predicate TurnsOf(turn: Turns, sched: seq<seq<Event>>) {
    forall w {:trigger IsWorld(w, sched)} :: IsWorld(w, sched) ==> turn == TurnsIn(w)
  }

  /** These are the transmit loop's turns under the schedule. */
  ghost predicate SendsOf(send: Sends, tr: Trouble, sched: seq<seq<Event>>) {
    forall w {:trigger IsWorld(w, sched)} :: IsWorld(w, sched) ==> send == SendsIn(w, tr)
  }

  /** r is what the loop leads to from here. */
  ghost predicate Leads(d: Dev, len: nat, turn: Turns, k: nat, faults: seq<nat>, c: nat, r: Reading)
    requires AtWork(d) && Proper(turn)
  {
    r == ReadLoop(d, len, turn, k, faults, c)
  }

  /** The loop, come as far as d with `out` copied, leads to `whole` in the end. */
  ghost predicate Going(whole: Reading, out: seq<Byte>, d: Dev, len: nat, turn: Turns, k: nat, faults: seq<nat>, c: nat)
    requires AtWork(d) && Proper(turn)
  {
    forall r {:trigger Leads(d, len, turn, k, faults, c, r)} ::
      Leads(d, len, turn, k, faults, c, r) ==> whole == Reading(r.dev, r.aborted, out + r.out)
  }

  lemma GoingStart(d: Dev, len: nat, turn: Turns, k: nat, faults: seq<nat>)
    requires AtWork(d) && Proper(turn)
    ensures Going(ReadLoop(d, len, turn, k, faults, 0), [], d, len, turn, k, faults, 0)
  {
  }

  lemma GoingOn(whole: Reading, out: seq<Byte>, d: Dev, len: nat, turn: Turns, k: nat, faults: seq<nat>, c: nat)
    requires AtWork(d) && Proper(turn) && Going(whole, out, d, len, turn, k, faults, c) && HasData(d.rx) && len > 0
    ensures var t := turn(d, len, Missed(faults, c), k);
            && AtWork(t.dev) && |t.piece| <= len && (Ahead(faults, c + 1) < Ahead(faults, c) || t.piece != [])
            && Ahead(faults, c + 1) <= Ahead(faults, c)
            && if t.dev.reset then whole == Reading(t.dev, true, out + t.piece)
               else Going(whole, out + t.piece, t.dev, len - |t.piece|, turn, k + 1, faults, c + 1)
  {
    var t := turn(d, len, Missed(faults, c), k);
    assert Leads(d, len, turn, k, faults, c, ReadLoop(d, len, turn, k, faults, c));
    if !t.dev.reset {
      var r := ReadLoop(t.dev, len - |t.piece|, turn, k + 1, faults, c + 1);
      Assoc(out, t.piece, r.out);
    }
  }

  lemma GoingDone(whole: Reading, out: seq<Byte>, d: Dev, len: nat, turn: Turns, k: nat, faults: seq<nat>, c: nat)
    requires AtWork(d) && Proper(turn) && Going(whole, out, d, len, turn, k, faults, c) && (!HasData(d.rx) || len == 0)
    ensures whole == Reading(Kept(d).dev, false, out)
  {
    assert Leads(d, len, turn, k, faults, c, ReadLoop(d, len, turn, k, faults, c));
  }

  /** r is what the transmit loop leads to from here. */
  ghost predicate SendLeads(d: Dev, rest: seq<Byte>, maxPacket: nat, send: Sends, k: nat, c: nat, r: Sending)
    requires Good(d) && d.tx.hand == None && ProperSends(send) && maxPacket > 0
  {
    r == SendLoop(d, rest, maxPacket, send, k, c)
  }

  /** The transmit loop, come as far as d with `sent` queued, leads to `whole` in the end. */
  ghost predicate SendGoing(whole: Sending, sent: seq<Packet>, d: Dev, rest: seq<Byte>, maxPacket: nat, send: Sends, k: nat, c: nat)
    requires Good(d) && d.tx.hand == None && ProperSends(send) && maxPacket > 0
  {
    forall r {:trigger SendLeads(d, rest, maxPacket, send, k, c, r)} ::
      SendLeads(d, rest, maxPacket, send, k, c, r) ==> whole == Sending(r.dev, r.end, sent + r.sent, r.rest)
  }

  lemma SendGoingStart(d: Dev, rest: seq<Byte>, maxPacket: nat, send: Sends, k: nat)
    requires Good(d) && d.tx.hand == None && ProperSends(send) && maxPacket > 0
    ensures SendGoing(SendLoop(d, rest, maxPacket, send, k, 0), [], d, rest, maxPacket, send, k, 0)
  {
  }

  lemma SendGoingOn(whole: Sending, sent: seq<Packet>, d: Dev, rest: seq<Byte>, maxPacket: nat, send: Sends, k: nat, c: nat)
    requires Good(d) && d.tx.hand == None && ProperSends(send) && maxPacket > 0
    requires SendGoing(whole, sent, d, rest, maxPacket, send, k, c) && d.tx.reqs != [] && rest != []
    ensures var p := Piece(rest, maxPacket);
            var t := send(d, p, k, c);
            && Good(t.dev) && t.dev.tx.hand == None
            && if t.queued then
                 SendGoing(whole, sent + [p], t.dev, rest[PieceSize(|rest|)..], maxPacket, send, k + 1, c + 1)
               else whole == Sending(t.dev, if t.fault then CopyFault else Refused, sent, rest)
  {
    var p := Piece(rest, maxPacket);
    var t := send(d, p, k, c);
    assert SendLeads(d, rest, maxPacket, send, k, c, SendLoop(d, rest, maxPacket, send, k, c));
    if t.queued {
      var r := SendLoop(t.dev, rest[PieceSize(|rest|)..], maxPacket, send, k + 1, c + 1);
      Assoc(sent, [p], r.sent);
    }
  }

  lemma SendGoingDone(whole: Sending, sent: seq<Packet>, d: Dev, rest: seq<Byte>, maxPacket: nat, send: Sends, k: nat, c: nat)
    requires Good(d) && d.tx.hand == None && ProperSends(send) && maxPacket > 0
    requires SendGoing(whole, sent, d, rest, maxPacket, send, k, c) && (d.tx.reqs == [] || rest == [])
    ensures whole == Sending(d, RanOut, sent, rest)
  {
    assert SendLeads(d, rest, maxPacket, send, k, c, SendLoop(d, rest, maxPacket, send, k, c));
  }
}
