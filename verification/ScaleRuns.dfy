/** Whole runs of the bulk gadget: conservation, the received stream, and where its bytes come from. */
module ScaleRuns {
  import opened Common
  import opened Bits
  import opened ScaleRequests
  import opened ScalePackets
  import opened ScaleModel

  const QLEN := 10

  datatype Op =
    | ReadOp(len: nat, nonblock: bool, accept: nat, sched: seq<seq<Event>>, faults: seq<nat>)
    | WriteOp(buf: seq<Byte>, maxPacket: nat, sched: seq<seq<Event>>, trouble: Trouble)
    | PollOp(accept: nat)
    | ConnectOp(interface: int)
    | EventOp(event: Event)

  predicate OpOk(op: Op) {
    op.WriteOp? ==> op.maxPacket > 0
  }

  /** No reset strikes while the operation runs. */
  predicate OpCalm(op: Op) {
    match op
    case ReadOp(_, _, _, sched, _) => NoReset(sched)
    case WriteOp(_, _, sched, _) => NoReset(sched)
    case PollOp(_) => true
    case ConnectOp(_) => true
    case EventOp(e) => !e.Reset?
  }

  /** Between operations no caller has a request in hand. */
  ghost predicate Idle(d: Dev) {
    Good(d) && d.rx.hand == Nothing && d.tx.hand == None
  }

  /** What an operation makes of the device, and the bytes a successful read gave its caller. */
  datatype Effect = Effect(dev: Dev, bytes: seq<Byte>)

  function Performed(d: Dev, op: Op): Effect
    requires Idle(d) && OpOk(op)
  {
    match op
    case ReadOp(len, nonblock, accept, sched, faults) =>
      ScheduledSane(sched);
      var r := Read(d, len, nonblock, accept, Scheduled(sched), faults);
      Effect(r.dev, if r.ret > 0 then r.out else [])
    case WriteOp(buf, maxPacket, sched, trouble) =>
      ScheduledSane(sched);
      Effect(Write(d, buf, maxPacket, Scheduled(sched), trouble).dev, [])
    case PollOp(accept) => Effect(d.(rx := Submitted(d.rx, accept)), [])
    case ConnectOp(interface) => Effect(d.(interface := interface), [])
    case EventOp(e) => Effect(Happened(d, e), [])
  }

  /** Every operation keeps both pools and only adds to what was delivered, namely what a successful read returns. */
  ghost predicate EffectOk(d: Dev, calm: bool, e: Effect) {
    && Idle(e.dev) && e.dev.rx.pool == d.rx.pool && e.dev.tx.pool == d.tx.pool
    && d.rx.delivered <= e.dev.rx.delivered
    && (e.bytes != [] || calm ==> e.dev.rx.delivered == d.rx.delivered + e.bytes)
    && (calm ==> e.dev.rx.intact == d.rx.intact)
  }

  lemma ReadEffect(d: Dev, len: nat, nonblock: bool, accept: nat, sched: seq<seq<Event>>, faults: seq<nat>)
    requires Idle(d)
    ensures EffectOk(d, NoReset(sched), Performed(d, ReadOp(len, nonblock, accept, sched, faults)))
  {
    ScheduledSane(sched);
    ReadMeans(d, len, nonblock, accept, Scheduled(sched), faults);
    if NoReset(sched) {
      ReadProgress(d, len, nonblock, accept, Scheduled(sched), faults);
    }
  }

  lemma WriteEffect(d: Dev, buf: seq<Byte>, maxPacket: nat, sched: seq<seq<Event>>, trouble: Trouble)
    requires Idle(d) && maxPacket > 0
    ensures EffectOk(d, NoReset(sched), Performed(d, WriteOp(buf, maxPacket, sched, trouble)))
  {
    ScheduledSane(sched);
    WriteMeans(d, buf, maxPacket, Scheduled(sched), trouble);
    if NoReset(sched) {
      WriteCalm(d, buf, maxPacket, Scheduled(sched), trouble);
    }
  }

  lemma PerformedKeeps(d: Dev, op: Op)
    requires Idle(d) && OpOk(op)
    ensures EffectOk(d, OpCalm(op), Performed(d, op))
  {
    match op {
      case ReadOp(len, nonblock, accept, sched, faults) => ReadEffect(d, len, nonblock, accept, sched, faults);
      case WriteOp(buf, maxPacket, sched, trouble) => WriteEffect(d, buf, maxPacket, sched, trouble);
      case PollOp(accept) => SubmittedKeeps(d.rx, accept);
      case ConnectOp(_) =>
      case EventOp(e) => HappenedKeeps(d, e);
    }
  }

  // ----- runs

  /** A run of operations. */
  function Exec(d: Dev, ops: seq<Op>): (f: Dev)
    requires Idle(d) && forall i :: 0 <= i < |ops| ==> OpOk(ops[i])
    ensures Idle(f)
  {
    if ops == [] then d
    else
      var e := Exec(d, ops[..|ops| - 1]);
      PerformedKeeps(e, ops[|ops| - 1]);
      Performed(e, ops[|ops| - 1]).dev
  }

  /** What the successful reads of a run returned, one after the other. */
  function Got(d: Dev, ops: seq<Op>): seq<Byte>
    requires Idle(d) && forall i :: 0 <= i < |ops| ==> OpOk(ops[i])
  {
    if ops == [] then []
    else Got(d, ops[..|ops| - 1]) + Performed(Exec(d, ops[..|ops| - 1]), ops[|ops| - 1]).bytes
  }

  /** The pools are those of the start, and what reads returned is among what was delivered. */
  ghost predicate RunOk(d: Dev, got: seq<Byte>, calm: bool, f: Dev) {
    && f.rx.pool == d.rx.pool && f.tx.pool == d.tx.pool && Subseq(got, f.rx.delivered)
    && (calm ==> f.rx.intact == d.rx.intact && f.rx.delivered == got)
  }

  /** A read that fails after copying some bytes delivers them to nobody. */
  lemma RunMore(d: Dev, got: seq<Byte>, calm: bool, f: Dev, e: Effect)
    requires RunOk(d, got, calm, f) && EffectOk(f, calm, e)
    ensures RunOk(d, got + e.bytes, calm, e.dev)
  {
    var before, after := f.rx.delivered, e.dev.rx.delivered;
    if e.bytes == [] {
      assert got + e.bytes == got && after == before + after[|before|..];
      SubseqExtend(got, before, after[|before|..]);
    } else {
      SubseqAppend(got, before, e.bytes);
    }
  }

  predicate AllCalm(ops: seq<Op>) {
    forall i :: 0 <= i < |ops| ==> OpCalm(ops[i])
  }

  lemma {:induction false} RunKeeps(d: Dev, ops: seq<Op>)
    requires Idle(d) && d.rx.delivered == [] && forall i :: 0 <= i < |ops| ==> OpOk(ops[i])
    ensures RunOk(d, Got(d, ops), AllCalm(ops), Exec(d, ops))
  {
    if ops == [] {
      SubseqSelf([]);
    } else {
      var front, last := ops[..|ops| - 1], ops[|ops| - 1];
      RunKeeps(d, front);
      PerformedKeeps(Exec(d, front), last);
      RunWeaken(d, Got(d, front), AllCalm(front), AllCalm(ops), Exec(d, front));
      EffectWeaken(Exec(d, front), OpCalm(last), AllCalm(ops), Performed(Exec(d, front), last));
      RunMore(d, Got(d, front), AllCalm(ops), Exec(d, front), Performed(Exec(d, front), last));
    }
  }

  lemma RunWeaken(d: Dev, got: seq<Byte>, calm: bool, calmer: bool, f: Dev)
    requires RunOk(d, got, calm, f) && (calmer ==> calm)
    ensures RunOk(d, got, calmer, f)
  {
  }

  lemma EffectWeaken(d: Dev, calm: bool, calmer: bool, e: Effect)
    requires EffectOk(d, calm, e) && (calmer ==> calm)
    ensures EffectOk(d, calmer, e)
  {
  }

  // ----- where completed bytes come from

  /** The payloads of the completions among the events, whether or not their requests were submitted. */
  function DataOf(evs: seq<Event>): seq<Byte> {
    if evs == [] then []
    else DataOf(evs[..|evs| - 1]) + if evs[|evs| - 1].RxFinished? then evs[|evs| - 1].data else []
  }

  function DataFrom(sched: seq<seq<Event>>, k: nat): seq<Byte>
    decreases |sched| - k
  {
    if k >= |sched| then [] else DataOf(sched[k]) + DataFrom(sched, k + 1)
  }

  function OpData(op: Op): seq<Byte> {
    match op
    case ReadOp(_, _, _, sched, _) => DataFrom(sched, 0)
    case WriteOp(_, _, sched, _) => DataFrom(sched, 0)
    case PollOp(_) => []
    case ConnectOp(_) => []
    case EventOp(e) => DataOf([e])
  }

  /** The payloads of all completions that a run schedules, in order. */
  function RunData(ops: seq<Op>): seq<Byte> {
    if ops == [] then [] else RunData(ops[..|ops| - 1]) + OpData(ops[|ops| - 1])
  }

  /** Whatever completed between d and f is among `data`, in order. */
  ghost predicate Fed(d: Dev, f: Dev, data: seq<Byte>) {
    Subseq(f.rx.completed, d.rx.completed + data)
  }

  lemma FedNothing(d: Dev, f: Dev, data: seq<Byte>)
    requires f.rx.completed == d.rx.completed
    ensures Fed(d, f, data)
  {
    SubseqSelf(d.rx.completed);
    SubseqExtend(d.rx.completed, d.rx.completed, data);
  }

  lemma FedTrans(d: Dev, e: Dev, f: Dev, a: seq<Byte>, b: seq<Byte>)
    requires Fed(d, e, a) && Fed(e, f, b)
    ensures Fed(d, f, a + b)
  {
    SubseqAppend(e.rx.completed, d.rx.completed + a, b);
    Assoc(d.rx.completed, a, b);
    SubseqTransitive(f.rx.completed, e.rx.completed + b, d.rx.completed + (a + b));
  }

  lemma HappenedFed(d: Dev, e: Event)
    ensures Fed(d, Happened(d, e), if e.RxFinished? then e.data else [])
  {
    var f := Happened(d, e);
    if f.rx.completed == d.rx.completed {
      FedNothing(d, f, if e.RxFinished? then e.data else []);
    } else {
      SubseqSelf(f.rx.completed);
    }
  }

  lemma {:induction false} InterferedFed(d: Dev, evs: seq<Event>)
    ensures Fed(d, Interfered(d, evs), DataOf(evs))
  {
    if evs == [] {
      FedNothing(d, d, []);
    } else {
      var front, last := evs[..|evs| - 1], evs[|evs| - 1];
      InterferedFed(d, front);
      HappenedFed(Interfered(d, front), last);
      FedTrans(d, Interfered(d, front), Interfered(d, evs), DataOf(front), if last.RxFinished? then last.data else []);
    }
  }

  lemma DataStep(sched: seq<seq<Event>>, k: nat)
    ensures DataFrom(sched, k) == DataOf(Chunk(sched, k)) + DataFrom(sched, k + 1)
  {
  }

  ghost predicate FedTurns(turn: Turns, sched: seq<seq<Event>>) {
    forall d: Dev, len: nat, missed: nat, k: nat :: AtWork(d) && HasData(d.rx) && len > 0 ==>
      Fed(d, turn(d, len, missed, k).dev, DataOf(Chunk(sched, k)))
  }

  lemma TurnsAreFed(sched: seq<seq<Event>>)
    ensures FedTurns(TurnsIn(Scheduled(sched)), sched)
  {
    var turn := TurnsIn(Scheduled(sched));
    forall d: Dev, len: nat, missed: nat, k: nat | AtWork(d) && HasData(d.rx) && len > 0
      ensures Fed(d, turn(d, len, missed, k).dev, DataOf(Chunk(sched, k)))
    {
      InterferedFed(Grabbed(d), Chunk(sched, k));
    }
  }

  lemma {:induction false} ReadLoopFed(d: Dev, len: nat, turn: Turns, k: nat, faults: seq<nat>, c: nat, sched: seq<seq<Event>>)
    requires AtWork(d) && Proper(turn) && FedTurns(turn, sched)
    ensures Fed(d, ReadLoop(d, len, turn, k, faults, c).dev, DataFrom(sched, k))
    decreases Ahead(faults, c), len
  {
    if HasData(d.rx) && len > 0 {
      var t := turn(d, len, Missed(faults, c), k);
      DataStep(sched, k);
      var now, later := DataOf(Chunk(sched, k)), DataFrom(sched, k + 1);
      if t.dev.reset {
        FedNothing(t.dev, t.dev, later);
        FedTrans(d, t.dev, t.dev, now, later);
      } else {
        ReadLoopFed(t.dev, len - |t.piece|, turn, k + 1, faults, c + 1, sched);
        FedTrans(d, t.dev, ReadLoop(t.dev, len - |t.piece|, turn, k + 1, faults, c + 1).dev, now, later);
      }
    } else {
      FedNothing(d, Kept(d).dev, DataFrom(sched, k));
    }
  }

  ghost predicate FedSends(send: Sends, sched: seq<seq<Event>>) {
    forall d: Dev, p: Packet, k: nat, c: nat :: Good(d) && d.tx.hand == None && d.tx.reqs != [] ==>
      Fed(d, send(d, p, k, c).dev, DataOf(Chunk(sched, k)))
  }

  lemma SendsAreFed(sched: seq<seq<Event>>, tr: Trouble)
    ensures FedSends(SendsIn(Scheduled(sched), tr), sched)
  {
    var send := SendsIn(Scheduled(sched), tr);
    forall d: Dev, p: Packet, k: nat, c: nat | Good(d) && d.tx.hand == None && d.tx.reqs != []
      ensures Fed(d, send(d, p, k, c).dev, DataOf(Chunk(sched, k)))
    {
      InterferedFed(d.(tx := TxTake(d.tx)), Chunk(sched, k));
    }
  }

  lemma {:induction false} SendLoopFed(d: Dev, rest: seq<Byte>, maxPacket: nat, send: Sends, k: nat, c: nat, sched: seq<seq<Event>>)
    requires Good(d) && d.tx.hand == None && ProperSends(send) && maxPacket > 0 && FedSends(send, sched)
    ensures Fed(d, SendLoop(d, rest, maxPacket, send, k, c).dev, DataFrom(sched, k))
    decreases |rest|
  {
    if d.tx.reqs != [] && rest != [] {
      var t := send(d, Piece(rest, maxPacket), k, c);
      DataStep(sched, k);
      var now, later := DataOf(Chunk(sched, k)), DataFrom(sched, k + 1);
      if t.queued {
        var tail := rest[PieceSize(|rest|)..];
        SendLoopFed(t.dev, tail, maxPacket, send, k + 1, c + 1, sched);
        FedTrans(d, t.dev, SendLoop(t.dev, tail, maxPacket, send, k + 1, c + 1).dev, now, later);
      } else {
        FedNothing(t.dev, t.dev, later);
        FedTrans(d, t.dev, t.dev, now, later);
      }
    } else {
      FedNothing(d, d, DataFrom(sched, k));
    }
  }

  lemma ReadFed(d: Dev, len: nat, nonblock: bool, accept: nat, sched: seq<seq<Event>>, faults: seq<nat>)
    requires Idle(d)
    ensures Fed(d, Performed(d, ReadOp(len, nonblock, accept, sched, faults)).dev, DataFrom(sched, 0))
  {
    FedNothing(d, d, DataFrom(sched, 0));
    if len > 0 {
      var w, e := Scheduled(sched), Started(d, accept);
      ScheduledSane(sched);
      StartedKeeps(d, accept);
      TurnsAreProper(w);
      TurnsAreFed(sched);
      if HasData(e.rx) {
        ReadLoopFed(e, len, TurnsIn(w), 0, faults, 0, sched);
      } else if nonblock {
        FedNothing(d, e, DataFrom(sched, 0));
      } else {
        var f := w(e, 0);
        assert MayBecome(e, f);
        InterferedFed(e, Chunk(sched, 0));
        ReadLoopFed(f, len, TurnsIn(w), 1, faults, 0, sched);
        FedTrans(e, f, ReadLoop(f, len, TurnsIn(w), 1, faults, 0).dev, DataOf(Chunk(sched, 0)), DataFrom(sched, 1));
        DataStep(sched, 0);
      }
    }
  }

  lemma WriteFed(d: Dev, buf: seq<Byte>, maxPacket: nat, sched: seq<seq<Event>>, tr: Trouble)
    requires Idle(d) && maxPacket > 0
    ensures Fed(d, Performed(d, WriteOp(buf, maxPacket, sched, tr)).dev, DataFrom(sched, 0))
  {
    FedNothing(d, d, DataFrom(sched, 0));
    if d.interface >= 0 && buf != [] {
      var w := Scheduled(sched);
      ScheduledSane(sched);
      AwaitedKeeps(d, w);
      SendsAreProper(w, tr);
      SendsAreFed(sched, tr);
      var e, send := Awaited(d, w), SendsIn(w, tr);
      if d.tx.reqs == [] {
        InterferedFed(d.(reset := false), Chunk(sched, 0));
        SendLoopFed(e, buf, maxPacket, send, 1, 0, sched);
        FedTrans(d, e, SendLoop(e, buf, maxPacket, send, 1, 0).dev, DataOf(Chunk(sched, 0)), DataFrom(sched, 1));
        DataStep(sched, 0);
      } else {
        SendLoopFed(e, buf, maxPacket, send, 0, 0, sched);
      }
    }
  }

  lemma PerformedFed(d: Dev, op: Op)
    requires Idle(d) && OpOk(op)
    ensures Fed(d, Performed(d, op).dev, OpData(op))
  {
    match op {
      case ReadOp(len, nonblock, accept, sched, faults) => ReadFed(d, len, nonblock, accept, sched, faults);
      case WriteOp(buf, maxPacket, sched, trouble) => WriteFed(d, buf, maxPacket, sched, trouble);
      case PollOp(accept) => FedNothing(d, Performed(d, op).dev, []);
      case ConnectOp(_) => FedNothing(d, Performed(d, op).dev, []);
      case EventOp(e) =>
        HappenedFed(d, e);
        assert [e][..0] == [];
        assert DataOf([e]) == if e.RxFinished? then e.data else [];
    }
  }

  /** Everything that completes in a run is data that one of its events delivers, in the order of the events. */
  lemma {:induction false} RunFed(d: Dev, ops: seq<Op>)
    requires Idle(d) && forall i :: 0 <= i < |ops| ==> OpOk(ops[i])
    ensures Fed(d, Exec(d, ops), RunData(ops))
  {
    if ops == [] {
      FedNothing(d, d, []);
    } else {
      var front, last := ops[..|ops| - 1], ops[|ops| - 1];
      RunFed(d, front);
      PerformedFed(Exec(d, front), last);
      FedTrans(d, Exec(d, front), Exec(d, ops), RunData(front), OpData(last));
    }
  }

  // ----- exactly which bytes complete

  /** The payloads of those events that find their receive request submitted and report success, as they strike. */
  function Landed(d: Dev, evs: seq<Event>): seq<Byte> {
    if evs == [] then []
    else
      var before, e := Interfered(d, evs[..|evs| - 1]), evs[|evs| - 1];
      Landed(d, evs[..|evs| - 1]) +
      if e.RxFinished? && e.req in before.rx.active && e.status == 0 then e.data else []
  }

  lemma {:induction false} InterferedLands(d: Dev, evs: seq<Event>)
    ensures Interfered(d, evs).rx.completed == d.rx.completed + Landed(d, evs)
  {
    if evs != [] {
      var front, last := evs[..|evs| - 1], evs[|evs| - 1];
      InterferedLands(d, front);
      var e := Interfered(d, front);
      var extra := if last.RxFinished? && last.req in e.rx.active && last.status == 0 then last.data else [];
      assert Happened(e, last).rx.completed == e.rx.completed + extra;
      Assoc(d.rx.completed, Landed(d, front), extra);
    }
  }

  /** What lands at the k-th point where a caller with device d has dropped the lock. */
  type Landing = (Dev, nat) -> seq<Byte>

  function LandingIn(sched: seq<seq<Event>>): Landing {
    (d: Dev, k: nat) => Landed(d, Chunk(sched, k))
  }

  /** The same from where a turn of the copy loop starts, which first takes a request in hand. */
  function TurnLanding(sched: seq<seq<Event>>): Landing {
    (d: Dev, k: nat) => if HasData(d.rx) then Landed(Grabbed(d), Chunk(sched, k)) else []
  }

  /** The same for the transmit loop, which first takes a free request. */
  function SendLanding(sched: seq<seq<Event>>): Landing {
    (d: Dev, k: nat) => if d.tx.reqs != [] then Landed(d.(tx := TxTake(d.tx)), Chunk(sched, k)) else []
  }

  ghost predicate LandTurns(turn: Turns, at: Landing) {
    forall d: Dev, len: nat, missed: nat, k: nat {:trigger TurnAt(turn, d, len, missed, k)} ::
      AtWork(d) && HasData(d.rx) && len > 0 ==> TurnAt(turn, d, len, missed, k).dev.rx.completed == d.rx.completed + at(d, k)
  }

  lemma TurnsLand(sched: seq<seq<Event>>)
    ensures LandTurns(TurnsIn(Scheduled(sched)), TurnLanding(sched))
  {
    var turn := TurnsIn(Scheduled(sched));
    forall d: Dev, len: nat, missed: nat, k: nat | AtWork(d) && HasData(d.rx) && len > 0
      ensures TurnAt(turn, d, len, missed, k).dev.rx.completed == d.rx.completed + TurnLanding(sched)(d, k)
    {
      InterferedLands(Grabbed(d), Chunk(sched, k));
    }
  }

  /** What lands while the copy loop runs. */
  function LoopLanded(d: Dev, len: nat, turn: Turns, k: nat, faults: seq<nat>, c: nat, at: Landing): seq<Byte>
    requires AtWork(d) && Proper(turn)
    decreases Ahead(faults, c), len
  {
    if !HasData(d.rx) || len == 0 then []
    else
      var t := turn(d, len, Missed(faults, c), k);
      at(d, k) + if t.dev.reset then [] else LoopLanded(t.dev, len - |t.piece|, turn, k + 1, faults, c + 1, at)
  }

  lemma {:induction false} ReadLoopLands(d: Dev, len: nat, turn: Turns, k: nat, faults: seq<nat>, c: nat, at: Landing)
    requires AtWork(d) && Proper(turn) && LandTurns(turn, at)
    ensures ReadLoop(d, len, turn, k, faults, c).dev.rx.completed
         == d.rx.completed + LoopLanded(d, len, turn, k, faults, c, at)
    decreases Ahead(faults, c), len
  {
    if HasData(d.rx) && len > 0 {
      var t := TurnAt(turn, d, len, Missed(faults, c), k);
      if !t.dev.reset {
        ReadLoopLands(t.dev, len - |t.piece|, turn, k + 1, faults, c + 1, at);
        Assoc(d.rx.completed, at(d, k), LoopLanded(t.dev, len - |t.piece|, turn, k + 1, faults, c + 1, at));
      }
    }
  }

  function SendAt(send: Sends, d: Dev, p: Packet, k: nat, c: nat): Sent {
    send(d, p, k, c)
  }

  ghost predicate LandSends(send: Sends, at: Landing) {
    forall d: Dev, p: Packet, k: nat, c: nat {:trigger SendAt(send, d, p, k, c)} ::
      Good(d) && d.tx.hand == None && d.tx.reqs != [] ==>
        SendAt(send, d, p, k, c).dev.rx.completed == d.rx.completed + at(d, k)
  }

  lemma SendsLand(sched: seq<seq<Event>>, tr: Trouble)
    ensures LandSends(SendsIn(Scheduled(sched), tr), SendLanding(sched))
  {
    var send := SendsIn(Scheduled(sched), tr);
    forall d: Dev, p: Packet, k: nat, c: nat | Good(d) && d.tx.hand == None && d.tx.reqs != []
      ensures SendAt(send, d, p, k, c).dev.rx.completed == d.rx.completed + SendLanding(sched)(d, k)
    {
      InterferedLands(d.(tx := TxTake(d.tx)), Chunk(sched, k));
    }
  }

  /** What lands while the transmit loop runs. */
  function SendLanded(d: Dev, rest: seq<Byte>, maxPacket: nat, send: Sends, k: nat, c: nat, at: Landing): seq<Byte>
    requires Good(d) && d.tx.hand == None && ProperSends(send) && maxPacket > 0
    decreases |rest|
  {
    if d.tx.reqs == [] || rest == [] then []
    else
      var t := send(d, Piece(rest, maxPacket), k, c);
      at(d, k) + if t.queued then SendLanded(t.dev, rest[PieceSize(|rest|)..], maxPacket, send, k + 1, c + 1, at) else []
  }

  lemma {:induction false} SendLoopLands(d: Dev, rest: seq<Byte>, maxPacket: nat, send: Sends, k: nat, c: nat, at: Landing)
    requires Good(d) && d.tx.hand == None && ProperSends(send) && maxPacket > 0 && LandSends(send, at)
    ensures SendLoop(d, rest, maxPacket, send, k, c).dev.rx.completed
         == d.rx.completed + SendLanded(d, rest, maxPacket, send, k, c, at)
    decreases |rest|
  {
    if d.tx.reqs != [] && rest != [] {
      var t := SendAt(send, d, Piece(rest, maxPacket), k, c);
      if t.queued {
        var tail := rest[PieceSize(|rest|)..];
        SendLoopLands(t.dev, tail, maxPacket, send, k + 1, c + 1, at);
        Assoc(d.rx.completed, at(d, k), SendLanded(t.dev, tail, maxPacket, send, k + 1, c + 1, at));
      }
    }
  }

  /** What lands during a read: while it waits for data, and while it copies. */
  function ReadLanded(d: Dev, len: nat, nonblock: bool, accept: nat, sched: seq<seq<Event>>, faults: seq<nat>): seq<Byte>
    requires Idle(d)
  {
    if len == 0 then []
    else
      var w, e := Scheduled(sched), Started(d, accept);
      ScheduledSane(sched);
      StartedKeeps(d, accept);
      TurnsAreProper(w);
      if HasData(e.rx) then LoopLanded(e, len, TurnsIn(w), 0, faults, 0, TurnLanding(sched))
      else if nonblock then []
      else Landed(e, Chunk(sched, 0)) + LoopLanded(w(e, 0), len, TurnsIn(w), 1, faults, 0, TurnLanding(sched))
  }

  lemma ReadLands(d: Dev, len: nat, nonblock: bool, accept: nat, sched: seq<seq<Event>>, faults: seq<nat>)
    requires Idle(d) && Sane(Scheduled(sched))
    ensures Read(d, len, nonblock, accept, Scheduled(sched), faults).dev.rx.completed
         == d.rx.completed + ReadLanded(d, len, nonblock, accept, sched, faults)
  {
    if len > 0 {
      var w, e, at := Scheduled(sched), Started(d, accept), TurnLanding(sched);
      StartedKeeps(d, accept);
      TurnsAreProper(w);
      TurnsLand(sched);
      if HasData(e.rx) {
        ReadLoopLands(e, len, TurnsIn(w), 0, faults, 0, at);
      } else if !nonblock {
        var f := w(e, 0);
        assert MayBecome(e, f);
        InterferedLands(e, Chunk(sched, 0));
        ReadLoopLands(f, len, TurnsIn(w), 1, faults, 0, at);
        Assoc(d.rx.completed, Landed(e, Chunk(sched, 0)), LoopLanded(f, len, TurnsIn(w), 1, faults, 0, at));
      }
    }
  }

  function WriteLanded(d: Dev, buf: seq<Byte>, maxPacket: nat, sched: seq<seq<Event>>, tr: Trouble): seq<Byte>
    requires Idle(d) && maxPacket > 0
  {
    if d.interface < 0 || buf == [] then []
    else
      var w := Scheduled(sched);
      ScheduledSane(sched);
      AwaitedKeeps(d, w);
      SendsAreProper(w, tr);
      var at, send := SendLanding(sched), SendsIn(w, tr);
      if d.tx.reqs == [] then
        Landed(d.(reset := false), Chunk(sched, 0)) + SendLanded(Awaited(d, w), buf, maxPacket, send, 1, 0, at)
      else SendLanded(Awaited(d, w), buf, maxPacket, send, 0, 0, at)
  }

  lemma WriteLands(d: Dev, buf: seq<Byte>, maxPacket: nat, sched: seq<seq<Event>>, tr: Trouble)
    requires Idle(d) && maxPacket > 0 && Sane(Scheduled(sched))
    ensures Write(d, buf, maxPacket, Scheduled(sched), tr).dev.rx.completed
         == d.rx.completed + WriteLanded(d, buf, maxPacket, sched, tr)
  {
    if d.interface >= 0 && buf != [] {
      var w := Scheduled(sched);
      AwaitedKeeps(d, w);
      SendsAreProper(w, tr);
      SendsLand(sched, tr);
      var e, send, at := Awaited(d, w), SendsIn(w, tr), SendLanding(sched);
      if d.tx.reqs == [] {
        InterferedLands(d.(reset := false), Chunk(sched, 0));
        SendLoopLands(e, buf, maxPacket, send, 1, 0, at);
        Assoc(d.rx.completed, Landed(d.(reset := false), Chunk(sched, 0)), SendLanded(e, buf, maxPacket, send, 1, 0, at));
      } else {
        SendLoopLands(e, buf, maxPacket, send, 0, 0, at);
      }
    }
  }

  /** What lands during an operation. */
  function OpLanded(d: Dev, op: Op): seq<Byte>
    requires Idle(d) && OpOk(op)
  {
    match op
    case ReadOp(len, nonblock, accept, sched, faults) => ReadLanded(d, len, nonblock, accept, sched, faults)
    case WriteOp(buf, maxPacket, sched, trouble) => WriteLanded(d, buf, maxPacket, sched, trouble)
    case PollOp(_) => []
    case ConnectOp(_) => []
    case EventOp(e) => Landed(d, [e])
  }

  lemma PerformedLands(d: Dev, op: Op)
    requires Idle(d) && OpOk(op)
    ensures Performed(d, op).dev.rx.completed == d.rx.completed + OpLanded(d, op)
  {
    match op {
      case ReadOp(len, nonblock, accept, sched, faults) =>
        ScheduledSane(sched);
        ReadLands(d, len, nonblock, accept, sched, faults);
      case WriteOp(buf, maxPacket, sched, trouble) =>
        ScheduledSane(sched);
        WriteLands(d, buf, maxPacket, sched, trouble);
      case PollOp(_) =>
      case ConnectOp(_) =>
      case EventOp(e) =>
        InterferedLands(d, [e]);
        assert [e][..0] == [];
        assert Interfered(d, [e]) == Happened(Interfered(d, []), e);
    }
  }

  function RunLanded(d: Dev, ops: seq<Op>): seq<Byte>
    requires Idle(d) && forall i :: 0 <= i < |ops| ==> OpOk(ops[i])
  {
    if ops == [] then []
    else RunLanded(d, ops[..|ops| - 1]) + OpLanded(Exec(d, ops[..|ops| - 1]), ops[|ops| - 1])
  }

  /** In every run what completes is exactly the payloads of the events that find their request submitted and succeed. */
  lemma {:induction false} RunLands(d: Dev, ops: seq<Op>)
    requires Idle(d) && forall i :: 0 <= i < |ops| ==> OpOk(ops[i])
    ensures Exec(d, ops).rx.completed == d.rx.completed + RunLanded(d, ops)
  {
    if ops != [] {
      var front, last := ops[..|ops| - 1], ops[|ops| - 1];
      RunLands(d, front);
      PerformedLands(Exec(d, front), last);
      Assoc(d.rx.completed, RunLanded(d, front), OpLanded(Exec(d, front), last));
    }
  }

  // ----- what each operation does in a run

  /**
    A read in a run, unless a reset strikes: what it returns, then what is unread, is what was unread, then what
    lands while it runs; and it returns all bytes wanted or leaves none unread.
   */
  lemma ReadInRun(d: Dev, len: nat, nonblock: bool, accept: nat, sched: seq<seq<Event>>, faults: seq<nat>)
    requires Idle(d) && NoReset(sched)
    ensures var e := Performed(d, ReadOp(len, nonblock, accept, sched, faults));
            && e.bytes + Unread(e.dev.rx) == Unread(d.rx) + ReadLanded(d, len, nonblock, accept, sched, faults)
            && (|e.bytes| == len || Unread(e.dev.rx) == [])
  {
    var w := Scheduled(sched);
    ScheduledSane(sched);
    var r := Read(d, len, nonblock, accept, w, faults);
    ReadProgress(d, len, nonblock, accept, w, faults);
    ReadLands(d, len, nonblock, accept, sched, faults);
    var arrived :| FlowsBy(d, r, arrived);
    Cancel(d.rx.completed, arrived, ReadLanded(d, len, nonblock, accept, sched, faults));
  }

  /** A write in a run that meets no reset, fault or refusal queues its pieces in order, all or as many as can be. */
  lemma WriteInRun(d: Dev, buf: seq<Byte>, maxPacket: nat, sched: seq<seq<Event>>) returns (sent: seq<Packet>)
    requires Idle(d) && NoReset(sched) && maxPacket > 0 && d.interface >= 0 && buf != []
    ensures var f := Performed(d, WriteOp(buf, maxPacket, sched, NoTrouble)).dev;
            && f.tx.queued == d.tx.queued + sent && sent <= Pieces(buf, maxPacket)
            && (sent == Pieces(buf, maxPacket) || f.tx.reqs == [])
            && |sent| >= Min(|d.tx.reqs|, |Pieces(buf, maxPacket)|)
  {
    var w := Scheduled(sched);
    ScheduledSane(sched);
    WriteMeans(d, buf, maxPacket, w, NoTrouble);
    WriteProgress(d, buf, maxPacket, w);
    sent := Write(d, buf, maxPacket, w, NoTrouble).sent;
  }

  /** Polling submits, connecting sets the interface, and events happen. */
  lemma OthersInRun(d: Dev, accept: nat, interface: int, e: Event)
    requires Idle(d)
    ensures var x := Performed(d, PollOp(accept)).dev.rx; x.reqs == [] || |x.active| == |d.rx.active| + accept
    ensures Performed(d, ConnectOp(interface)).dev == d.(interface := interface)
    ensures Performed(d, EventOp(e)).dev == Happened(d, e)
  {
  }

  // ----- what holds of every run

  predicate Distinct(rs: seq<Req>) {
    forall i, j :: 0 <= i < j < |rs| ==> rs[i] != rs[j]
  }

  /** list_add of each request in turn. */
  function Listed(rs: seq<Req>): seq<Req> {
    if rs == [] then [] else [rs[|rs| - 1]] + Listed(rs[..|rs| - 1])
  }

  lemma {:induction false} ListedAll(rs: seq<Req>)
    ensures multiset(Listed(rs)) == multiset(rs)
  {
    if rs != [] {
      ListedAll(rs[..|rs| - 1]);
      assert rs == rs[..|rs| - 1] + [rs[|rs| - 1]];
    }
  }

  /** The device after set-up: every request is free, nothing is submitted, completed or in hand. */
  function Fresh(rxNew: seq<Req>, txNew: seq<Req>): Dev {
    Dev(EmptyRx(set r | r in rxNew).(reqs := Listed(rxNew)), EmptyTx(set r | r in txNew).(reqs := Listed(txNew)), -1, false)
  }

  lemma FreshIdle(rxNew: seq<Req>, txNew: seq<Req>)
    requires Distinct(rxNew) && Distinct(txNew)
    ensures Idle(Fresh(rxNew, txNew))
  {
    ListedAll(rxNew);
    ListedAll(txNew);
    var d := Fresh(rxNew, txNew);
    FreshInv(rxNew, d.rx, txNew, d.tx);
  }

  /** After any run every request of either pool is in exactly one place, and a partly read one has bytes left. */
  lemma Conservation(rxNew: seq<Req>, txNew: seq<Req>, ops: seq<Op>)
    requires Distinct(rxNew) && Distinct(txNew) && forall i :: 0 <= i < |ops| ==> OpOk(ops[i])
    ensures Idle(Fresh(rxNew, txNew))
    ensures var d := Exec(Fresh(rxNew, txNew), ops);
            && (forall r :: RxPlaces(d.rx, r) == if r in rxNew then 1 else 0)
            && (forall r :: TxPlaces(d.tx, r) == if r in txNew then 1 else 0)
            && (d.rx.curReq.Some? <==> d.rx.curBytes > 0)
  {
    FreshIdle(rxNew, txNew);
    RunKeeps(Fresh(rxNew, txNew), ops);
    var d := Exec(Fresh(rxNew, txNew), ops);
    Opened(d.rx);
    forall r ensures RxPlaces(d.rx, r) == if r in rxNew then 1 else 0 {
      assert RxPlaces(d.rx, r) == if r in d.rx.pool then 1 else 0;
    }
    forall r ensures TxPlaces(d.tx, r) == if r in txNew then 1 else 0 {
      assert TxPlaces(d.tx, r) == if r in d.tx.pool then 1 else 0;
    }
  }

  /**
    In any run, what the successful reads returned, then what is unread, is a subsequence of what completed,
    which is exactly the payloads of the run's completions that found their request submitted and reported
    success; unless a reset strikes, what was returned and what is unread are all that completed, in order.
   */
  lemma StreamFidelity(rxNew: seq<Req>, txNew: seq<Req>, ops: seq<Op>)
    requires Distinct(rxNew) && Distinct(txNew) && forall i :: 0 <= i < |ops| ==> OpOk(ops[i])
    ensures Idle(Fresh(rxNew, txNew))
    ensures var d, got := Exec(Fresh(rxNew, txNew), ops), Got(Fresh(rxNew, txNew), ops);
            && Subseq(got + Unread(d.rx), d.rx.completed) && Subseq(d.rx.completed, RunData(ops))
            && d.rx.completed == RunLanded(Fresh(rxNew, txNew), ops)
            && (AllCalm(ops) ==> got + Unread(d.rx) == d.rx.completed)
  {
    FreshIdle(rxNew, txNew);
    var s := Fresh(rxNew, txNew);
    RunKeeps(s, ops);
    Source(s, ops);
    ReturnedIsCompleted(Got(s, ops), Exec(s, ops).rx);
  }

  /** From a device on which nothing has completed yet. */
  lemma Source(d: Dev, ops: seq<Op>)
    requires Idle(d) && d.rx.completed == [] && forall i :: 0 <= i < |ops| ==> OpOk(ops[i])
    ensures Exec(d, ops).rx.completed == RunLanded(d, ops) && Subseq(Exec(d, ops).rx.completed, RunData(ops))
  {
    RunFed(d, ops);
    RunLands(d, ops);
    NothingBefore(RunLanded(d, ops));
    NothingBefore(RunData(ops));
  }

  lemma NothingBefore(a: seq<Byte>)
    ensures [] + a == a
  {
  }

  lemma ReturnedIsCompleted(got: seq<Byte>, x: Rx)
    requires RxInv(x) && x.hand == Nothing && Subseq(got, x.delivered)
    ensures Subseq(got + Unread(x), x.completed)
    ensures x.intact && got == x.delivered ==> got + Unread(x) == x.completed
  {
    Opened(x);
    SubseqAppend(got, x.delivered, Unread(x));
    SeenIdle(x);
    SubseqSelf(Seen(x));
    SubseqTransitive(got + Unread(x), x.delivered + Unread(x), x.completed);
  }
}
