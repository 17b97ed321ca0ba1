/**
  The tick broadcast: a timer handler counts ticks and raises a flag for every open reader; readers
  block on a shared wait queue until their flag is up.  One atomic step per shared access, any
  number of readers, sequentially consistent memory, one thread per open file, one handler at a time.
 */
module TickBroadcast {

  type Id = nat

  /** Where a reader's thread stands; Idle is outside reg_read. */
  datatype Pc = Idle | Enqueue | Park | Test | Sched | Clear | Load | Leave

  datatype Task = Running | Interruptible

  /** `seen` is the tick count this reader last took, at first the one at open. */
  datatype Reader = Reader(hasData: bool, pc: Pc, task: Task, queued: bool, seen: nat)

  /** The handler: between ticks, after the increment, raising flags under the lock, or about to wake. */
  datatype Timer = Dormant | Bumped | Marking(todo: seq<Id>) | WakeUp

  /** `list` is the list of open files, `queue` the wait queue, `ticks` the number of increments ever made. */
  datatype State = State(ticks: nat, readers: map<Id, Reader>, list: seq<Id>, queue: set<Id>, timer: Timer)

  const Start := State(0, map[], [], {}, Dormant)

  const WORD := 0x1_0000_0000_0000_0000

  /** The shared counter, an unsigned 64-bit word. */
  function Data(s: State): nat {
    s.ticks % WORD
  }

  /** What happens next: an open or close, one reader moves on, a signal arrives, the handler moves on. */
  datatype Event = Open(id: Id) | Release(id: Id) | Read(id: Id, nonblock: bool, signal: bool) | Signal(id: Id) | Tick

  // ----- steps

  predicate Locked(s: State) {
    s.timer.Marking?
  }

  /** A thread that called schedule() while interruptible runs again only after a wake-up. */
  predicate Asleep(r: Reader) {
    r.pc == Sched && r.task == Interruptible
  }

  predicate Enabled(s: State, e: Event) {
    match e
    case Open(id) => id !in s.readers && !Locked(s)
    case Release(id) => id in s.readers && s.readers[id].pc == Idle && !Locked(s)
    case Read(id, _, _) => id in s.readers && !Asleep(s.readers[id])
    case Signal(id) => id in s.readers && Asleep(s.readers[id])
    case Tick => true
  }

  function Remove(l: seq<Id>, id: Id): seq<Id> {
    if l == [] then [] else if l[0] == id then l[1..] else [l[0]] + Remove(l[1..], id)
  }

  /** One reader's own step inside reg_read. */
  function ReaderStep(r: Reader, ticks: nat, nonblock: bool, signal: bool): Reader {
    match r.pc
    case Idle => r.(pc := if r.hasData then Clear else Enqueue)
    case Enqueue => r.(queued := true, pc := Park)
    case Park => r.(task := Interruptible, pc := Test)
    case Test => r.(pc := if r.hasData then Clear else if nonblock || signal then Leave else Sched)
    case Sched => r.(pc := Park)
    case Clear => r.(hasData := false, pc := Load)
    case Load => r.(seen := ticks, pc := Leave)
    case Leave => r.(task := if r.queued then Running else r.task, queued := false, pc := Idle)
  }

  function WakeAll(s: State): map<Id, Reader> {
    map id | id in s.readers :: if id in s.queue then s.readers[id].(task := Running) else s.readers[id]
  }

  function TimerStep(s: State): State {
    match s.timer
    case Dormant => s.(ticks := s.ticks + 1, timer := Bumped)
    case Bumped => s.(timer := Marking(s.list))
    case Marking(todo) =>
      if todo == [] then s.(timer := WakeUp)
      else if todo[0] in s.readers then
        s.(readers := s.readers[todo[0] := s.readers[todo[0]].(hasData := true)], timer := Marking(todo[1..]))
      else s  // a freed entry: excluded by the invariant
    case WakeUp => s.(readers := WakeAll(s), timer := Dormant)
  }

  function Step(s: State, e: Event): State
    requires Enabled(s, e)
  {
    match e
    case Open(id) =>
      s.(readers := s.readers[id := Reader(false, Idle, Running, false, s.ticks)], list := [id] + s.list)
    case Release(id) => s.(readers := s.readers - {id}, list := Remove(s.list, id))
    case Read(id, nonblock, signal) =>
      var r := ReaderStep(s.readers[id], s.ticks, nonblock, signal);
      s.(readers := s.readers[id := r], queue := if r.queued then s.queue + {id} else s.queue - {id})
    case Signal(id) => s.(readers := s.readers[id := s.readers[id].(task := Running)])
    case Tick => TimerStep(s)
  }

  /** An event that is not possible when its turn comes is passed over. */
  function Next(s: State, e: Event): State {
    if Enabled(s, e) then Step(s, e) else s
  }

  /** Any schedule. */
  function Exec(s: State, es: seq<Event>): State
    decreases |es|
  {
    if es == [] then s else Exec(Next(s, es[0]), es[1..])
  }

  /** The event is reader id's load of the counter. */
  predicate Loads(s: State, e: Event, id: Id) {
    e.Read? && e.id == id && id in s.readers && s.readers[id].pc == Load
  }

  /** The counts reader id takes in a run, in order. */
  function Takes(s: State, es: seq<Event>, id: Id): seq<nat>
    decreases |es|
  {
    if es == [] then []
    else
      var rest := Takes(Next(s, es[0]), es[1..], id);
      if Loads(s, es[0], id) then [s.ticks] + rest else rest
  }

  // ----- the invariant

  /** The handler has counted a tick that it has not yet flagged for this reader. */
  predicate Owes(t: Timer, id: Id) {
    t.Bumped? || (t.Marking? && id in t.todo)
  }

  predicate Distinct(l: seq<Id>) {
    forall i, j :: 0 <= i < j < |l| ==> l[i] != l[j]
  }

  predicate ReaderOk(s: State, id: Id)
    requires id in s.readers
  {
    var r := s.readers[id];
    && (id in s.queue <==> r.queued)
    && (r.pc == Park || r.pc == Test || r.pc == Sched ==> r.queued)
    && (r.pc == Idle || r.pc == Enqueue ==> !r.queued)
    && (r.pc == Clear ==> r.hasData)
    && r.seen <= s.ticks
    && (!r.hasData && r.pc != Load && !Owes(s.timer, id) ==> r.seen == s.ticks)
    && (Asleep(r) && r.hasData ==> s.timer.Marking? || s.timer.WakeUp?)
  }

  ghost predicate Inv(s: State) {
    && (forall id :: id in s.list <==> id in s.readers)
    && Distinct(s.list)
    && s.queue <= s.readers.Keys
    && (s.timer.Marking? ==> forall id :: id in s.timer.todo ==> id in s.readers)
    && forall id :: id in s.readers ==> ReaderOk(s, id)
  }

  lemma {:induction false} RemoveGone(l: seq<Id>, id: Id)
    requires Distinct(l)
    ensures forall x :: x in Remove(l, id) <==> x in l && x != id
    ensures Distinct(Remove(l, id))
  {
    if l != [] {
      assert l == [l[0]] + l[1..];
      forall i, j | 0 <= i < j < |l[1..]| ensures l[1..][i] != l[1..][j] {
        assert l[1..][i] == l[i + 1] && l[1..][j] == l[j + 1];
      }
      RemoveGone(l[1..], id);
      if l[0] == id {
        forall x | x in l[1..] ensures x != id {
          var i :| 0 <= i < |l[1..]| && l[1..][i] == x;
          assert l[i + 1] == x;
        }
      } else {
        assert l[0] !in l[1..];
      }
    }
  }

  /** Readers that a step does not concern stay well placed. */
  lemma OthersOk(s: State, s': State, id: Id)
    requires Inv(s) && s'.ticks == s.ticks && s'.timer == s.timer
    requires forall x :: x in s'.readers && x != id ==>
      x in s.readers && s'.readers[x] == s.readers[x] && (x in s'.queue <==> x in s.queue)
    ensures forall x :: x in s'.readers && x != id ==> ReaderOk(s', x)
  {
    forall x | x in s'.readers && x != id ensures ReaderOk(s', x) {
      assert ReaderOk(s, x);
    }
  }

  lemma OpenKeeps(s: State, id: Id)
    requires Inv(s) && Enabled(s, Open(id))
    ensures Inv(Step(s, Open(id)))
  {
    var s' := Step(s, Open(id));
    OthersOk(s, s', id);
    assert ReaderOk(s', id);
  }

  lemma ReleaseKeeps(s: State, id: Id)
    requires Inv(s) && Enabled(s, Release(id))
    ensures Inv(Step(s, Release(id)))
  {
    var s' := Step(s, Release(id));
    RemoveGone(s.list, id);
    assert ReaderOk(s, id);
    forall x | x in s'.readers ensures ReaderOk(s', x) {
      assert ReaderOk(s, x);
    }
  }

  lemma ReadOwn(s: State, id: Id, nonblock: bool, signal: bool)
    requires id in s.readers && ReaderOk(s, id) && !Asleep(s.readers[id])
    ensures ReaderOk(Step(s, Read(id, nonblock, signal)), id)
  {
  }

  lemma ReadKeeps(s: State, id: Id, nonblock: bool, signal: bool)
    requires Inv(s) && Enabled(s, Read(id, nonblock, signal))
    ensures Inv(Step(s, Read(id, nonblock, signal)))
  {
    var s' := Step(s, Read(id, nonblock, signal));
    ReadOwn(s, id, nonblock, signal);
    OthersOk(s, s', id);
  }

  lemma TickKeeps(s: State)
    requires Inv(s)
    ensures Inv(TimerStep(s))
  {
    var s' := TimerStep(s);
    if s.timer.Marking? && s.timer.todo != [] {
      assert s.timer.todo == [s.timer.todo[0]] + s.timer.todo[1..];
    }
    forall x | x in s'.readers ensures ReaderOk(s', x) {
      assert ReaderOk(s, x);
    }
  }

  lemma StepKeeps(s: State, e: Event)
    requires Inv(s) && Enabled(s, e)
    ensures Inv(Step(s, e))
  {
    match e {
      case Open(id) => OpenKeeps(s, id);
      case Release(id) => ReleaseKeeps(s, id);
      case Read(id, nonblock, signal) => ReadKeeps(s, id, nonblock, signal);
      case Signal(id) =>
        assert ReaderOk(s, id);
        forall x | x in s.readers ensures ReaderOk(Step(s, e), x) {
          assert ReaderOk(s, x);
        }
      case Tick => TickKeeps(s);
    }
  }

  lemma NextKeeps(s: State, e: Event)
    requires Inv(s)
    ensures Inv(Next(s, e))
  {
    if Enabled(s, e) {
      StepKeeps(s, e);
    }
  }

  lemma {:induction false} RunKeeps(s: State, es: seq<Event>)
    requires Inv(s)
    ensures Inv(Exec(s, es))
    decreases |es|
  {
    if es != [] {
      NextKeeps(s, es[0]);
      RunKeeps(Next(s, es[0]), es[1..]);
    }
  }

  // ----- what the protocol promises, for every run

  /** No tick is missed: between reads, with the flag down and the handler done, a reader has the current count. */
  lemma NoTickMissed(es: seq<Event>, id: Id)
    ensures var s := Exec(Start, es);
            id in s.readers && s.readers[id].pc == Idle && !s.readers[id].hasData && s.timer == Dormant ==>
              s.readers[id].seen == s.ticks && s.readers[id].seen % WORD == Data(s)
  {
    RunKeeps(Start, es);
    var s := Exec(Start, es);
    assert id in s.readers ==> ReaderOk(s, id);
  }

  /** No wake-up is lost: a sleeper whose flag is up is on the queue and the wake-up is still to come. */
  lemma NoLostWakeup(es: seq<Event>, id: Id)
    ensures var s := Exec(Start, es);
            id in s.readers && Asleep(s.readers[id]) && s.readers[id].hasData ==>
              id in s.queue && (s.timer.Marking? || s.timer.WakeUp?)
  {
    RunKeeps(Start, es);
    var s := Exec(Start, es);
    assert id in s.readers ==> ReaderOk(s, id);
  }

  /** The handler never touches a freed entry: whatever it still has to flag is open. */
  lemma HandlerTouchesOpenOnly(es: seq<Event>, id: Id)
    ensures var s := Exec(Start, es);
            s.timer.Marking? && id in s.timer.todo ==> id in s.readers && id in s.list
  {
    RunKeeps(Start, es);
  }

  // ----- the handler finishes

  /** Steps the handler has left before it is dormant again. */
  function Left(s: State): nat {
    match s.timer
    case Dormant => 0
    case Bumped => |s.list| + 3
    case Marking(todo) => |todo| + 2
    case WakeUp => 1
  }

  /** The handler's own steps, taken to the end. */
  function Finish(s: State): State
    requires Inv(s)
    decreases Left(s)
  {
    if s.timer == Dormant then s
    else
      TickKeeps(s);
      Finish(TimerStep(s))
  }

  /** It ends, makes no second tick, and leaves nobody it flagged, and nobody flagged before, asleep. */
  lemma {:induction false} FinishWakes(s: State, id: Id)
    requires Inv(s) && id in s.readers
    ensures var s' := Finish(s);
            && s'.timer == Dormant && s'.ticks == s.ticks && id in s'.readers
            && s'.readers[id].seen == s.readers[id].seen && s'.readers[id].pc == s.readers[id].pc
            && (s.readers[id].hasData || Owes(s.timer, id) ==> s'.readers[id].hasData)
            && (s'.readers[id].hasData ==> !Asleep(s'.readers[id]))
    decreases Left(s)
  {
    assert ReaderOk(s, id);
    if s.timer != Dormant {
      TickKeeps(s);
      FinishWakes(TimerStep(s), id);
    }
  }

  /** A whole run of the handler counts one tick, flags every open reader and leaves none of them asleep. */
  lemma OneTick(s: State, id: Id)
    requires Inv(s) && s.timer == Dormant && id in s.readers
    ensures Inv(TimerStep(s))
    ensures var s' := Finish(TimerStep(s));
            && s'.timer == Dormant && s'.ticks == s.ticks + 1
            && id in s'.readers && s'.readers[id].hasData && !Asleep(s'.readers[id])
  {
    TickKeeps(s);
    FinishWakes(TimerStep(s), id);
  }

  /** Finishing is a run of the system: that many handler steps and nothing else. */
  lemma {:induction false} FinishIsRun(s: State)
    requires Inv(s)
    ensures Finish(s) == Exec(s, seq(Left(s), i => Tick))
    decreases Left(s)
  {
    if s.timer != Dormant {
      TickKeeps(s);
      var es := seq(Left(s), i => Tick);
      assert es[1..] == seq(Left(TimerStep(s)), i => Tick);
      FinishIsRun(TimerStep(s));
    }
  }

  lemma {:induction false} ExecConcat(s: State, es: seq<Event>, fs: seq<Event>)
    ensures Exec(s, es + fs) == Exec(Exec(s, es), fs)
    decreases |es|
  {
    if es == [] {
      assert es + fs == fs;
    } else {
      assert (es + fs)[1..] == es[1..] + fs;
      ExecConcat(Next(s, es[0]), es[1..], fs);
    }
  }

  /** A read that overlaps an increment: the flag was tested before it, the count is loaded after it. */
  lemma TickDuringRead(s: State, es: seq<Event>)
    requires s == State(1, map[0 := Reader(true, Idle, Running, false, 0)], [0], {}, Dormant)
    requires var go := Read(0, false, false); es == [go, Tick, go, go, go]
    ensures Exec(s, es) == State(2, map[0 := Reader(false, Idle, Running, false, 2)], [0], {}, Bumped)
    ensures Takes(s, es, 0) == [2]
  {
    var go := Read(0, false, false);
    var a := Step(s, go);
    assert a == State(1, map[0 := Reader(true, Clear, Running, false, 0)], [0], {}, Dormant);
    var b := Step(a, Tick);
    var c := Step(b, go);
    assert c == State(2, map[0 := Reader(false, Load, Running, false, 0)], [0], {}, Bumped);
    var d := Step(c, go);
    assert d == State(2, map[0 := Reader(false, Leave, Running, false, 2)], [0], {}, Bumped);
    var e := Step(d, go);
    assert e == State(2, map[0 := Reader(false, Idle, Running, false, 2)], [0], {}, Bumped);
    assert es[1..] == [Tick, go, go, go] && es[1..][1..] == [go, go, go];
    assert Exec(a, es[1..]) == Exec(b, [go, go, go]);
    assert Exec(c, [go, go]) == Exec(d, [go]) == Exec(e, []);
    assert Takes(s, es, 0) == Takes(b, [go, go, go], 0) == Takes(c, [go, go], 0);
    assert Takes(c, [go, go], 0) == [2] + Takes(d, [go], 0) && Takes(d, [go], 0) == Takes(e, [], 0);
  }

  // ----- which counts a reader takes

  /** The least count reader id can still take. */
  function Floor(s: State, id: Id): nat {
    if id in s.readers then s.readers[id].seen else s.ticks
  }

  /** The counts lie between lo and hi and never go back. */
  predicate NeverBack(ts: seq<nat>, lo: nat, hi: nat) {
    && lo <= hi
    && (forall i :: 0 <= i < |ts| ==> lo <= ts[i] <= hi)
    && forall i, j :: 0 <= i < j < |ts| ==> ts[i] <= ts[j]
  }

  /** No count comes twice. */
  predicate Rising(ts: seq<nat>) {
    forall i, j :: 0 <= i < j < |ts| ==> ts[i] < ts[j]
  }

  /** Only its own load changes the count a reader has taken. */
  lemma SeenStays(s: State, e: Event, id: Id)
    requires id in s.readers && e != Release(id) && !Loads(s, e, id)
    ensures id in Next(s, e).readers && Next(s, e).readers[id].seen == s.readers[id].seen
  {
  }

  lemma FloorRises(s: State, e: Event, id: Id)
    requires Inv(s)
    ensures Floor(s, id) <= Floor(Next(s, e), id) <= Next(s, e).ticks
    ensures Loads(s, e, id) ==> Floor(Next(s, e), id) == s.ticks == Next(s, e).ticks
  {
    NextKeeps(s, e);
    assert id in s.readers ==> ReaderOk(s, id);
    assert id in Next(s, e).readers ==> ReaderOk(Next(s, e), id);
    if id in s.readers && e != Release(id) && !Loads(s, e, id) {
      SeenStays(s, e, id);
    }
  }

  /**
    In every run the counts a reader takes never go back, not even across close and open; the words it
    reads are these counts as long as the 64-bit counter has not wrapped.
   */
  lemma {:induction false} TakesNeverGoBack(s: State, es: seq<Event>, id: Id)
    requires Inv(s)
    ensures var ts := Takes(s, es, id);
            NeverBack(ts, Floor(s, id), Exec(s, es).ticks) &&
            (Exec(s, es).ticks < WORD ==> forall i :: 0 <= i < |ts| ==> ts[i] % WORD == ts[i])
    decreases |es|
  {
    assert id in s.readers ==> ReaderOk(s, id);
    if es != [] {
      NextKeeps(s, es[0]);
      FloorRises(s, es[0], id);
      TakesNeverGoBack(Next(s, es[0]), es[1..], id);
      var ts, rest := Takes(s, es, id), Takes(Next(s, es[0]), es[1..], id);
      assert ts == if Loads(s, es[0], id) then [s.ticks] + rest else rest;
      assert NeverBack(rest, Floor(Next(s, es[0]), id), Exec(s, es).ticks);
    }
  }

  /** The handler has flagged the reader, or still owes it the flag. */
  predicate Due(s: State, id: Id) {
    id in s.readers && (s.readers[id].hasData || Owes(s.timer, id))
  }

  /** The reader will be sent to take, or is about to take, a count it already has. */
  predicate Stale(s: State, id: Id) {
    id in s.readers && (Due(s, id) || s.readers[id].pc == Load) && s.readers[id].seen == s.ticks
  }

  /** A load while the flag is up again or owed, or an open between an increment and its marking. */
  predicate Clashes(s: State, e: Event, id: Id) {
    Enabled(s, e) && ((Loads(s, e, id) && Due(s, id)) || (e == Open(id) && Owes(s.timer, id)))
  }

  /** A reader becomes stale by such a clash and by nothing else. */
  lemma StaleIff(s: State, e: Event, id: Id)
    requires Inv(s) && !Stale(s, id)
    ensures Stale(Next(s, e), id) <==> Clashes(s, e, id)
  {
    assert id in s.readers ==> ReaderOk(s, id);
    if e == Tick {
      TickStale(s, id);
    } else if Enabled(s, e) {
      assert Next(s, e).timer == s.timer && Next(s, e).ticks == s.ticks;
      if e.Read? && e.id == id {
        ReadStale(s, id, e.nonblock, e.signal);
      }
    }
  }

  lemma TickStale(s: State, id: Id)
    requires Inv(s) && !Stale(s, id)
    ensures !Stale(TimerStep(s), id)
  {
    assert id in s.readers ==> ReaderOk(s, id);
    if s.timer.Marking? && s.timer.todo != [] {
      assert s.timer.todo == [s.timer.todo[0]] + s.timer.todo[1..];
    }
  }

  lemma ReadStale(s: State, id: Id, nonblock: bool, signal: bool)
    requires Inv(s) && !Stale(s, id) && Enabled(s, Read(id, nonblock, signal))
    ensures Stale(Step(s, Read(id, nonblock, signal)), id) <==> s.readers[id].pc == Load && Due(s, id)
  {
    assert ReaderOk(s, id);
    var s' := Step(s, Read(id, nonblock, signal));
    assert s'.readers[id] == ReaderStep(s.readers[id], s.ticks, nonblock, signal);
  }

  /** The reader is stale at some point of the run. */
  predicate EverStale(s: State, es: seq<Event>, id: Id)
    decreases |es|
  {
    Stale(s, id) || (es != [] && EverStale(Next(s, es[0]), es[1..], id))
  }

  predicate EverClashes(s: State, es: seq<Event>, id: Id)
    decreases |es|
  {
    es != [] && (Clashes(s, es[0], id) || EverClashes(Next(s, es[0]), es[1..], id))
  }

  lemma {:induction false} EverStaleIff(s: State, es: seq<Event>, id: Id)
    requires Inv(s) && !Stale(s, id)
    ensures EverStale(s, es, id) <==> EverClashes(s, es, id)
    decreases |es|
  {
    if es != [] {
      NextKeeps(s, es[0]);
      StaleIff(s, es[0], id);
      if !Clashes(s, es[0], id) {
        EverStaleIff(Next(s, es[0]), es[1..], id);
      }
    }
  }

  lemma {:induction false} FreshTakes(s: State, es: seq<Event>, id: Id)
    requires Inv(s) && !EverStale(s, es, id)
    ensures var ts := Takes(s, es, id);
            (forall i :: 0 <= i < |ts| ==> Floor(s, id) < ts[i]) && Rising(ts)
    decreases |es|
  {
    assert id in s.readers ==> ReaderOk(s, id);
    if es != [] {
      NextKeeps(s, es[0]);
      FloorRises(s, es[0], id);
      FreshTakes(Next(s, es[0]), es[1..], id);
      var ts, rest := Takes(s, es, id), Takes(Next(s, es[0]), es[1..], id);
      assert ts == if Loads(s, es[0], id) then [s.ticks] + rest else rest;
      assert Rising(rest) && forall i :: 0 <= i < |rest| ==> Floor(Next(s, es[0]), id) < rest[i];
    }
  }

  /** In a run without a clash every reader takes each count at most once. */
  lemma NoClashNoRepeat(es: seq<Event>, id: Id)
    requires !EverClashes(Start, es, id)
    ensures Rising(Takes(Start, es, id))
  {
    EverStaleIff(Start, es, id);
    FreshTakes(Start, es, id);
  }

  /** Steps of its own that bring a flagged reader to its next load, that load included. */
  function StepsToLoad(pc: Pc): nat {
    match pc
    case Load => 1
    case Clear => 2
    case Test => 3
    case Idle => 3
    case Park => 4
    case Leave => 4
    case Enqueue => 5
    case Sched => 5
  }

  lemma {:induction false} DriveToLoad(s: State, id: Id, n: nat)
    requires Inv(s) && id in s.readers && !Asleep(s.readers[id]) && n == StepsToLoad(s.readers[id].pc)
    requires s.readers[id].hasData || s.readers[id].pc == Load
    ensures Takes(s, seq(n, i => Read(id, false, false)), id) == [s.ticks]
    decreases n
  {
    var go := Read(id, false, false);
    var es := seq(n, i => go);
    assert es[1..] == seq(n - 1, i => go);
    if s.readers[id].pc != Load {
      assert ReaderOk(s, id);
      ReadKeeps(s, id, false, false);
      DriveToLoad(Next(s, go), id, n - 1);
    }
  }

  lemma {:induction false} TicksTakeNothing(s: State, n: nat, id: Id)
    ensures Takes(s, seq(n, i => Tick), id) == []
    decreases n
  {
    if n > 0 {
      assert seq(n, i => Tick)[1..] == seq(n - 1, i => Tick);
      TicksTakeNothing(Next(s, Tick), n - 1, id);
    }
  }

  lemma {:induction false} TakesConcat(s: State, es: seq<Event>, fs: seq<Event>, id: Id)
    ensures Takes(s, es + fs, id) == Takes(s, es, id) + Takes(Exec(s, es), fs, id)
    decreases |es|
  {
    if es == [] {
      assert es + fs == fs;
    } else {
      assert (es + fs)[1..] == es[1..] + fs;
      TakesConcat(Next(s, es[0]), es[1..], fs, id);
    }
  }

  /** A reader that is not stale, while it stays open, next takes a count it does not have. */
  lemma {:induction false} FreshNext(s: State, es: seq<Event>, id: Id)
    requires Inv(s) && id in s.readers && !Stale(s, id) && Release(id) !in es
    ensures var ts := Takes(s, es, id); ts != [] ==> ts[0] > s.readers[id].seen
    decreases |es|
  {
    assert ReaderOk(s, id);
    if es != [] && !Loads(s, es[0], id) {
      assert es[0] in es;
      NextKeeps(s, es[0]);
      StaleIff(s, es[0], id);
      SeenStays(s, es[0], id);
      FreshNext(Next(s, es[0]), es[1..], id);
    }
  }

  /** The run takes reader id's last count again, without closing it in between. */
  predicate TakesAgain(s: State, es: seq<Event>, id: Id)
    requires id in s.readers
  {
    Release(id) !in es && Takes(s, es, id) != [] && Takes(s, es, id)[0] == s.readers[id].seen
  }

  /** Some schedule makes the reader take again the count it has, exactly if it is stale. */
  lemma TakesAgainIff(s: State, id: Id)
    requires Inv(s) && id in s.readers
    ensures Stale(s, id) <==> exists es :: TakesAgain(s, es, id)
  {
    if Stale(s, id) {
      var wait, go := seq(Left(s), i => Tick), seq(StepsToLoad(s.readers[id].pc), i => Read(id, false, false));
      if s.readers[id].pc == Load {
        DriveToLoad(s, id, 1);
        assert TakesAgain(s, go, id);
      } else {
        FinishWakes(s, id);
        FinishIsRun(s);
        RunKeeps(s, wait);
        TicksTakeNothing(s, Left(s), id);
        DriveToLoad(Finish(s), id, StepsToLoad(s.readers[id].pc));
        TakesConcat(s, wait, go, id);
        assert TakesAgain(s, wait + go, id);
      }
    } else {
      forall es ensures !TakesAgain(s, es, id) {
        if Release(id) !in es {
          FreshNext(s, es, id);
        }
      }
    }
  }

  /** A run in which an increment falls between a read's flag test and its load, and count 2 is taken twice. */
  lemma CountTakenTwice()
    ensures exists es :: Takes(Start, es, 0) == [2, 2]
  {
    var go := Read(0, false, false);
    var es1 := [Open(0), Tick, Tick, Tick, Tick, Tick];
    var s1 := Exec(Start, es1);
    assert s1 == State(1, map[0 := Reader(true, Idle, Running, false, 0)], [0], {}, Dormant);
    assert Takes(Start, es1, 0) == [];
    var es2 := [go, Tick, go, go, go];
    var s2 := Exec(s1, es2);
    TickDuringRead(s1, es2);
    RunKeeps(Start, es1);
    RunKeeps(s1, es2);
    TakesAgainIff(s2, 0);
    var es3 :| TakesAgain(s2, es3, 0);
    FirstTake(s2, es3, 0);
    var n :| 0 <= n <= |es3| && Takes(s2, es3[..n], 0) == [2];
    TakesConcat(Start, es1, es2, 0);
    ExecConcat(Start, es1, es2);
    TakesConcat(Start, es1 + es2, es3[..n], 0);
    assert Takes(Start, es1 + es2 + es3[..n], 0) == [2, 2];
  }

  /** A run can be cut right after the first take. */
  lemma {:induction false} FirstTake(s: State, es: seq<Event>, id: Id)
    requires Takes(s, es, id) != []
    ensures exists n :: 0 <= n <= |es| && Takes(s, es[..n], id) == [Takes(s, es, id)[0]]
    decreases |es|
  {
    if Loads(s, es[0], id) {
      assert es[..1][1..] == [];
      assert Takes(s, es[..1], id) == [s.ticks];
    } else {
      FirstTake(Next(s, es[0]), es[1..], id);
      var n :| 0 <= n <= |es[1..]| && Takes(Next(s, es[0]), es[1..][..n], id) == [Takes(s, es, id)[0]];
      assert es[..n + 1][1..] == es[1..][..n];
    }
  }

  /** The other cause: a reader opened between an increment and its marking can take its opening count. */
  lemma OpenedTooEarly()
    ensures var s := Exec(Start, [Tick, Open(0)]);
            s.readers.Keys == {0} && s.readers[0].seen == 1 && exists es :: TakesAgain(s, es, 0)
  {
    var es := [Tick, Open(0)];
    var s := Exec(Start, es);
    assert s == State(1, map[0 := Reader(false, Idle, Running, false, 1)], [0], {}, Bumped);
    RunKeeps(Start, es);
    TakesAgainIff(s, 0);
  }

  // ----- when a read returns, and with what

  /** The event takes reader id out of reg_read. */
  predicate Returns(s: State, e: Event, id: Id) {
    e.Read? && e.id == id && id in s.readers && s.readers[id].pc == Leave
  }

  /** Reader id finds its flag down and may not wait, because it is non-blocking or has a signal pending. */
  predicate GivesUp(s: State, e: Event, id: Id) {
    e.Read? && e.id == id && id in s.readers && s.readers[id].pc == Test && !s.readers[id].hasData && (e.nonblock || e.signal)
  }

  /** How often reader id returns from reg_read in a run. */
  function Returned(s: State, es: seq<Event>, id: Id): nat
    decreases |es|
  {
    if es == [] then 0 else (if Returns(s, es[0], id) then 1 else 0) + Returned(Next(s, es[0]), es[1..], id)
  }

  function GaveUp(s: State, es: seq<Event>, id: Id): nat
    decreases |es|
  {
    if es == [] then 0 else (if GivesUp(s, es[0], id) then 1 else 0) + GaveUp(Next(s, es[0]), es[1..], id)
  }

  function AtExit(s: State, id: Id): nat
    requires id in s.readers
  {
    if s.readers[id].pc == Leave then 1 else 0
  }

  /** A reader gets to the exit of reg_read by loading the count, or by giving up, and in no other way. */
  lemma ExitIff(s: State, e: Event, id: Id)
    requires id in s.readers && e != Release(id)
    ensures id in Next(s, e).readers
    ensures s.readers[id].pc != Leave ==> (Next(s, e).readers[id].pc == Leave <==> Loads(s, e, id) || GivesUp(s, e, id))
    ensures s.readers[id].pc == Leave ==> (Next(s, e).readers[id].pc == Leave <==> !Returns(s, e, id))
  {
  }

  /** In every run, reads that return are as many as counts taken and reads given up. */
  lemma {:induction false} ReadsAccount(s: State, es: seq<Event>, id: Id)
    requires id in s.readers && Release(id) !in es
    ensures id in Exec(s, es).readers
    ensures AtExit(s, id) + |Takes(s, es, id)| + GaveUp(s, es, id) == Returned(s, es, id) + AtExit(Exec(s, es), id)
    decreases |es|
  {
    if es != [] {
      assert es[0] in es;
      ExitIff(s, es[0], id);
      ReadsAccount(Next(s, es[0]), es[1..], id);
    }
  }

  /** Reader id never asks not to wait and has no signal pending. */
  predicate Patient(es: seq<Event>, id: Id) {
    forall i :: 0 <= i < |es| && es[i].Read? && es[i].id == id ==> !es[i].nonblock && !es[i].signal
  }

  lemma {:induction false} PatientNeverGivesUp(s: State, es: seq<Event>, id: Id)
    requires Patient(es, id)
    ensures GaveUp(s, es, id) == 0
    decreases |es|
  {
    if es != [] {
      PatientNeverGivesUp(Next(s, es[0]), es[1..], id);
    }
  }

  /** A blocking read without signals returns with a count: from outside reg_read to outside, one for each return. */
  lemma BlockingReadsTake(s: State, es: seq<Event>, id: Id)
    requires id in s.readers && Release(id) !in es && Patient(es, id) && s.readers[id].pc == Idle
    ensures id in Exec(s, es).readers
    ensures Exec(s, es).readers[id].pc == Idle ==> |Takes(s, es, id)| == Returned(s, es, id)
  {
    ReadsAccount(s, es, id);
    PatientNeverGivesUp(s, es, id);
  }

  /** Four steps of a blocking read that finds its flag down put the reader to sleep on the queue, with no count. */
  lemma ReadSleeps(s: State, id: Id)
    requires id in s.readers && s.readers[id].pc == Idle && !s.readers[id].hasData
    ensures var go := Read(id, false, false);
            var s' := Exec(s, [go, go, go, go]);
            id in s'.readers && Asleep(s'.readers[id]) && id in s'.queue && Takes(s, [go, go, go, go], id) == []
  {
    var go := Read(id, false, false);
    var a := Step(s, go);
    var b := Step(a, go);
    var c := Step(b, go);
    var d := Step(c, go);
    assert a.readers[id].pc == Enqueue && b.readers[id].pc == Park && c.readers[id].pc == Test;
    assert Exec(s, [go, go, go, go]) == Exec(a, [go, go, go]) == Exec(b, [go, go]) == Exec(c, [go]) == Exec(d, []);
    assert Takes(s, [go, go, go, go], id) == Takes(a, [go, go, go], id) == Takes(b, [go, go], id) == Takes(c, [go], id);
    assert Takes(c, [go], id) == Takes(d, [], id);
  }

  /** A sleeper stays asleep, with no count, until the handler wakes the queue or a signal arrives. */
  lemma {:induction false} SleepsOn(s: State, es: seq<Event>, id: Id)
    requires id in s.readers && Asleep(s.readers[id]) && s.timer == Dormant
    requires Tick !in es && Signal(id) !in es
    ensures id in Exec(s, es).readers && Asleep(Exec(s, es).readers[id]) && Takes(s, es, id) == []
    decreases |es|
  {
    if es != [] {
      assert es[0] in es;
      SleepsOn(Next(s, es[0]), es[1..], id);
    }
  }

  /** A signal gets a sleeper whose flag is down out of reg_read without a count. */
  lemma SignalEnds(s: State, id: Id)
    requires id in s.readers && Asleep(s.readers[id]) && !s.readers[id].hasData && s.readers[id].queued
    ensures var go := Read(id, false, true);
            var s' := Exec(s, [Signal(id), go, go, go, go]);
            && id in s'.readers && s'.readers[id].pc == Idle && s'.readers[id].task == Running && id !in s'.queue
            && Takes(s, [Signal(id), go, go, go, go], id) == []
  {
    var go := Read(id, false, true);
    var a := Step(s, Signal(id));
    var b := Step(a, go);
    var c := Step(b, go);
    var d := Step(c, go);
    var e := Step(d, go);
    assert b.readers[id].pc == Park && c.readers[id].pc == Test && d.readers[id].pc == Leave;
    assert Exec(s, [Signal(id), go, go, go, go]) == Exec(a, [go, go, go, go]) == Exec(b, [go, go, go]);
    assert Exec(b, [go, go, go]) == Exec(c, [go, go]) == Exec(d, [go]) == Exec(e, []);
    assert Takes(s, [Signal(id), go, go, go, go], id) == Takes(a, [go, go, go, go], id) == Takes(b, [go, go, go], id);
    assert Takes(b, [go, go, go], id) == Takes(c, [go, go], id) == Takes(d, [go], id) == Takes(e, [], id);
  }

  /** A run that reaches a sleeper. */
  lemma SomeoneSleeps()
    ensures exists es :: var s := Exec(Start, es); 0 in s.readers && Asleep(s.readers[0]) && 0 in s.queue
  {
    var go := Read(0, false, false);
    var s := Exec(Start, [Open(0)]);
    assert s == State(0, map[0 := Reader(false, Idle, Running, false, 0)], [0], {}, Dormant);
    ReadSleeps(s, 0);
    ExecConcat(Start, [Open(0)], [go, go, go, go]);
    var es := [Open(0)] + [go, go, go, go];
    assert 0 in Exec(Start, es).readers && Asleep(Exec(Start, es).readers[0]) && 0 in Exec(Start, es).queue;
  }

  /** A read that may not wait and finds its flag down returns in five steps, with no count and nothing changed. */
  lemma ReadGivesUp(s: State, id: Id, nonblock: bool, signal: bool)
    requires id in s.readers && s.readers[id].pc == Idle && !s.readers[id].hasData && !s.readers[id].queued
    requires nonblock || signal
    ensures var go := Read(id, nonblock, signal);
            var s' := Exec(s, [go, go, go, go, go]);
            && id in s'.readers && s'.readers[id] == s.readers[id].(task := Running) && id !in s'.queue
            && Takes(s, [go, go, go, go, go], id) == []
  {
    var go := Read(id, nonblock, signal);
    var a := Step(s, go);
    var b := Step(a, go);
    var c := Step(b, go);
    var d := Step(c, go);
    var e := Step(d, go);
    assert a.readers[id].pc == Enqueue && b.readers[id].pc == Park && c.readers[id].pc == Test && d.readers[id].pc == Leave;
    assert Exec(s, [go, go, go, go, go]) == Exec(a, [go, go, go, go]) == Exec(b, [go, go, go]);
    assert Exec(b, [go, go, go]) == Exec(c, [go, go]) == Exec(d, [go]) == Exec(e, []);
    assert Takes(s, [go, go, go, go, go], id) == Takes(a, [go, go, go, go], id) == Takes(b, [go, go, go], id);
    assert Takes(b, [go, go, go], id) == Takes(c, [go, go], id) == Takes(d, [go], id) == Takes(e, [], id);
  }

  /** An undisturbed read of a flagged reader takes the current count and puts its flag down. */
  lemma ReadTakes(s: State, id: Id, nonblock: bool, signal: bool)
    requires id in s.readers && s.readers[id].pc == Idle && s.readers[id].hasData && !s.readers[id].queued
    ensures var go := Read(id, nonblock, signal);
            var s' := Exec(s, [go, go, go, go]);
            && id in s'.readers && s'.readers[id] == s.readers[id].(hasData := false, seen := s.ticks)
            && Takes(s, [go, go, go, go], id) == [s.ticks]
  {
    var go := Read(id, nonblock, signal);
    var a := Step(s, go);
    var b := Step(a, go);
    var c := Step(b, go);
    var d := Step(c, go);
    assert a.readers[id].pc == Clear && b.readers[id].pc == Load && c.readers[id].pc == Leave;
    assert Exec(s, [go, go, go, go]) == Exec(a, [go, go, go]) == Exec(b, [go, go]) == Exec(c, [go]) == Exec(d, []);
    assert Takes(s, [go, go, go, go], id) == Takes(a, [go, go, go], id) == Takes(b, [go, go], id);
    assert Takes(b, [go, go], id) == [s.ticks] + Takes(c, [go], id) && Takes(c, [go], id) == Takes(d, [], id);
  }
}
