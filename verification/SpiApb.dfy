/**
  Chunked, retrying writes over the SPI-to-APB bridge, against a device whose answers follow an arbitrary
  schedule.  A device that answers "done" has stored the whole chunk; one that reports an error, or answers
  garbage, may have scribbled anything into the chunk's target range.
 */
module SpiApb {
  import opened Common
  import opened Bits

  const MAX_OP_BYTES := 60000
  const TRY_MAX := 3
  const STATE_ID := 0x1608

  /** A device's answer to one write: its state word and what it scribbles if the write failed. */
  datatype Answer = Answer(state: nat, scribble: map<nat, Byte>)

  type Memory = map<nat, Byte>

  predicate Identified(a: Answer) {
    a.state / 0x1_0000 == STATE_ID
  }

  function Code(a: Answer): nat {
    a.state % 0x1_0000
  }

  predicate Done(a: Answer) {
    Identified(a) && Code(a) == 0
  }

  /** The memory holds the data from address addr on. */
  predicate Stored(m: Memory, addr: nat, data: seq<Byte>) {
    forall i :: 0 <= i < |data| ==> Holds(m, addr + i, data[i])
  }

  predicate Holds(m: Memory, a: nat, b: Byte) {
    a in m && m[a] == b
  }

  predicate SameAt(m: Memory, n: Memory, a: nat) {
    (a in n <==> a in m) && (a in m ==> n[a] == m[a])
  }

  ghost predicate SameOutside(m: Memory, n: Memory, lo: nat, hi: nat) {
    forall a: nat :: !(lo <= a < hi) ==> SameAt(m, n, a)
  }

  // ----- what a schedule of answers leads to

  /** Result of a chunk whose next attempt is number k and that may retry `left` times, and attempts used. */
  function Outcome(answers: nat -> Answer, k: nat, left: nat): (int, nat)
    decreases left
  {
    var a := answers(k);
    if !Identified(a) then (-1, 1)
    else if Code(a) == 0 then (0, 1)
    else if left == 0 then (Code(a), 1)
    else var (r, n) := Outcome(answers, k + 1, left - 1); (r, n + 1)
  }

  /** A transfer: result, attempts used, and bytes of the chunks completed. */
  datatype Report = Report(ret: int, used: nat, done: nat) {
    /** The same, with n attempts and d bytes before it. */
    function After(n: nat, d: nat): Report {
      Report(ret, used + n, done + d)
    }
  }

  /** The transfer of len bytes whose first attempt is number k. */
  function Transfer(answers: nat -> Answer, k: nat, len: nat): Report
    decreases len
  {
    if len == 0 then Report(0, 0, 0)
    else
      var (r, n) := Outcome(answers, k, TRY_MAX);
      if r != 0 then Report(r, n, 0)
      else
        var slen := Min(len, MAX_OP_BYTES);
        Transfer(answers, k + n, len - slen).After(n, slen)
  }

  lemma {:induction false} OutcomeBound(answers: nat -> Answer, k: nat, left: nat)
    ensures 1 <= Outcome(answers, k, left).1 <= left + 1
    decreases left
  {
    if left > 0 {
      OutcomeBound(answers, k + 1, left - 1);
    }
  }

  predicate Retryable(a: Answer) {
    Identified(a) && Code(a) != 0
  }

  /** From attempt k on, attempt j is the first that is answered "done", all before it with retryable errors. */
  predicate Succeeds(answers: nat -> Answer, k: nat, j: nat) {
    Done(answers(j)) && forall i: nat :: k <= i < j ==> Retryable(answers(i))
  }

  /** A chunk succeeds exactly when such an attempt comes within the limit. */
  lemma {:induction false} OutcomeZero(answers: nat -> Answer, k: nat, left: nat)
    ensures Outcome(answers, k, left).0 == 0 <==> exists j: nat :: k <= j <= k + left && Succeeds(answers, k, j)
    decreases left
  {
    if Done(answers(k)) {
      assert Succeeds(answers, k, k);
    } else if Identified(answers(k)) && left > 0 {
      var l := k + 1;
      OutcomeZero(answers, l, left - 1);
      if j: nat :| l <= j <= k + left && Succeeds(answers, l, j) {
        assert Succeeds(answers, k, j);
      }
      if j: nat :| k <= j <= k + left && Succeeds(answers, k, j) {
        assert Succeeds(answers, l, j);
      }
    }
  }

  /**
    The attempts made are all answered with retryable errors but the last, which is not, or is the last allowed;
    its answer is the result: -1 without identification, else its code.
   */
  lemma {:induction false} OutcomeExact(answers: nat -> Answer, k: nat, left: nat)
    ensures var (r, n) := Outcome(answers, k, left);
            && 1 <= n <= left + 1
            && (forall i: nat :: k <= i < k + n - 1 ==> Retryable(answers(i)))
            && (n == left + 1 || !Retryable(answers(k + n - 1)))
            && r == if Identified(answers(k + n - 1)) then Code(answers(k + n - 1)) else -1
    decreases left
  {
    if left > 0 && Retryable(answers(k)) {
      OutcomeExact(answers, k + 1, left - 1);
      var m := Outcome(answers, k + 1, left - 1).1;
      assert k + 1 + m - 1 == k + (m + 1) - 1;
      forall i: nat | k <= i < k + m ensures Retryable(answers(i)) {
        assert i == k || k + 1 <= i < k + 1 + m - 1;
      }
    }
  }

  lemma TransferStep(answers: nat -> Answer, k: nat, len: nat)
    requires len > 0
    ensures ChunkThen(answers, k, len, Outcome(answers, k, TRY_MAX).0, Outcome(answers, k, TRY_MAX).1)
  {
  }

  /** A transfer is its first chunk, with result r after n attempts, and then the rest. */
  predicate ChunkThen(answers: nat -> Answer, k: nat, len: nat, r: int, n: nat) {
    var slen := Min(len, MAX_OP_BYTES);
    Transfer(answers, k, len) == if r != 0 then Report(r, n, 0)
                                 else Transfer(answers, k + n, len - slen).After(n, slen)
  }

  /** A transfer of len bytes from attempt k0 on that has come to attempt k, with result r and `done` bytes so far. */
  predicate Progress(answers: nat -> Answer, k0: nat, k: nat, len: nat, r: int, done: nat) {
    && k0 <= k && done <= len
    && Transfer(answers, k0, len) == if r != 0 then Report(r, k - k0, done)
                                     else Transfer(answers, k, len - done).After(k - k0, done)
  }

  /** One more chunk, of slen bytes, with result r and attempts up to k'. */
  lemma ProgressMore(answers: nat -> Answer, k0: nat, k: nat, k': nat, len: nat, done: nat, slen: nat, r: int)
    requires Progress(answers, k0, k, len, 0, done) && done < len && k <= k' && slen == Min(len - done, MAX_OP_BYTES)
    requires ChunkThen(answers, k, len - done, r, k' - k)
    ensures Progress(answers, k0, k', len, r, if r == 0 then done + slen else done)
  {
    assert k + (k' - k) == k' && len - done - slen == len - (done + slen);
  }

  /** Number of chunks of a transfer. */
  function Chunks(len: nat): nat {
    (len + MAX_OP_BYTES - 1) / MAX_OP_BYTES
  }

  lemma ChunksStep(len: nat)
    requires len > 0
    ensures Chunks(len) == 1 + Chunks(len - Min(len, MAX_OP_BYTES))
  {
  }

  /** At most four attempts per chunk. */
  lemma {:induction false} TransferUsed(answers: nat -> Answer, k: nat, len: nat)
    ensures Transfer(answers, k, len).used <= (TRY_MAX + 1) * Chunks(len)
    decreases len
  {
    if len > 0 {
      var n := Outcome(answers, k, TRY_MAX).1;
      OutcomeBound(answers, k, TRY_MAX);
      ChunksStep(len);
      TransferStep(answers, k, len);
      TransferUsed(answers, k + n, len - Min(len, MAX_OP_BYTES));
    }
  }

  /** What completed is whole chunks, all of them exactly on success. */
  lemma {:induction false} TransferDone(answers: nat -> Answer, k: nat, len: nat)
    ensures var t := Transfer(answers, k, len);
            t.done <= len && (t.ret == 0 <==> t.done == len) && (t.done < len ==> t.done % MAX_OP_BYTES == 0)
    decreases len
  {
    if len > 0 {
      var n, slen := Outcome(answers, k, TRY_MAX).1, Min(len, MAX_OP_BYTES);
      TransferStep(answers, k, len);
      TransferDone(answers, k + n, len - slen);
      WholeChunk(Transfer(answers, k + n, len - slen), n, len);
    }
  }

  lemma WholeChunk(t: Report, n: nat, len: nat)
    requires len > 0
    requires var rest := len - Min(len, MAX_OP_BYTES);
             t.done <= rest && (t.ret == 0 <==> t.done == rest) && (t.done < rest ==> t.done % MAX_OP_BYTES == 0)
    ensures var u := t.After(n, Min(len, MAX_OP_BYTES));
            u.done <= len && (u.ret == 0 <==> u.done == len) && (u.done < len ==> u.done % MAX_OP_BYTES == 0)
  {
  }

  // ----- the driver

  /** How far a transfer of len bytes reaches: what is done, and the failing chunk. */
  function Touched(len: nat, done: nat, ret: int): nat
    requires done <= len
  {
    done + if ret == 0 then 0 else Min(len - done, MAX_OP_BYTES)
  }

  function At(data: seq<Byte>, addr: nat, x: nat): Byte
    requires addr <= x < addr + |data|
  {
    data[x - addr]
  }

  lemma SameOutsideTrans(m: Memory, n: Memory, p: Memory, lo: nat, mid: nat, hi: nat, end: nat)
    requires SameOutside(m, n, lo, mid) && SameOutside(n, p, hi, end) && lo <= hi <= end && mid <= end
    ensures SameOutside(m, p, lo, end)
  {
    forall a: nat | !(lo <= a < end) ensures SameAt(m, p, a) {
      assert SameAt(m, n, a) && SameAt(n, p, a);
    }
  }

  class Bridge {
    /** How the device will answer each write, by number. */
    const answers: nat -> Answer
    var mem: Memory
    var attempts: nat
    var state: nat

    constructor (answers: nat -> Answer, mem: Memory)
      ensures this.answers == answers && this.mem == mem && attempts == 0
    {
      this.answers, this.mem := answers, mem;
      attempts, state := 0, 0;
    }

    /** One write message: the device stores the data, or fails and scribbles into the range. */
    method WriteOnce(addr: nat, data: seq<Byte>)
      modifies this
      ensures attempts == old(attempts) + 1 && state == answers(old(attempts)).state
      ensures SameOutside(old(mem), mem, addr, addr + |data|)
      ensures Done(answers(old(attempts))) ==> Stored(mem, addr, data)
    {
      var a := answers(attempts);
      if Done(a) {
        mem := mem + map x | addr <= x < addr + |data| :: At(data, addr, x);
      } else {
        mem := mem + map x | addr <= x < addr + |data| && x in a.scribble :: a.scribble[x];
      }
      attempts, state := attempts + 1, a.state;
    }

    /** Asks about the last write: 0 if the device identifies itself, and then a zero code if it stored the data. */
    method OperationQuery() returns (ret: int, s: nat)
      requires attempts > 0 && state == answers(attempts - 1).state
      ensures ret == 0 || ret == -1
      ensures ret == 0 <==> Identified(answers(attempts - 1))
      ensures ret == 0 ==> (s % 0x1_0000 == 0 <==> Done(answers(attempts - 1)))
      ensures ret == 0 && s % 0x1_0000 != 0 ==> Retryable(answers(attempts - 1)) && s % 0x1_0000 == Code(answers(attempts - 1))
    {
      s := state;
      ret := if s / 0x1_0000 == STATE_ID then 0 else -1;
    }

    /** Writes one chunk, retrying up to TRY_MAX times. */
    method SafeWriteChunk(addr: nat, data: seq<Byte>) returns (ret: int)
      modifies this
      ensures (ret, attempts - old(attempts)) == Outcome(answers, old(attempts), TRY_MAX)
      ensures SameOutside(old(mem), mem, addr, addr + |data|)
      ensures ret == 0 ==> Stored(mem, addr, data)
    {
      var tries := 0;
      while true
        invariant 0 <= tries <= TRY_MAX && attempts == old(attempts) + tries
        invariant Outcome(answers, old(attempts), TRY_MAX).0 == Outcome(answers, attempts, TRY_MAX - tries).0
        invariant Outcome(answers, old(attempts), TRY_MAX).1 == Outcome(answers, attempts, TRY_MAX - tries).1 + tries
        invariant SameOutside(old(mem), mem, addr, addr + |data|)
        decreases TRY_MAX - tries
      {
        ghost var before := mem;
        WriteOnce(addr, data);
        SameOutsideTrans(old(mem), before, mem, addr, addr + |data|, addr, addr + |data|);
        var ok, s := OperationQuery();
        if ok != 0 {
          return -1;
        } else if s % 0x1_0000 == 0 {
          return 0;
        }
        if tries == TRY_MAX {
          return s % 0x1_0000;
        }
        tries := tries + 1;
      }
    }

    /** Writes the chunk that follows the `done` bytes already in place. */
    method NextChunk(addr: nat, data: seq<Byte>, done: nat, slen: nat, ghost k0: nat) returns (ret: int)
      requires done < |data| && slen == Min(|data| - done, MAX_OP_BYTES) && Stored(mem, addr, data[..done])
      requires Progress(answers, k0, attempts, |data|, 0, done)
      modifies this
      ensures Progress(answers, k0, attempts, |data|, ret, if ret == 0 then done + slen else done)
      ensures SameOutside(old(mem), mem, addr + done, addr + done + slen)
      ensures ret == 0 ==> Stored(mem, addr, data[..done + slen])
      ensures ret != 0 ==> Stored(mem, addr, data[..done])
    {
      var part := data[done..done + slen];
      TransferStep(answers, attempts, |data| - done);
      ret := SafeWriteChunk(addr + done, part);
      ProgressMore(answers, k0, old(attempts), attempts, |data|, done, slen, ret);
      StoredStill(old(mem), mem, addr, data, done, slen);
      if ret == 0 {
        StoredMore(mem, addr, data, done, slen);
      }
    }

    /** The chunk loop: stops at the first chunk that fails. */
    method SendChunks(addr: nat, data: seq<Byte>) returns (ret: int, done: nat)
      modifies this
      ensures attempts >= old(attempts)
      ensures Report(ret, attempts - old(attempts), done) == Transfer(answers, old(attempts), |data|)
      ensures done <= |data| && Stored(mem, addr, data[..done])
      ensures SameOutside(old(mem), mem, addr, addr + Touched(|data|, done, ret))
    {
      ret, done := 0, 0;
      while done < |data| && ret == 0
        invariant done <= |data|
        invariant Stored(mem, addr, data[..done])
        invariant SameOutside(old(mem), mem, addr, addr + Touched(|data|, done, ret))
        invariant Progress(answers, old(attempts), attempts, |data|, ret, done)
        decreases |data| - done, ret == 0
      {
        var slen := Min(|data| - done, MAX_OP_BYTES);
        ghost var before := mem;
        ret := NextChunk(addr, data, done, slen, old(attempts));
        SameOutsideTrans(old(mem), before, mem, addr, addr + done, addr + done, addr + done + slen);
        if ret == 0 {
          done := done + slen;
        }
      }
    }

    /**
      The whole transfer.  On success the range holds the data and nothing else changed; on failure the
      chunks before the failing one are in place, and nothing beyond the failing one was touched.
     */
    method SafeWrite(addr: nat, data: seq<Byte>) returns (ret: int, done: nat)
      modifies this
      ensures attempts >= old(attempts)
      ensures Report(ret, attempts - old(attempts), done) == Transfer(answers, old(attempts), |data|)
      ensures attempts - old(attempts) <= (TRY_MAX + 1) * Chunks(|data|)
      ensures done <= |data| && Stored(mem, addr, data[..done])
      ensures ret == 0 <==> done == |data|
      ensures ret != 0 ==> done % MAX_OP_BYTES == 0
      ensures SameOutside(old(mem), mem, addr, addr + Touched(|data|, done, ret))
    {
      TransferUsed(answers, attempts, |data|);
      TransferDone(answers, attempts, |data|);
      ret, done := SendChunks(addr, data);
    }
  }

  lemma StoredStill(m: Memory, n: Memory, addr: nat, data: seq<Byte>, done: nat, slen: nat)
    requires done + slen <= |data| && Stored(m, addr, data[..done])
    requires SameOutside(m, n, addr + done, addr + done + slen)
    ensures Stored(n, addr, data[..done])
  {
    forall i | 0 <= i < done ensures Holds(n, addr + i, data[..done][i]) {
      assert Holds(m, addr + i, data[..done][i]) && SameAt(m, n, addr + i);
    }
  }

  lemma StoredMore(m: Memory, addr: nat, data: seq<Byte>, done: nat, slen: nat)
    requires done + slen <= |data| && Stored(m, addr, data[..done])
    requires Stored(m, addr + done, data[done..done + slen])
    ensures Stored(m, addr, data[..done + slen])
  {
    var front := data[..done + slen];
    forall i | 0 <= i < |front| ensures Holds(m, addr + i, front[i]) {
      if i < done {
        assert Holds(m, addr + i, data[..done][i]);
      } else {
        assert Holds(m, addr + done + (i - done), data[done..done + slen][i - done]);
      }
    }
  }
}
