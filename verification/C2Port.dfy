/** The bit-banged C2 host: strobe, register primitives, polling, and flash block read. */
module C2Port {
  import opened Common
  import opened Bits
  import opened C2Frames
  import opened C2Device

  const WAIT_LIMIT := 20
  const BUSY_LIMIT := 20
  const READY_LIMIT := 10000

  class Port {
    /** Clock level, whether the host has released the data line, its output latch, and the device. */
    var ck: bool
    var released: bool
    var latch: bool
    var dev: Dev
    var trace: seq<Strobe>

    /** Between primitives: clock high, data line released. */
    ghost predicate AtRest()
      reads this
    {
      ck && released
    }

    constructor (core: Core)
      ensures AtRest() && dev == Dev(core, Ready, true) && trace == []
    {
      ck, released, latch, dev, trace := true, true, true, Dev(core, Ready, true), [];
    }

    // ----- the four line operations

    /** The device acts on the rising edge. */
    method CkSet(level: bool)
      modifies this`ck, this`dev, this`trace
      ensures ck == level
      ensures old(ck) || !level ==> dev == old(dev) && trace == old(trace)
      ensures !old(ck) && level ==> dev == Clock(old(dev), if released then None else Some(latch))
      ensures !old(ck) && level ==> trace == old(trace) + [if released then Release(dev.line) else Drive(latch)]
    {
      if !ck && level {
        dev := Clock(dev, if released then None else Some(latch));
        trace := trace + [if released then Release(dev.line) else Drive(latch)];
      }
      ck := level;
    }

    /** Sampling is allowed only while the host has released the line. */
    method DataGet() returns (bit: bool)
      requires released
      ensures bit == dev.line
    {
      bit := dev.line;
    }

    method StrobeCk()
      requires ck
      modifies this`ck, this`dev, this`trace
      ensures ck && dev == Clock(old(dev), if released then None else Some(latch))
      ensures trace == old(trace) + [if released then Release(dev.line) else Drive(latch)]
    {
      CkSet(false);
      CkSet(true);
    }

    /** Drives one bit and strobes it. */
    method Send(bit: bool)
      requires ck && !released
      modifies this`ck, this`dev, this`trace, this`latch
      ensures ck && dev == Clock(old(dev), Some(bit)) && trace == old(trace) + [Drive(bit)]
    {
      latch := bit;
      StrobeCk();
    }

    /** Shifts a byte out, least significant bit first. */
    method SendByte(byte: Byte)
      requires ck && !released
      modifies this`ck, this`dev, this`trace, this`latch
      ensures ck && dev == ClockBits(old(dev), BitsOf(byte, 8)) && trace == old(trace) + Driven(BitsOf(byte, 8))
    {
      var data: nat := byte;
      ghost var bits := BitsOf(byte, 8);
      for i := 0 to 8
        invariant ck && BitsOf(data, 8 - i) == bits[i..]
        invariant dev == ClockBits(old(dev), bits[..i]) && trace == old(trace) + Driven(bits[..i])
      {
        assert bits[i] == bits[i..][0] == Bit(data);
        assert bits[..i + 1] == bits[..i] + [bits[i]];
        ClockBitsAppend(old(dev), bits[..i], bits[i]);
        assert Driven(bits[..i + 1]) == Driven(bits[..i]) + [Drive(bits[i])];
        assert bits[i + 1..] == bits[i..][1..];
        Send(data % 2 == 1);
        data := data / 2;
      }
      assert bits[..8] == bits;
    }

    /** Strobes one bit in: the byte so far moves down, the bit enters at the top. */
    method Recv(byte: Byte) returns (next: Byte, ghost bit: bool)
      requires AtRest()
      modifies this`ck, this`dev, this`trace
      ensures AtRest() && dev == Clock(old(dev), None) && bit == dev.line
      ensures trace == old(trace) + [Release(bit)]
      ensures BitsOf(next, 8) == BitsOf(byte, 8)[1..] + [bit]
    {
      StrobeCk();
      var level := DataGet();
      ShiftIn(byte, level);
      next := byte / 2 + if level then 128 else 0;
      bit := level;
    }

    /** Shifts a byte in, least significant bit first. */
    method RecvByte() returns (byte: Byte)
      requires AtRest()
      modifies this`ck, this`dev, this`trace
      ensures AtRest() && trace == old(trace) + Sampled(BitsOf(byte, 8))
      ensures forall b: Byte :: old(dev.phase) == Shift(BitsOf(b, 8)) ==>
        byte == b && dev.phase == Stop && dev.core == old(dev.core)
    {
      ghost var bits: seq<bool> := [];
      ghost var rest := if dev.phase.Shift? && |dev.phase.rest| == 8 then dev.phase.rest else Zeros(8);
      byte := 0;
      NoBits(8);
      for i := 0 to 8
        invariant AtRest() && |bits| == i && trace == old(trace) + Sampled(bits)
        invariant BitsOf(byte, 8) == Zeros(8 - i) + bits
        invariant old(dev.phase) == Shift(rest) ==> bits == rest[..i] && Shifting(dev, old(dev.core), rest, i)
      {
        if old(dev.phase) == Shift(rest) {
          ShiftClock(dev, old(dev.core), rest, i);
        }
        ghost var bit;
        byte, bit := Recv(byte);
        BitsGrow(bits, bit, i);
        bits := bits + [bit];
      }
      assert rest[..8] == rest && Zeros(0) + bits == bits;
      forall b: Byte | old(dev.phase) == Shift(BitsOf(b, 8)) ensures byte == b {
        ByteBack(byte);
        ByteBack(b);
      }
    }

    // ----- fields

    /** START and INS: one strobe with the line released, then two driven bits. */
    method Begin(first: bool, second: bool) returns (ghost start: bool)
      requires AtRest()
      modifies this
      ensures ck && !released
      ensures trace == old(trace) + [Release(start), Drive(first), Drive(second)]
      ensures dev == Clock(Clock(Clock(old(dev), None), Some(first)), Some(second))
    {
      StrobeCk();
      start := dev.line;
      released := false;
      Send(first);
      Send(second);
    }

    /** LENGTH: two zero bits for one byte. */
    method Length1()
      requires ck && !released
      modifies this`ck, this`dev, this`trace, this`latch
      ensures ck && trace == old(trace) + [Drive(false), Drive(false)]
      ensures dev == Clock(Clock(old(dev), Some(false)), Some(false))
    {
      Send(false);
      Send(false);
    }

    /** STOP. */
    method End() returns (ghost stop: bool)
      requires AtRest()
      modifies this`ck, this`dev, this`trace
      ensures AtRest() && dev == Clock(old(dev), None) && trace == old(trace) + [Release(stop)]
    {
      StrobeCk();
      stop := dev.line;
    }

    /** WAIT: strobes until the device shows ready, at most WAIT_LIMIT times. */
    method AwaitReady() returns (ok: bool, ghost w: nat)
      requires AtRest()
      modifies this`ck, this`dev, this`trace
      ensures AtRest()
      ensures ok ==> w < WAIT_LIMIT && trace == old(trace) + Waits(w)
      ensures Waiting(old(dev)) ==> (ok <==> WaitLeft(old(dev)) < WAIT_LIMIT) && (ok ==> dev == Waited(old(dev)))
    {
      var timeout := WAIT_LIMIT;
      ok, w := false, 0;
      ghost var pre := trace;
      while timeout > 0 && !ok
        invariant AtRest() && 0 <= timeout <= WAIT_LIMIT
        invariant !ok ==> w == WAIT_LIMIT - timeout && trace + Waits(0) == pre + Waits(w)
        invariant ok ==> w < WAIT_LIMIT && trace == pre + Waits(w)
        invariant Waiting(old(dev)) && !ok ==> Waiting(dev) && WaitLeft(dev) + w == WaitLeft(old(dev)) && Waited(dev) == Waited(old(dev))
        invariant Waiting(old(dev)) && ok ==> WaitLeft(old(dev)) == w && dev == Waited(old(dev))
        decreases timeout, !ok
      {
        WaitClock(dev);
        WaitsMore(pre, trace, w);
        StrobeCk();
        ok := DataGet();
        if !ok {
          timeout := timeout - 1;
          w := w + 1;
        }
      }
    }

    // ----- the four register primitives

    method WriteAr(addr: Byte) returns (ghost sent: Sent)
      requires AtRest()
      modifies this
      ensures AtRest() && sent.frame == WriteAddr(addr) && trace == old(trace) + Strobes(sent)
      ensures old(dev.phase) == Ready ==> dev.phase == Ready && dev.core == OnWriteAddr(old(dev.core), addr)
    {
      ghost var start := Begin(true, true);
      ghost var d := dev;
      SendByte(addr);
      if old(dev.phase) == Ready {
        FieldReceived(d, [], BitsOf(addr, 8));
        FieldByte(addr);
      }
      released := true;
      ghost var stop := End();
      sent := Sent(WriteAddr(addr), 0, start, stop);
      AddrStrobes(old(trace), sent);
    }

    method ReadAr() returns (addr: Byte, ghost sent: Sent)
      requires AtRest()
      modifies this
      ensures AtRest() && sent.frame == ReadAddr(addr) && trace == old(trace) + Strobes(sent)
      ensures old(dev.phase) == Ready ==>
        addr == AddrByte(old(dev.core)) && dev.phase == Ready && dev.core == OnReadAddr(old(dev.core))
    {
      ghost var start := Begin(false, true);
      released := true;
      addr := RecvByte();
      ghost var stop := End();
      sent := Sent(ReadAddr(addr), 0, start, stop);
      AddrStrobes(old(trace), sent);
    }

    /** START, INS, LENGTH and DATA of a data write. */
    method PutData(data: Byte) returns (ghost start: bool)
      requires AtRest()
      modifies this
      ensures AtRest()
      ensures trace == old(trace) + [Release(start), Drive(true), Drive(false)] + [Drive(false), Drive(false)] + Driven(BitsOf(data, 8))
      ensures old(dev.phase) == Ready ==>
        dev.core == old(dev.core) && dev.phase == Accept(old(dev.core.env.waitWrite(dev.core.clock)), data)
    {
      start := Begin(true, false);
      Length1();
      ghost var d := dev;
      SendByte(data);
      if old(dev.phase) == Ready {
        FieldReceived(d, [], BitsOf(data, 8));
        FieldByte(data);
      }
      released := true;
    }

    method WriteDr(data: Byte) returns (ret: int, ghost sent: Sent)
      requires AtRest()
      modifies this
      ensures AtRest() && (ret == 0 || ret == -EIO)
      ensures ret == 0 ==> sent.frame == WriteData(data) && trace == old(trace) + Strobes(sent)
      ensures old(dev.phase) == Ready ==>
        (ret == 0 <==> old(dev.core.env.waitWrite(dev.core.clock)) < WAIT_LIMIT) &&
        (ret == 0 ==> dev.phase == Ready && dev.core == OnWriteData(old(dev.core), data))
    {
      ghost var start := PutData(data);
      ghost var w;
      var ok;
      ok, w := AwaitReady();
      sent := Sent(WriteData(data), w, start, false);
      if !ok {
        return -EIO, sent;
      }
      ghost var stop := End();
      sent := Sent(WriteData(data), w, start, stop);
      DataStrobes(old(trace), sent);
      ret := 0;
    }

    /** START, INS and LENGTH of a data read, and the wait for the device's byte. */
    method AskData() returns (ok: bool, ghost start: bool, ghost w: nat)
      requires AtRest()
      modifies this
      ensures AtRest()
      ensures ok ==> w < WAIT_LIMIT && trace == old(trace) + [Release(start), Drive(false), Drive(false)]
                                                + [Drive(false), Drive(false)] + Waits(w)
      ensures old(dev.phase) == Ready ==>
        (ok <==> old(dev.core.env.waitRead(dev.core.clock)) < WAIT_LIMIT) &&
        (ok ==> dev == Dev(OnReadData(old(dev.core)), Shift(BitsOf(DataByte(old(dev.core)), 8)), true))
    {
      start := Begin(false, false);
      Length1();
      released := true;
      ok, w := AwaitReady();
    }

    method ReadDr() returns (ret: int, data: Byte, ghost sent: Sent)
      requires AtRest()
      modifies this
      ensures AtRest() && (ret == 0 || ret == -EIO)
      ensures ret == 0 ==> sent.frame == ReadData(data) && trace == old(trace) + Strobes(sent)
      ensures old(dev.phase) == Ready ==>
        (ret == 0 <==> old(dev.core.env.waitRead(dev.core.clock)) < WAIT_LIMIT) &&
        (ret == 0 ==> data == DataByte(old(dev.core)) && dev.phase == Ready && dev.core == OnReadData(old(dev.core)))
    {
      data := 0;
      var ok;
      ghost var start, w;
      ok, start, w := AskData();
      sent := Sent(ReadData(data), w, start, false);
      if !ok {
        return -EIO, data, sent;
      }
      data := RecvByte();
      ghost var stop := End();
      sent := Sent(ReadData(data), w, start, stop);
      DataStrobes(old(trace), sent);
      ret := 0;
    }

    // ----- polling

    /** Reads the status until the input is no longer busy, at most BUSY_LIMIT times. */
    method PollInBusy() returns (ret: int)
      requires AtRest()
      modifies this
      ensures AtRest() && (ret == 0 || ret == -EIO)
      ensures old(dev.phase) == Ready ==> dev.phase == Ready && SameJob(old(dev.core), dev.core)
      ensures old(dev.phase) == Ready ==> (ret == 0 <==> old(dev.core.busy) < BUSY_LIMIT)
    {
      var timeout := BUSY_LIMIT;
      while timeout > 0
        invariant AtRest() && 0 <= timeout <= BUSY_LIMIT
        invariant old(dev.phase) == Ready ==> dev.phase == Ready && SameJob(old(dev.core), dev.core)
        invariant old(dev.phase) == Ready ==> dev.core.busy + (BUSY_LIMIT - timeout) == old(dev.core.busy)
      {
        var addr;
        ghost var sent;
        addr, sent := ReadAr();
        if addr / 2 % 2 == 0 {
          return 0;
        }
        timeout := timeout - 1;
      }
      ret := -EIO;
    }

    /** Reads the status until an output byte is ready, at most READY_LIMIT times. */
    method PollOutReady() returns (ret: int)
      requires AtRest()
      modifies this
      ensures AtRest() && (ret == 0 || ret == -EIO)
      ensures old(dev.phase) == Ready ==> dev.phase == Ready && SameJob(old(dev.core), dev.core)
      ensures old(dev.phase) == Ready ==>
        (ret == 0 <==> old(dev.core.job.out.Some? && dev.core.notReady < READY_LIMIT))
    {
      var timeout := READY_LIMIT;
      while timeout > 0
        invariant AtRest() && 0 <= timeout <= READY_LIMIT
        invariant old(dev.phase) == Ready ==> dev.phase == Ready && SameJob(old(dev.core), dev.core)
        invariant old(dev.phase) == Ready && dev.core.job.out.Some? ==>
          dev.core.notReady + (READY_LIMIT - timeout) == old(dev.core.notReady)
      {
        var addr;
        ghost var sent;
        addr, sent := ReadAr();
        if addr % 2 == 1 {
          return 0;
        }
        timeout := timeout - 1;
      }
      ret := -EIO;
    }

    // ----- flash blocks

    /** Host and device agree on where they are, and the device takes bytes in time. */
    ghost predicate InStep()
      reads this
    {
      AtRest() && dev.phase == Ready && Prompt(dev.core.env)
    }

    /** In step with a willing device that will have its next output ready in time. */
    ghost predicate OnTime()
      reads this
    {
      InStep() && Willing(dev.core.env) && dev.core.notReady < READY_LIMIT
    }

    /** Sends one byte of a command and waits until the device took it. */
    method Feed(b: Byte) returns (ret: int, ghost status: Byte)
      requires InStep() && dev.core.job.ar == FPDAT
      modifies this
      ensures InStep() && dev.core.env == old(dev.core.env) && (ret == 0 || ret == -EIO)
      ensures dev.core.job == Written(old(dev.core.job), b, status)
      ensures Willing(dev.core.env) ==> ret == 0 && OnTime() && status == COMMAND_OK
      ensures ret == 0 <==> old(dev.core.env.delay(dev.core.clock)) < BUSY_LIMIT
      ensures status == old(dev.core.env.status(dev.core.clock))
    {
      status := dev.core.env.status(dev.core.clock);
      var r;
      ghost var sent;
      r, sent := WriteDr(b);
      ret := PollInBusy();
    }

    /** Waits for an output byte and reads it. */
    method FetchByte() returns (ret: int, data: Byte)
      requires InStep() && dev.core.job.ar == FPDAT
      modifies this
      ensures AtRest() && (ret == 0 || ret == -EIO)
      ensures ret == 0 ==> InStep() && old(dev.core.job.out) == Some(data)
      ensures ret == 0 ==> dev.core.job == WasRead(old(dev.core.job))
      ensures old(OnTime() && dev.core.job.out.Some?) ==> ret == 0 && OnTime()
      ensures old(dev.core.job.out.None? || dev.core.notReady >= READY_LIMIT) || Deaf(old(dev.core.env)) ==> ret == -EIO
    {
      data := 0;
      ret := PollOutReady();
      if ret < 0 {
        return;
      }
      ghost var sent;
      ret, data, sent := ReadDr();
    }

    /** Opens a block command; on success the device waits for the address. */
    method OpenBlock(stores: bool) returns (ret: int)
      requires InStep() && dev.core.job.fp == Await
      modifies this
      ensures AtRest() && ret <= 0
      ensures ret == 0 ==> InStep() && dev.core.job == Job(old(dev.core.job.flash), FPDAT, AddrHi(stores), None)
      ensures Stuck(old(dev.core.env)) || Deaf(old(dev.core.env)) ==> ret == -EIO
      ensures Refusing(old(dev.core.env)) ==> ret < 0
      ensures Willing(old(dev.core.env)) ==> ret == 0 && OnTime()
    {
      ghost var sent := WriteAr(FPDAT);
      ghost var s;
      ret, s := Feed(if stores then BLOCK_WRITE else BLOCK_READ);
      if ret < 0 {
        return;
      }
      var status;
      ret, status := FetchByte();
      if ret == 0 && status != COMMAND_OK {
        ret := -EBUSY;
      }
    }

    /** Sends the address and the size; on success the transfer can start. */
    method AimBlock(stores: bool, offset: nat, n: Byte) returns (ret: int)
      requires InStep() && n > 0
      requires dev.core.job == Job(dev.core.job.flash, FPDAT, AddrHi(stores), None)
      modifies this
      ensures AtRest() && ret <= 0
      ensures ret == 0 ==> InStep() && dev.core.job == Aimed(old(dev.core.job.flash), stores, offset, n)
      ensures Willing(old(dev.core.env)) ==> ret == 0 && OnTime()
    {
      ret := FeedAddress(stores, offset);
      if ret < 0 {
        return;
      }
      ghost var s;
      ret, s := Feed(n);
      if ret < 0 {
        return;
      }
      var status;
      ret, status := FetchByte();
      if ret == 0 && status != COMMAND_OK {
        ret := -EBUSY;
      }
    }

    /** Sends the two address bytes, the high one first. */
    method FeedAddress(stores: bool, offset: nat) returns (ret: int)
      requires InStep() && dev.core.job == Job(dev.core.job.flash, FPDAT, AddrHi(stores), None)
      modifies this
      ensures AtRest() && ret <= 0
      ensures ret == 0 ==> InStep() && dev.core.job == Job(old(dev.core.job.flash), FPDAT, Size(stores, offset % 0x1_0000), None)
      ensures ret == 0 ==> dev.core.env == old(dev.core.env)
      ensures Willing(old(dev.core.env)) ==> ret == 0
    {
      ghost var s;
      ret, s := Feed(offset / 256 % 256);
      if ret < 0 {
        return;
      }
      ret, s := Feed(offset % 256);
      AddressSplits(offset);
    }

    /** Reads the n bytes the device was asked for. */
    method ReadBlock(buffer: array<Byte>, offset: nat, n: nat) returns (ret: int)
      requires InStep() && n <= buffer.Length && Reading(dev.core.job.flash, dev.core.job, offset, 0, n)
      modifies this, buffer
      ensures AtRest() && (ret < 0 || ret == n) && (old(OnTime()) ==> ret >= 0)
      ensures ret >= 0 ==> buffer[..n] == Block(old(dev.core.job.flash), offset, n)
      ensures ret >= 0 ==> InStep() && Reading(old(dev.core.job.flash), dev.core.job, offset, n, n)
    {
      ghost var flash := dev.core.job.flash;
      for i := 0 to n
        invariant InStep() && Reading(flash, dev.core.job, offset, i, n) && (old(OnTime()) ==> OnTime())
        invariant buffer[..i] == Block(flash, offset, i)
      {
        NextByte(flash, dev.core.job, offset, i, n);
        var data;
        ret, data := FetchByte();
        if ret < 0 {
          return;
        }
        BlockMore(flash, offset, i);
        buffer[i] := data;
        assert buffer[..i + 1] == buffer[..i] + [data];
      }
      ret := n;
    }

    /** Commands and reads one block of n bytes. */
    method FetchBlock(buffer: array<Byte>, offset: nat, n: Byte) returns (ret: int)
      requires InStep() && dev.core.job.fp == Await && 0 < n <= buffer.Length
      modifies this, buffer
      ensures AtRest() && (ret < 0 || ret == n) && (Willing(old(dev.core.env)) ==> ret >= 0)
      ensures Fails(old(dev.core.env), ret)
      ensures ret >= 0 ==> buffer[..n] == Block(old(dev.core.job.flash), offset, n)
      ensures ret >= 0 ==> InStep() && dev.core.job.fp == Await && dev.core.job.flash == old(dev.core.job.flash)
    {
      ret := OpenBlock(false);
      if ret < 0 {
        return;
      }
      ret := AimBlock(false, offset, n);
      if ret < 0 {
        return;
      }
      FlashWraps(dev.core.job.flash, offset, 0, 0);
      ret := ReadBlock(buffer, offset, n);
    }

    /** Reads up to count bytes of flash from offset on, at most 128 and not past the end. */
    method ReadFlash(buffer: array<Byte>, offset: nat, count: nat) returns (ret: int)
      requires InStep() && dev.core.job.fp == Await && buffer.Length >= count
      modifies this, buffer
      ensures AtRest()
      ensures Willing(old(dev.core.env)) ==> ret >= 0
      ensures count > 0 && offset < |old(dev.core.job.flash)| ==> Fails(old(dev.core.env), ret)
      ensures ret >= 0 ==> ret == Want(|old(dev.core.job.flash)|, offset, count) <= count
      ensures ret >= 0 ==> AsManyAsCan(ret, |old(dev.core.job.flash)|, offset, count)
      ensures ret >= 0 ==> buffer[..ret] == Block(old(dev.core.job.flash), offset, ret)
      ensures ret > 0 && offset + ret <= 0x1_0000 ==>
        buffer[..ret] == old(dev.core.job.flash)[offset..offset + ret]
      ensures ret >= 0 ==> InStep() && dev.core.job.fp == Await && dev.core.job.flash == old(dev.core.job.flash)
    {
      var size := |dev.core.job.flash|;
      if offset >= size {
        return 0;
      }
      var n := 128;
      if size - offset < n {
        n := size - offset;
      }
      if count < n {
        n := count;
      }
      if n == 0 {
        return 0;
      }
      InReach(dev.core.job.flash, offset, n);
      ret := FetchBlock(buffer, offset, n);
    }

    /** Sends the n bytes of a block write. */
    method WriteBlock(buffer: seq<Byte>, offset: nat, n: nat) returns (ret: int)
      requires InStep() && 0 < n <= |buffer| && Storing(dev.core.job.flash, dev.core.job, buffer, offset, 0, n)
      modifies this
      ensures AtRest() && ret <= 0
      ensures ret == 0 ==> InStep() && Storing(old(dev.core.job.flash), dev.core.job, buffer, offset, n, n)
      ensures old(OnTime()) ==> ret == 0 && OnTime()
      ensures Stuck(old(dev.core.env)) ==> ret == -EIO
    {
      ghost var flash := dev.core.job.flash;
      ret := 0;
      for i := 0 to n
        invariant InStep() && Storing(flash, dev.core.job, buffer, offset, i, n) && ret == 0
        invariant old(OnTime()) ==> OnTime()
        invariant dev.core.env == old(dev.core.env) && (Stuck(dev.core.env) ==> i == 0)
      {
        ghost var j, s := dev.core.job, dev.core.env.status(dev.core.clock);
        ghost var sent;
        ret, sent := WriteDr(buffer[i]);
        if ret < 0 {
          return;
        }
        NextStored(flash, j, buffer, offset, i, n, s);
        ret := PollInBusy();
        if ret < 0 {
          return;
        }
      }
    }

    /** Writes up to count bytes, more than none, from offset on, at most 128 and not past the end. */
    method WriteFlash(buffer: seq<Byte>, offset: nat, count: nat) returns (ret: int)
      requires InStep() && dev.core.job.fp == Await && 0 < count <= |buffer|
      modifies this
      ensures AtRest()
      ensures offset >= |old(dev.core.job.flash)| ==> ret == -EINVAL && dev == old(dev)
      ensures Willing(old(dev.core.env)) && offset < |old(dev.core.job.flash)| ==> ret >= 0
      ensures offset < |old(dev.core.job.flash)| ==> Fails(old(dev.core.env), ret)
      ensures ret >= 0 ==> AsManyAsCan(ret, |old(dev.core.job.flash)|, offset, count)
      ensures ret >= 0 ==> ret == Want(|old(dev.core.job.flash)|, offset, count) <= count
      ensures ret >= 0 ==> dev.core.job.flash == Stored(old(dev.core.job.flash), buffer, offset, ret)
      ensures ret >= 0 && offset + ret <= 0x1_0000 ==>
        dev.core.job.flash == InPlace(old(dev.core.job.flash), buffer, offset, ret)
      ensures ret >= 0 ==> InStep() && dev.core.job.fp == Await
    {
      var size := |dev.core.job.flash|;
      if offset >= size {
        return -EINVAL;
      }
      var n := 128;
      if n > count {
        n := count;
      }
      if size - offset < n {
        n := size - offset;
      }
      ret := OpenBlock(true);
      if ret < 0 {
        return;
      }
      ret := AimBlock(true, offset, n);
      if ret < 0 {
        return;
      }
      ret := WriteBlock(buffer, offset, n);
      if ret < 0 {
        return;
      }
      ret := PollOutReady();
      if ret < 0 {
        return;
      }
      ret := n;
      if offset + n <= 0x1_0000 {
        StoredExact(old(dev.core.job.flash), buffer, offset, n);
      }
    }
  }

  /** Polls change only the device's timers. */
  ghost predicate SameJob(c: Core, d: Core) {
    d.env == c.env && d.job == c.job && d.notReady <= c.notReady
  }

  /** The device accepts every written byte within the wait limit. */
  ghost predicate Prompt(env: Env) {
    forall k: nat :: env.waitWrite(k) < WAIT_LIMIT
  }

  /** The device is never busy too long, has its output ready in time, and accepts every command. */
  ghost predicate Willing(env: Env) {
    forall k: nat :: env.delay(k) < BUSY_LIMIT && env.waitRead(k) < WAIT_LIMIT && env.status(k) == COMMAND_OK
  }

  /** The device stays busy too long after every byte. */
  ghost predicate Stuck(env: Env) {
    forall k: nat :: env.delay(k) >= BUSY_LIMIT
  }

  /** The device never has its byte ready in time. */
  ghost predicate Deaf(env: Env) {
    forall k: nat :: env.waitRead(k) >= WAIT_LIMIT
  }

  /** The device accepts no command. */
  ghost predicate Refusing(env: Env) {
    forall k: nat :: env.status(k) != COMMAND_OK
  }

  /** A transfer fails with such a device, with -EIO if it keeps the host waiting. */
  ghost predicate Fails(env: Env, ret: int) {
    (Stuck(env) || Deaf(env) ==> ret == -EIO) && (Refusing(env) ==> ret < 0)
  }

  /** At most 128 bytes, at most what was asked for, not past the end, and no fewer than that. */
  ghost predicate AsManyAsCan(n: int, size: nat, offset: nat, count: nat) {
    && 0 <= n <= 128 && n <= count && (n > 0 ==> offset + n <= size)
    && (n == 128 || n == count || offset + n == size || (n == 0 && offset >= size))
  }

  /** The job once a block of n bytes at offset was accepted. */
  ghost function Aimed(flash: seq<Byte>, stores: bool, offset: nat, n: nat): Job {
    var a := offset % 0x1_0000;
    if stores then Job(flash, FPDAT, Receiving(a, n), None)
    else Job(flash, FPDAT, Sending(a + 1, if n > 0 then n - 1 else 0), Some(FlashAt(flash, a)))
  }

  /** The device is about to give byte i of a block of n from offset. */
  ghost predicate Reading(flash: seq<Byte>, j: Job, offset: nat, i: nat, n: nat) {
    && i <= n && j.flash == flash && j.ar == FPDAT
    && (i < n ==> j.out == Some(FlashAt(flash, offset + i)) && j.fp == Sending(offset % 0x1_0000 + i + 1, n - i - 1))
    && (i == n ==> j.fp == Await)
  }

  /** Flash with the first n bytes of the buffer stored from offset on. */
  function Stored(flash: seq<Byte>, buffer: seq<Byte>, offset: nat, n: nat): (f: seq<Byte>)
    requires n <= |buffer|
    ensures |f| == |flash|
  {
    if n == 0 then flash else Store(Stored(flash, buffer, offset, n - 1), offset + n - 1, buffer[n - 1])
  }

  /** The device has stored i bytes of a block of n. */
  ghost predicate Storing(flash: seq<Byte>, j: Job, buffer: seq<Byte>, offset: nat, i: nat, n: nat) {
    && i <= n <= |buffer| && j.ar == FPDAT && j.flash == Stored(flash, buffer, offset, i)
    && (if i < n then j.fp == Receiving(offset % 0x1_0000 + i, n - i) else j.fp == Await && (n > 0 ==> j.out.Some?))
  }

  function Want(size: nat, offset: nat, count: nat): nat {
    if offset >= size then 0
    else
      var n := if size - offset < 128 then size - offset else 128;
      if count < n then count else n
  }

  lemma AddressSplits(offset: nat)
    ensures offset / 256 % 256 * 256 + offset % 256 == offset % 0x1_0000
  {
  }

  /** Flash addresses count modulo 64K. */
  lemma FlashWraps(flash: seq<Byte>, offset: nat, i: nat, b: Byte)
    ensures FlashAt(flash, offset % 0x1_0000 + i) == FlashAt(flash, offset + i)
    ensures Store(flash, offset % 0x1_0000 + i, b) == Store(flash, offset + i, b)
  {
    assert (offset % 0x1_0000 + i) % 0x1_0000 == (offset + i) % 0x1_0000;
  }

  lemma NextByte(flash: seq<Byte>, j: Job, offset: nat, i: nat, n: nat)
    requires Reading(flash, j, offset, i, n) && i < n
    ensures Reading(flash, WasRead(j), offset, i + 1, n)
  {
    FlashWraps(flash, offset, i + 1, 0);
  }

  lemma NextStored(flash: seq<Byte>, j: Job, buffer: seq<Byte>, offset: nat, i: nat, n: nat, s: Byte)
    requires Storing(flash, j, buffer, offset, i, n) && i < n
    ensures Storing(flash, Written(j, buffer[i], s), buffer, offset, i + 1, n)
  {
    FlashWraps(j.flash, offset, i, buffer[i]);
  }

  /** What the device gives for a block of n bytes from offset: sixteen address bits wrap. */
  function Block(flash: seq<Byte>, offset: nat, n: nat): (bytes: seq<Byte>)
    ensures |bytes| == n && forall i :: 0 <= i < n ==> bytes[i] == FlashAt(flash, offset + i)
  {
    seq<Byte>(n, i requires 0 <= i => FlashAt(flash, offset + i))
  }

  /** The flash with the first n bytes of the buffer at their place from offset on, and nothing else changed. */
  function InPlace(flash: seq<Byte>, buffer: seq<Byte>, offset: nat, n: nat): seq<Byte>
    requires n <= |buffer| && offset + n <= |flash|
  {
    flash[..offset] + buffer[..n] + flash[offset + n..]
  }

  lemma BlockMore(flash: seq<Byte>, offset: nat, n: nat)
    ensures Block(flash, offset, n + 1) == Block(flash, offset, n) + [FlashAt(flash, offset + n)]
  {
  }

  lemma InReach(flash: seq<Byte>, offset: nat, n: nat)
    requires offset + n <= |flash|
    ensures offset + n <= 0x1_0000 ==> Block(flash, offset, n) == flash[offset..offset + n]
  {
    if offset + n <= 0x1_0000 {
      forall i | 0 <= i < n ensures Block(flash, offset, n)[i] == flash[offset + i] {
        assert (offset + i) % 0x1_0000 == offset + i;
      }
    }
  }

  /** A block read gives the bytes at its offset, whatever the flash holds, exactly if the block ends within 64K. */
  lemma ReadReach(size: nat, offset: nat, n: nat)
    requires 0 < n && offset + n <= size
    ensures (forall flash: seq<Byte> :: |flash| == size ==> Block(flash, offset, n) == flash[offset..offset + n])
       <==> offset + n <= 0x1_0000
  {
    if offset + n <= 0x1_0000 {
      forall flash: seq<Byte> | |flash| == size ensures Block(flash, offset, n) == flash[offset..offset + n] {
        InReach(flash, offset, n);
      }
    } else {
      var last := offset + n - 1;
      var flash := seq<Byte>(size, i => if i < 0x1_0000 then 1 else 0);
      assert Block(flash, offset, n)[n - 1] == FlashAt(flash, last) == 1;
      assert flash[offset..offset + n][n - 1] == flash[last] == 0;
    }
  }

  /** At offset 64K a read gives the byte at address 0 instead. */
  lemma ReadWraps(flash: seq<Byte>)
    requires |flash| > 0x1_0000
    ensures Block(flash, 0x1_0000, 1) == [flash[0]]
  {
    assert Block(flash, 0x1_0000, 1)[0] == FlashAt(flash, 0x1_0000);
  }

  /** Addresses from 64K on are never stored to. */
  lemma {:induction false} BeyondReach(flash: seq<Byte>, buffer: seq<Byte>, offset: nat, n: nat, a: nat)
    requires n <= |buffer| && 0x1_0000 <= a < |flash|
    ensures Stored(flash, buffer, offset, n)[a] == flash[a]
  {
    if n > 0 {
      BeyondReach(flash, buffer, offset, n - 1, a);
    }
  }

  lemma {:induction false} StoredExact(flash: seq<Byte>, buffer: seq<Byte>, offset: nat, n: nat)
    requires n <= |buffer| && offset + n <= |flash| && offset + n <= 0x1_0000
    ensures Stored(flash, buffer, offset, n) == InPlace(flash, buffer, offset, n)
  {
    if n > 0 {
      StoredExact(flash, buffer, offset, n - 1);
      assert buffer[..n] == buffer[..n - 1] + [buffer[n - 1]];
    }
  }

  /** A block write lands in place, whatever is stored where, exactly if the block ends within 64K. */
  lemma WriteReach(size: nat, offset: nat, n: nat)
    requires 0 < n && offset + n <= size
    ensures (forall flash: seq<Byte>, buffer: seq<Byte> :: |flash| == size && |buffer| == n ==>
               Stored(flash, buffer, offset, n) == InPlace(flash, buffer, offset, n))
       <==> offset + n <= 0x1_0000
  {
    if offset + n <= 0x1_0000 {
      forall flash: seq<Byte>, buffer: seq<Byte> | |flash| == size && |buffer| == n
        ensures Stored(flash, buffer, offset, n) == InPlace(flash, buffer, offset, n)
      {
        StoredExact(flash, buffer, offset, n);
      }
    } else {
      var flash, buffer := seq<Byte>(size, i => 0), seq<Byte>(n, i => 1);
      BeyondReach(flash, buffer, offset, n, offset + n - 1);
      assert InPlace(flash, buffer, offset, n)[offset + n - 1] == 1;
    }
  }

  /** Wrapped or not, a block of at most 64K is read back from where it was stored. */
  lemma {:induction false} StoredReads(flash: seq<Byte>, buffer: seq<Byte>, offset: nat, n: nat, i: nat)
    requires i < n <= |buffer| && n <= 0x1_0000 && offset + n <= |flash|
    ensures FlashAt(Stored(flash, buffer, offset, n), offset + i) == buffer[i]
  {
    if i < n - 1 {
      StoredReads(flash, buffer, offset, n - 1, i);
      assert (offset + i) % 0x1_0000 != (offset + n - 1) % 0x1_0000;
    }
  }

  function Strobes(s: Sent): seq<Strobe> {
    FrameStrobes(s.frame, s.waits, s.start, s.stop)
  }

  lemma FieldByte(b: Byte)
    ensures ToByte([] + BitsOf(b, 8)) == b
  {
    assert [] + BitsOf(b, 8) == BitsOf(b, 8);
    ByteBack(b);
  }

  lemma AddrStrobes(t: seq<Strobe>, s: Sent)
    requires s.frame.WriteAddr? || s.frame.ReadAddr?
    ensures var bits := BitsOf(s.frame.byte, 8);
            t + [Release(s.start), Drive(s.frame.WriteAddr?), Drive(true)] +
              (if s.frame.WriteAddr? then Driven(bits) else Sampled(bits)) + [Release(s.stop)] == t + Strobes(s)
  {
  }

  lemma DataStrobes(t: seq<Strobe>, s: Sent)
    requires s.frame.WriteData? || s.frame.ReadData?
    ensures var bits := BitsOf(s.frame.byte, 8);
            var head := t + [Release(s.start), Drive(s.frame.WriteData?), Drive(false)] + [Drive(false), Drive(false)];
            (if s.frame.WriteData? then head + Driven(bits) + Waits(s.waits) else head + Waits(s.waits) + Sampled(bits)) +
              [Release(s.stop)] == t + Strobes(s)
  {
  }

  /** The device is in a WAIT field. */
  predicate Waiting(d: Dev) {
    d.phase.Accept? || d.phase.Fetch?
  }

  /** How often it will still show "not yet". */
  function WaitLeft(d: Dev): nat {
    match d.phase
    case Accept(n, _) => n
    case Fetch(n) => n
    case _ => 0
  }

  /** The device once it has shown ready. */
  function Waited(d: Dev): Dev {
    match d.phase
    case Accept(n, byte) => Dev(OnWriteData(d.core, byte), Stop, true)
    case Fetch(n) => Dev(OnReadData(d.core), Shift(BitsOf(DataByte(d.core), 8)), true)
    case _ => d
  }

  lemma WaitClock(d: Dev)
    ensures var e := Clock(d, None);
            Waiting(d) ==> if WaitLeft(d) == 0 then e.line && e == Waited(d)
                           else !e.line && Waiting(e) && WaitLeft(e) == WaitLeft(d) - 1 && Waited(e) == Waited(d)
  {
  }

  lemma {:induction false} WaitsMore(pre: seq<Strobe>, t: seq<Strobe>, w: nat)
    requires t + Waits(0) == pre + Waits(w)
    ensures t + [Release(false)] + Waits(0) == pre + Waits(w + 1)
    ensures t + [Release(true)] == pre + Waits(w)
  {
    WaitsShape(w);
    WaitsShape(w + 1);
    assert t == pre + Zeroes(w) by {
      assert (t + Waits(0))[..|t|] == t;
      assert (pre + Waits(w))[..|pre| + w] == pre + Zeroes(w);
    }
  }

  function Zeroes(w: nat): (z: seq<Strobe>)
    ensures |z| == w
  {
    seq(w, i => Release(false))
  }

  lemma {:induction false} WaitsShape(w: nat)
    ensures Waits(w) == Zeroes(w) + [Release(true)]
  {
    if w > 0 {
      WaitsShape(w - 1);
    }
  }

  /** i bits of `rest` have been shifted out. */
  ghost predicate Shifting(d: Dev, core: Core, rest: seq<bool>, i: nat) {
    |rest| == 8 && i <= 8 && d.core == core && d.phase == if i == 8 then Stop else Shift(rest[i..])
  }

  lemma ShiftClock(d: Dev, core: Core, rest: seq<bool>, i: nat)
    requires i < 8 && Shifting(d, core, rest, i)
    ensures Shifting(Clock(d, None), core, rest, i + 1) && Clock(d, None).line == rest[i]
    ensures rest[..i + 1] == rest[..i] + [rest[i]]
  {
    assert rest[i..][0] == rest[i] && rest[i..][1..] == rest[i + 1..];
  }

  lemma BitsGrow(bits: seq<bool>, bit: bool, i: nat)
    requires |bits| == i < 8
    ensures (Zeros(8 - i) + bits)[1..] + [bit] == Zeros(8 - (i + 1)) + (bits + [bit])
    ensures Sampled(bits + [bit]) == Sampled(bits) + [Release(bit)]
  {
  }

  function Zeros(n: nat): (z: seq<bool>)
    ensures |z| == n
  {
    seq(n, i => false)
  }

  lemma {:induction false} NoBits(n: nat)
    ensures BitsOf(0, n) == Zeros(n) + []
  {
    if n > 0 {
      NoBits(n - 1);
    }
  }

  /** Shifting right and setting the top bit drops the lowest bit and appends the new one. */
  lemma {:induction false} ShiftBits(b: nat, n: nat, bit: bool)
    requires n > 0 && b < Pow2(n)
    ensures BitsOf(b / 2 + Pow2(n - 1) * Val(bit), n) == BitsOf(b, n)[1..] + [bit]
  {
    if n > 1 {
      var h := Pow2(n - 2) * Val(bit);
      assert Pow2(n - 1) * Val(bit) == 2 * h;
      var x := b / 2 + 2 * h;
      assert x / 2 == b / 2 / 2 + h && x % 2 == b / 2 % 2;
      ShiftBits(b / 2, n - 1, bit);
    }
  }

  lemma ShiftIn(byte: Byte, bit: bool)
    ensures BitsOf(byte / 2 + (if bit then 128 else 0), 8) == BitsOf(byte, 8)[1..] + [bit]
  {
    Byte8();
    assert Pow2(7) == 128;
    ShiftBits(byte, 8, bit);
  }

  /** What was written is what a later read returns, also where addresses wrap. */
  method WriteThenRead(port: Port, data: seq<Byte>, offset: nat, buffer: array<Byte>) returns (w: int, r: int)
    requires port.InStep() && port.dev.core.job.fp == Await
    requires data != [] && buffer.Length >= |data|
    modifies port, buffer
    ensures w >= 0 && r >= 0 ==> r == w == Want(|old(port.dev.core.job.flash)|, offset, |data|) && buffer[..w] == data[..w]
    ensures Willing(old(port.dev.core.env)) && offset < |old(port.dev.core.job.flash)| ==> w > 0
  {
    r := -EIO;
    ghost var flash := port.dev.core.job.flash;
    w := port.WriteFlash(data, offset, |data|);
    if w < 0 {
      return;
    }
    r := port.ReadFlash(buffer, offset, w);
    forall i | 0 <= i < w && r >= 0 ensures buffer[i] == data[i] {
      StoredReads(flash, data, offset, w, i);
      assert buffer[..r][i] == buffer[i];
    }
  }

  /** A register access the host can make. */
  datatype Access = PutAddr(byte: Byte) | GetAddr | PutData(byte: Byte) | GetData

  /** The frame is what the access asked for; the byte of a read is the device's. */
  predicate Matches(a: Access, f: Frame) {
    match a
    case PutAddr(b) => f == WriteAddr(b)
    case GetAddr => f.ReadAddr?
    case PutData(b) => f == WriteData(b)
    case GetData => f.ReadData?
  }

  /**
    Any sequence of primitives against any device: if all succeed, reading the wire recovers exactly the
    accesses and bytes the host sees; and in any case the bus is at rest at the end.
   */
  method Perform(port: Port, accesses: seq<Access>) returns (frames: seq<Frame>, ok: bool)
    requires port.AtRest() && port.trace == []
    modifies port
    ensures port.AtRest()
    ensures ok ==> |frames| == |accesses| && forall i :: 0 <= i < |accesses| ==> Matches(accesses[i], frames[i])
    ensures ok ==> DecodeTrace(port.trace) == Some(frames)
  {
    frames, ok := [], true;
    ghost var log: seq<Sent> := [];
    for i := 0 to |accesses|
      invariant port.AtRest() && |frames| == i
      invariant forall j :: 0 <= j < i ==> Matches(accesses[j], frames[j])
      invariant port.trace == Trace(log) && Frames(log) == frames
    {
      ghost var sent;
      var ret, byte := 0, 0;
      match accesses[i] {
        case PutAddr(b) =>
          sent := port.WriteAr(b);
          frames := frames + [WriteAddr(b)];
        case GetAddr =>
          byte, sent := port.ReadAr();
          frames := frames + [ReadAddr(byte)];
        case PutData(b) =>
          ret, sent := port.WriteDr(b);
          frames := frames + [WriteData(b)];
        case GetData =>
          ret, byte, sent := port.ReadDr();
          frames := frames + [ReadData(byte)];
      }
      if ret < 0 {
        ok := false;
        return;
      }
      TraceAppend(log, sent);
      log := log + [sent];
    }
    DecodeBack(log);
  }
}
