/**
  A C2 device: the flash programming interface behind the data register, and the bit-serial front end that
  turns strobes into register accesses.  How long it waits, stays busy or takes to answer, and the status it
  reports, are arbitrary.
 */
module C2Device {
  import opened Common
  import opened Bits
  import opened C2Frames

  const FPDAT := 0xB4
  const BLOCK_READ := 0x06
  const BLOCK_WRITE := 0x07
  const COMMAND_OK := 0x0d
  const IN_BUSY := 2
  const OUT_READY := 1

  /** The device's choices, indexed by its count of register accesses. */
  datatype Env = Env(delay: nat -> nat, waitWrite: nat -> nat, waitRead: nat -> nat, status: nat -> Byte)

  /** Where the flash programming interface is in a command; `stores` tells a block write from a block read. */
  datatype Fp =
    | Await
    | AddrHi(stores: bool)
    | AddrLo(stores: bool, hi: Byte)
    | Size(stores: bool, addr: nat)
    | Sending(addr: nat, left: nat)
    | Receiving(addr: nat, left: nat)

  /** What the device is doing, apart from its timers; `out` is the byte to be read next. */
  datatype Job = Job(flash: seq<Byte>, ar: Byte, fp: Fp, out: Option<Byte>)

  /** `busy` polls see the input busy, `notReady` polls pass before `out` can be read. */
  datatype Core = Core(job: Job, env: Env, busy: nat, notReady: nat, clock: nat)

  /** Flash is addressed by 16 bits. */
  function FlashAt(flash: seq<Byte>, addr: nat): Byte {
    if addr % 0x1_0000 < |flash| then flash[addr % 0x1_0000] else 0xFF
  }

  function Store(flash: seq<Byte>, addr: nat, b: Byte): (f: seq<Byte>)
    ensures |f| == |flash|
  {
    if addr % 0x1_0000 < |flash| then flash[addr % 0x1_0000 := b] else flash
  }

  /** The job after a write to FPDAT, if the device reports status s. */
  function Written(j: Job, b: Byte, s: Byte): Job {
    match j.fp
    case Await =>
      if b == BLOCK_READ || b == BLOCK_WRITE
      then j.(out := Some(s), fp := if s == COMMAND_OK then AddrHi(b == BLOCK_WRITE) else Await)
      else j.(out := None)
    case AddrHi(w) => j.(fp := AddrLo(w, b))
    case AddrLo(w, hi) => j.(fp := Size(w, hi * 256 + b))
    case Size(w, addr) =>
      if s != COMMAND_OK then j.(out := Some(s), fp := Await)
      else if w then j.(out := Some(s), fp := Receiving(addr, b))
      else j.(out := Some(s), fp := Sending(addr, b))
    case Sending(_, _) => j
    case Receiving(addr, left) =>
      var k := j.(flash := Store(j.flash, addr, b));
      if left <= 1 then k.(fp := Await, out := Some(s)) else k.(fp := Receiving(addr + 1, left - 1))
  }

  /** The job after the waiting byte was read from FPDAT: the next one of a block is fetched. */
  function WasRead(j: Job): Job {
    match j.fp
    case Sending(addr, left) =>
      if left == 0 then j.(out := None, fp := Await)
      else j.(out := Some(FlashAt(j.flash, addr)), fp := Sending(addr + 1, left - 1))
    case _ => j.(out := None)
  }

  function OnWriteAddr(c: Core, b: Byte): Core {
    c.(job := c.job.(ar := b), clock := c.clock + 1)
  }

  /** The status bits an address-register read shows. */
  function AddrByte(c: Core): Byte {
    (if c.busy > 0 then IN_BUSY else 0) + (if c.job.out.Some? && c.notReady == 0 then OUT_READY else 0)
  }

  function Less(n: nat): nat {
    if n == 0 then 0 else n - 1
  }

  function OnReadAddr(c: Core): Core {
    c.(busy := Less(c.busy), notReady := Less(c.notReady), clock := c.clock + 1)
  }

  function OnWriteData(c: Core, b: Byte): Core {
    if c.job.ar != FPDAT then c.(clock := c.clock + 1)
    else Core(Written(c.job, b, c.env.status(c.clock)), c.env, c.env.delay(c.clock), c.env.delay(c.clock + 1), c.clock + 1)
  }

  function DataByte(c: Core): Byte {
    if c.job.ar == FPDAT && c.job.out.Some? then c.job.out.value else 0
  }

  function OnReadData(c: Core): Core {
    if c.job.ar != FPDAT || c.job.out.None? then c.(clock := c.clock + 1)
    else Core(WasRead(c.job), c.env, c.busy, c.env.delay(c.clock), c.clock + 1)
  }

  // ----- the serial front end

  datatype Phase =
    | Ready
    | Ins1
    | Ins2(first: bool)
    | AddrBits(got: seq<bool>)
    | Len1(fetch: bool)
    | Len2(fetch: bool)
    | DataBits(got: seq<bool>)
    | Accept(wait: nat, byte: Byte)
    | Fetch(wait: nat)
    | Shift(rest: seq<bool>)
    | Stop

  /** `line` is the level the device shows after the last strobe. */
  datatype Dev = Dev(core: Core, phase: Phase, line: bool)

  /** One strobe; `driven` is the host's level, None if the host has released the line. */
  function Clock(d: Dev, driven: Option<bool>): Dev {
    var bit := if driven.Some? then driven.value else true;
    match d.phase
    case Ready => d.(phase := Ins1)
    case Ins1 => d.(phase := Ins2(bit))
    case Ins2(first) =>
      if bit then
        if first then d.(phase := AddrBits([]))
        else d.(phase := Shift(BitsOf(AddrByte(d.core), 8)), core := OnReadAddr(d.core))
      else d.(phase := Len1(!first))
    case Len1(fetch) => d.(phase := Len2(fetch))
    case Len2(fetch) => d.(phase := if fetch then Fetch(d.core.env.waitRead(d.core.clock)) else DataBits([]))
    case AddrBits(got) =>
      if |got| == 7 then d.(phase := Stop, core := OnWriteAddr(d.core, ToByte(got + [bit])))
      else d.(phase := AddrBits(got + [bit]))
    case DataBits(got) =>
      if |got| == 7 then d.(phase := Accept(d.core.env.waitWrite(d.core.clock), ToByte(got + [bit])))
      else d.(phase := DataBits(got + [bit]))
    case Accept(n, byte) =>
      if n > 0 then d.(phase := Accept(n - 1, byte), line := false)
      else d.(phase := Stop, line := true, core := OnWriteData(d.core, byte))
    case Fetch(n) =>
      if n > 0 then d.(phase := Fetch(n - 1), line := false)
      else d.(phase := Shift(BitsOf(DataByte(d.core), 8)), line := true, core := OnReadData(d.core))
    case Shift(rest) =>
      if rest == [] then d.(phase := Ready)
      else d.(phase := if |rest| == 1 then Stop else Shift(rest[1..]), line := rest[0])
    case Stop => d.(phase := Ready)
  }

  function ClockBits(d: Dev, bits: seq<bool>): Dev
    decreases |bits|
  {
    if bits == [] then d else ClockBits(Clock(d, Some(bits[0])), bits[1..])
  }

  lemma {:induction false} ClockBitsAppend(d: Dev, bits: seq<bool>, b: bool)
    ensures ClockBits(d, bits + [b]) == Clock(ClockBits(d, bits), Some(b))
    decreases |bits|
  {
    if bits == [] {
      assert bits + [b] == [b];
      assert [b][1..] == [];
    } else {
      assert (bits + [b])[1..] == bits[1..] + [b];
      ClockBitsAppend(Clock(d, Some(bits[0])), bits[1..], b);
    }
  }

  /** Eight driven bits in the address or data field give the device the byte they spell. */
  lemma {:induction false} FieldReceived(d: Dev, got: seq<bool>, bits: seq<bool>)
    requires |got| < 8 && |got| + |bits| == 8
    requires d.phase == AddrBits(got) || d.phase == DataBits(got)
    ensures var all := ToByte(got + bits);
            ClockBits(d, bits) == if d.phase.AddrBits?
                                  then d.(phase := Stop, core := OnWriteAddr(d.core, all))
                                  else d.(phase := Accept(d.core.env.waitWrite(d.core.clock), all))
    decreases |bits|
  {
    var e := Clock(d, Some(bits[0]));
    if |bits| == 1 {
      assert bits == [bits[0]] && bits[1..] == [];
    } else {
      assert got + bits == (got + [bits[0]]) + bits[1..];
      FieldReceived(e, got + [bits[0]], bits[1..]);
    }
  }
}
