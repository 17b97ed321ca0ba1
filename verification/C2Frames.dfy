/** Frames on the two-wire C2 bus: what a host's strobes say, and how they are read back from the wire. */
module C2Frames {
  import opened Common
  import opened Bits

  /** One clock strobe: the host drives the data line, or has released it and the device's level shows. */
  datatype Strobe = Drive(bit: bool) | Release(bit: bool)

  /** A register access and its byte. */
  datatype Frame = WriteAddr(byte: Byte) | ReadAddr(byte: Byte) | WriteData(byte: Byte) | ReadData(byte: Byte)

  // ----- bits

  function Bit(n: nat): bool {
    n % 2 == 1
  }

  function Val(b: bool): nat {
    if b then 1 else 0
  }

  /** The n low bits of b, least significant first. */
  function BitsOf(b: nat, n: nat): (r: seq<bool>)
    ensures |r| == n
  {
    if n == 0 then [] else [Bit(b)] + BitsOf(b / 2, n - 1)
  }

  /** Bit i of the byte is the i-th on the wire. */
  lemma BitsLowFirst(b: Byte)
    ensures BitsOf(b, 8) == [b % 2 == 1, b / 2 % 2 == 1, b / 4 % 2 == 1, b / 8 % 2 == 1,
                             b / 16 % 2 == 1, b / 32 % 2 == 1, b / 64 % 2 == 1, b / 128 % 2 == 1]
  {
    FourBits(b, 4);
    FourBits(b / 16, 0);
    assert b / 16 / 2 == b / 32 && b / 16 / 4 == b / 64 && b / 16 / 8 == b / 128;
  }

  lemma FourBits(b: nat, n: nat)
    ensures BitsOf(b, n + 4) == [b % 2 == 1, b / 2 % 2 == 1, b / 4 % 2 == 1, b / 8 % 2 == 1] + BitsOf(b / 16, n)
  {
    assert b / 2 / 2 == b / 4 && b / 4 / 2 == b / 8 && b / 8 / 2 == b / 16;
    assert BitsOf(b / 8, n + 1) == [Bit(b / 8)] + BitsOf(b / 16, n);
    assert BitsOf(b / 4, n + 2) == [Bit(b / 4)] + BitsOf(b / 8, n + 1);
    assert BitsOf(b / 2, n + 3) == [Bit(b / 2)] + BitsOf(b / 4, n + 2);
    assert BitsOf(b, n + 4) == [Bit(b)] + BitsOf(b / 2, n + 3);
  }

  function FromBits(bits: seq<bool>): nat {
    if bits == [] then 0 else Val(bits[0]) + 2 * FromBits(bits[1..])
  }

  lemma {:induction false} BitsRoundTrip(b: nat, n: nat)
    requires b < Pow2(n)
    ensures FromBits(BitsOf(b, n)) == b
  {
    if n > 0 {
      BitsRoundTrip(b / 2, n - 1);
    }
  }

  lemma {:induction false} FromBitsRoundTrip(bits: seq<bool>)
    ensures BitsOf(FromBits(bits), |bits|) == bits && FromBits(bits) < Pow2(|bits|)
  {
    if bits != [] {
      FromBitsRoundTrip(bits[1..]);
      assert FromBits(bits) % 2 == Val(bits[0]) && FromBits(bits) / 2 == FromBits(bits[1..]);
      assert bits == [bits[0]] + bits[1..];
    }
  }

  lemma {:induction false} FromBitsAppend(bits: seq<bool>, b: bool)
    ensures FromBits(bits + [b]) == FromBits(bits) + Pow2(|bits|) * Val(b)
  {
    if bits == [] {
      assert bits + [b] == [b];
    } else {
      assert (bits + [b])[1..] == bits[1..] + [b];
      FromBitsAppend(bits[1..], b);
    }
  }

  lemma Byte8()
    ensures Pow2(8) == 256
  {
    Pow2Add8(0);
  }

  // ----- frames on the wire

  function Driven(bits: seq<bool>): (t: seq<Strobe>)
    ensures |t| == |bits|
  {
    seq(|bits|, i requires 0 <= i < |bits| => Drive(bits[i]))
  }

  function Sampled(bits: seq<bool>): (t: seq<Strobe>)
    ensures |t| == |bits|
  {
    seq(|bits|, i requires 0 <= i < |bits| => Release(bits[i]))
  }

  /** w cycles of "not yet" and one of "ready". */
  function Waits(w: nat): (t: seq<Strobe>)
    ensures |t| == w + 1
  {
    if w == 0 then [Release(true)] else [Release(false)] + Waits(w - 1)
  }

  /** The strobes of a frame that waits w cycles; start and stop show whatever the device has on the line. */
  function FrameStrobes(f: Frame, w: nat, start: bool, stop: bool): seq<Strobe> {
    var bits := BitsOf(f.byte, 8);
    [Release(start)] +
    (match f
     case WriteAddr(_) => [Drive(true), Drive(true)] + Driven(bits)
     case ReadAddr(_) => [Drive(false), Drive(true)] + Sampled(bits)
     case WriteData(_) => [Drive(true), Drive(false)] + ([Drive(false), Drive(false)] + (Driven(bits) + Waits(w)))
     case ReadData(_) => [Drive(false), Drive(false)] + ([Drive(false), Drive(false)] + (Waits(w) + Sampled(bits)))) +
    [Release(stop)]
  }

  // ----- reading the wire

  function TakeDriven(t: seq<Strobe>, n: nat): Option<(seq<bool>, seq<Strobe>)> {
    if n == 0 then Some(([], t))
    else if t == [] || !t[0].Drive? then None
    else match TakeDriven(t[1..], n - 1) case None => None case Some((bits, rest)) => Some(([t[0].bit] + bits, rest))
  }

  function TakeSampled(t: seq<Strobe>, n: nat): Option<(seq<bool>, seq<Strobe>)> {
    if n == 0 then Some(([], t))
    else if t == [] || !t[0].Release? then None
    else match TakeSampled(t[1..], n - 1) case None => None case Some((bits, rest)) => Some(([t[0].bit] + bits, rest))
  }

  function SkipWaits(t: seq<Strobe>): Option<seq<Strobe>> {
    if t == [] || !t[0].Release? then None else if t[0].bit then Some(t[1..]) else SkipWaits(t[1..])
  }

  function TakeStop(f: Frame, t: seq<Strobe>): Option<(Frame, seq<Strobe>)> {
    if t != [] && t[0].Release? then Some((f, t[1..])) else None
  }

  /** A byte from eight bits. */
  function ToByte(bits: seq<bool>): Byte
    requires |bits| == 8
  {
    FromBitsRoundTrip(bits);
    Byte8();
    FromBits(bits)
  }

  /** Reads one frame the way a device on the bus does. */
  function ParseFrame(t: seq<Strobe>): Option<(Frame, seq<Strobe>)> {
    if |t| < 3 || !t[0].Release? || !t[1].Drive? || !t[2].Drive? then None
    else if t[2].bit then
      if t[1].bit then
        match TakeDriven(t[3..], 8)
        case None => None
        case Some((bits, rest)) => if |bits| == 8 then TakeStop(WriteAddr(ToByte(bits)), rest) else None
      else
        match TakeSampled(t[3..], 8)
        case None => None
        case Some((bits, rest)) => if |bits| == 8 then TakeStop(ReadAddr(ToByte(bits)), rest) else None
    else
      match TakeDriven(t[3..], 2)
      case None => None
      case Some((_, t')) => if t[1].bit then ParseWriteData(t') else ParseReadData(t')
  }

  function ParseWriteData(t: seq<Strobe>): Option<(Frame, seq<Strobe>)> {
    match TakeDriven(t, 8)
    case None => None
    case Some((bits, rest)) =>
      match SkipWaits(rest)
      case None => None
      case Some(rest') => if |bits| == 8 then TakeStop(WriteData(ToByte(bits)), rest') else None
  }

  function ParseReadData(t: seq<Strobe>): Option<(Frame, seq<Strobe>)> {
    match SkipWaits(t)
    case None => None
    case Some(rest) =>
      match TakeSampled(rest, 8)
      case None => None
      case Some((bits, rest')) => if |bits| == 8 then TakeStop(ReadData(ToByte(bits)), rest') else None
  }

  lemma {:induction false} TakeDrivenBack(bits: seq<bool>, rest: seq<Strobe>)
    ensures TakeDriven(Driven(bits) + rest, |bits|) == Some((bits, rest))
  {
    if bits == [] {
      assert Driven(bits) + rest == rest;
    } else {
      TakeDrivenBack(bits[1..], rest);
      assert (Driven(bits) + rest)[1..] == Driven(bits[1..]) + rest;
      assert bits == [bits[0]] + bits[1..];
    }
  }

  lemma {:induction false} TakeSampledBack(bits: seq<bool>, rest: seq<Strobe>)
    ensures TakeSampled(Sampled(bits) + rest, |bits|) == Some((bits, rest))
  {
    if bits == [] {
      assert Sampled(bits) + rest == rest;
    } else {
      TakeSampledBack(bits[1..], rest);
      assert (Sampled(bits) + rest)[1..] == Sampled(bits[1..]) + rest;
      assert bits == [bits[0]] + bits[1..];
    }
  }

  lemma {:induction false} SkipWaitsBack(w: nat, rest: seq<Strobe>)
    ensures SkipWaits(Waits(w) + rest) == Some(rest)
  {
    if w == 0 {
      assert (Waits(0) + rest)[1..] == rest;
    } else {
      SkipWaitsBack(w - 1, rest);
      assert (Waits(w) + rest)[1..] == Waits(w - 1) + rest;
    }
  }

  lemma ByteBack(b: Byte)
    ensures ToByte(BitsOf(b, 8)) == b
  {
    Byte8();
    BitsRoundTrip(b, 8);
  }

  /** A frame's first three strobes and the rest. */
  lemma Peel3(a: Strobe, b: Strobe, c: Strobe, x: seq<Strobe>, d: Strobe, rest: seq<Strobe>)
    ensures var t := ([a] + ([b, c] + x) + [d]) + rest;
            |t| >= 3 && t[0] == a && t[1] == b && t[2] == c && t[3..] == x + ([d] + rest)
  {
  }

  lemma AddrBack(f: Frame, w: nat, start: bool, stop: bool, rest: seq<Strobe>)
    requires f.WriteAddr? || f.ReadAddr?
    ensures ParseFrame(FrameStrobes(f, w, start, stop) + rest) == Some((f, rest))
  {
    var bits := BitsOf(f.byte, 8);
    var tail := [Release(stop)] + rest;
    ByteBack(f.byte);
    if f.WriteAddr? {
      Peel3(Release(start), Drive(true), Drive(true), Driven(bits), Release(stop), rest);
      TakeDrivenBack(bits, tail);
    } else {
      Peel3(Release(start), Drive(false), Drive(true), Sampled(bits), Release(stop), rest);
      TakeSampledBack(bits, tail);
    }
  }

  lemma TwoZeros(x: seq<Strobe>)
    ensures TakeDriven([Drive(false), Drive(false)] + x, 2) == Some(([false, false], x))
  {
    TakeDrivenBack([false, false], x);
    assert Driven([false, false]) == [Drive(false), Drive(false)];
  }

  lemma WriteDataBack(b: Byte, w: nat, tail: seq<Strobe>)
    requires tail != [] && tail[0].Release?
    ensures ParseWriteData((Driven(BitsOf(b, 8)) + Waits(w)) + tail) == Some((WriteData(b), tail[1..]))
  {
    var bits := BitsOf(b, 8);
    Assoc(Driven(bits), Waits(w), tail);
    TakeDrivenBack(bits, Waits(w) + tail);
    SkipWaitsBack(w, tail);
    ByteBack(b);
  }

  lemma ReadDataBack(b: Byte, w: nat, tail: seq<Strobe>)
    requires tail != [] && tail[0].Release?
    ensures ParseReadData((Waits(w) + Sampled(BitsOf(b, 8))) + tail) == Some((ReadData(b), tail[1..]))
  {
    var bits := BitsOf(b, 8);
    Assoc(Waits(w), Sampled(bits), tail);
    SkipWaitsBack(w, Sampled(bits) + tail);
    TakeSampledBack(bits, tail);
    ByteBack(b);
  }

  lemma DataBack(f: Frame, w: nat, start: bool, stop: bool, rest: seq<Strobe>)
    requires f.WriteData? || f.ReadData?
    ensures ParseFrame(FrameStrobes(f, w, start, stop) + rest) == Some((f, rest))
  {
    var bits := BitsOf(f.byte, 8);
    var tail := [Release(stop)] + rest;
    assert tail[1..] == rest;
    var x := if f.WriteData? then Driven(bits) + Waits(w) else Waits(w) + Sampled(bits);
    Peel3(Release(start), Drive(f.WriteData?), Drive(false), [Drive(false), Drive(false)] + x, Release(stop), rest);
    Assoc([Drive(false), Drive(false)], x, tail);
    TwoZeros(x + tail);
    if f.WriteData? {
      WriteDataBack(f.byte, w, tail);
    } else {
      ReadDataBack(f.byte, w, tail);
    }
  }

  /** Whatever follows, a frame's strobes read back as that frame. */
  lemma FrameBack(f: Frame, w: nat, start: bool, stop: bool, rest: seq<Strobe>)
    ensures ParseFrame(FrameStrobes(f, w, start, stop) + rest) == Some((f, rest))
  {
    if f.WriteAddr? || f.ReadAddr? {
      AddrBack(f, w, start, stop, rest);
    } else {
      DataBack(f, w, start, stop, rest);
    }
  }

  /** A frame as it went over the wire. */
  datatype Sent = Sent(frame: Frame, waits: nat, start: bool, stop: bool)

  function Trace(ss: seq<Sent>): seq<Strobe> {
    if ss == [] then [] else FrameStrobes(ss[0].frame, ss[0].waits, ss[0].start, ss[0].stop) + Trace(ss[1..])
  }

  function Frames(ss: seq<Sent>): seq<Frame> {
    if ss == [] then [] else [ss[0].frame] + Frames(ss[1..])
  }

  /** Reads a whole trace; None if it is not a run of frames. */
  function DecodeTrace(t: seq<Strobe>): Option<seq<Frame>>
    decreases |t|
  {
    if t == [] then Some([])
    else
      match ParseFrame(t)
      case None => None
      case Some((f, rest)) =>
        if |rest| >= |t| then None
        else match DecodeTrace(rest) case None => None case Some(fs) => Some([f] + fs)
  }

  /** Reading the wire recovers exactly the register accesses that were made, in order. */
  lemma {:induction false} DecodeBack(ss: seq<Sent>)
    ensures DecodeTrace(Trace(ss)) == Some(Frames(ss))
  {
    if ss != [] {
      FrameBack(ss[0].frame, ss[0].waits, ss[0].start, ss[0].stop, Trace(ss[1..]));
      DecodeBack(ss[1..]);
    }
  }

  lemma {:induction false} TraceAppend(ss: seq<Sent>, s: Sent)
    ensures Trace(ss + [s]) == Trace(ss) + FrameStrobes(s.frame, s.waits, s.start, s.stop)
    ensures Frames(ss + [s]) == Frames(ss) + [s.frame]
  {
    if ss == [] {
      assert ss + [s] == [s];
    } else {
      assert (ss + [s])[1..] == ss[1..] + [s];
      TraceAppend(ss[1..], s);
    }
  }
}
