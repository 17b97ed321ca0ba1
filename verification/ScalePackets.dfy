/** How a written buffer is cut into transmit requests, and those into packets on the wire. */
module ScalePackets {
  import opened Common
  import opened Bits

  const USB_BUFSIZE := 512

  /** A queued transmit request: its data, and whether to end with an empty packet. */
  datatype Packet = Packet(data: seq<Byte>, zero: bool)

  function PieceSize(n: nat): nat {
    if n > USB_BUFSIZE then USB_BUFSIZE else n
  }

  function Piece(buf: seq<Byte>, maxPacket: nat): Packet
    requires maxPacket > 0
  {
    var size := PieceSize(|buf|);
    Packet(buf[..size], if |buf| > size then false else |buf| % maxPacket == 0)
  }

  /** The requests that carry a whole buffer. */
  function Pieces(buf: seq<Byte>, maxPacket: nat): seq<Packet>
    requires maxPacket > 0
    decreases |buf|
  {
    if buf == [] then [] else [Piece(buf, maxPacket)] + Pieces(buf[PieceSize(|buf|)..], maxPacket)
  }

  function Data(ps: seq<Packet>): seq<Byte> {
    if ps == [] then [] else ps[0].data + Data(ps[1..])
  }

  lemma {:induction false} DataAppend(ps: seq<Packet>, p: Packet)
    ensures Data(ps + [p]) == Data(ps) + p.data
  {
    if ps == [] {
      assert ps + [p] == [p];
    } else {
      assert (ps + [p])[1..] == ps[1..] + [p];
      DataAppend(ps[1..], p);
    }
  }

  lemma {:induction false} PiecesData(buf: seq<Byte>, maxPacket: nat)
    requires maxPacket > 0
    ensures Data(Pieces(buf, maxPacket)) == buf
    ensures forall i :: 0 <= i < |Pieces(buf, maxPacket)| ==> 0 < |Pieces(buf, maxPacket)[i].data| <= USB_BUFSIZE
    decreases |buf|
  {
    if buf != [] {
      var size := PieceSize(|buf|);
      PiecesData(buf[size..], maxPacket);
      assert buf == buf[..size] + buf[size..];
    }
  }

  // ----- the wire

  /** One request on the wire: full packets, then the short rest or, if asked for, an empty packet. */
  function Cut(data: seq<Byte>, zero: bool, maxPacket: nat): seq<seq<Byte>>
    requires maxPacket > 0
    decreases |data|
  {
    if |data| >= maxPacket then [data[..maxPacket]] + Cut(data[maxPacket..], zero, maxPacket)
    else if |data| > 0 then [data]
    else if zero then [[]]
    else []
  }

  function Wire(ps: seq<Packet>, maxPacket: nat): seq<seq<Byte>>
    requires maxPacket > 0
  {
    if ps == [] then [] else Cut(ps[0].data, ps[0].zero, maxPacket) + Wire(ps[1..], maxPacket)
  }

  predicate AllFull(w: seq<seq<Byte>>, maxPacket: nat) {
    forall i :: 0 <= i < |w| ==> |w[i]| == maxPacket
  }

  /** Exactly one packet is short or empty, and it is the last: the host sees one transfer end. */
  predicate EndsOnce(w: seq<seq<Byte>>, maxPacket: nat) {
    |w| > 0 && |w[|w| - 1]| < maxPacket && AllFull(w[..|w| - 1], maxPacket)
  }

  lemma {:induction false} CutFull(data: seq<Byte>, n: nat, maxPacket: nat)
    requires maxPacket > 0 && |data| == n * maxPacket
    ensures AllFull(Cut(data, false, maxPacket), maxPacket)
  {
    if n > 0 {
      assert n * maxPacket == (n - 1) * maxPacket + maxPacket;
      CutFull(data[maxPacket..], n - 1, maxPacket);
    }
  }

  /** Data of q full packets and r bytes: the last packet, short or empty, is the only one not full. */
  lemma {:induction false} CutEnds(data: seq<Byte>, q: nat, r: nat, maxPacket: nat)
    requires r < maxPacket && |data| == q * maxPacket + r
    ensures EndsOnce(Cut(data, r == 0, maxPacket), maxPacket)
  {
    var w := Cut(data, r == 0, maxPacket);
    if q > 0 {
      assert q * maxPacket == (q - 1) * maxPacket + maxPacket;
      var t := Cut(data[maxPacket..], r == 0, maxPacket);
      CutEnds(data[maxPacket..], q - 1, r, maxPacket);
      assert w[..|w| - 1] == [data[..maxPacket]] + t[..|t| - 1];
    } else {
      assert w[..0] == [];
    }
  }

  lemma EndsAfterFull(a: seq<seq<Byte>>, b: seq<seq<Byte>>, maxPacket: nat)
    requires AllFull(a, maxPacket) && EndsOnce(b, maxPacket)
    ensures EndsOnce(a + b, maxPacket)
  {
    var w := a + b;
    assert w[..|w| - 1] == a + b[..|b| - 1];
  }

  lemma WirePieces(buf: seq<Byte>, maxPacket: nat)
    requires maxPacket > 0 && buf != []
    ensures var p, tail := Piece(buf, maxPacket), Pieces(buf[PieceSize(|buf|)..], maxPacket);
            Wire(Pieces(buf, maxPacket), maxPacket) == Cut(p.data, p.zero, maxPacket) + Wire(tail, maxPacket)
  {
    var p, rest := Piece(buf, maxPacket), Pieces(buf[PieceSize(|buf|)..], maxPacket);
    assert Pieces(buf, maxPacket) == [p] + rest;
    assert ([p] + rest)[1..] == rest;
  }

  lemma FullPiece(data: seq<Byte>, maxPacket: nat)
    requires maxPacket > 0 && USB_BUFSIZE % maxPacket == 0 && |data| == USB_BUFSIZE
    ensures AllFull(Cut(data, false, maxPacket), maxPacket)
  {
    assert USB_BUFSIZE == USB_BUFSIZE / maxPacket * maxPacket;
    CutFull(data, USB_BUFSIZE / maxPacket, maxPacket);
  }

  lemma LastPiece(data: seq<Byte>, maxPacket: nat)
    requires maxPacket > 0
    ensures EndsOnce(Cut(data, |data| % maxPacket == 0, maxPacket), maxPacket)
  {
    CutEnds(data, |data| / maxPacket, |data| % maxPacket, maxPacket);
  }

  /** A whole buffer goes out as one transfer if it fits one request or the packet size divides the request size. */
  lemma {:induction false} WireEndsOnce(buf: seq<Byte>, maxPacket: nat)
    requires maxPacket > 0 && buf != [] && (USB_BUFSIZE % maxPacket == 0 || |buf| <= USB_BUFSIZE)
    ensures EndsOnce(Wire(Pieces(buf, maxPacket), maxPacket), maxPacket)
    decreases |buf|
  {
    var size, p := PieceSize(|buf|), Piece(buf, maxPacket);
    WirePieces(buf, maxPacket);
    if |buf| > size {
      FullPiece(p.data, maxPacket);
      WireEndsOnce(buf[size..], maxPacket);
      EndsAfterFull(Cut(p.data, false, maxPacket), Wire(Pieces(buf[size..], maxPacket), maxPacket), maxPacket);
    } else {
      LastPiece(buf, maxPacket);
      assert buf[..size] == buf;
      assert Cut(p.data, p.zero, maxPacket) + [] == Cut(p.data, p.zero, maxPacket);
    }
  }

  /** Cutting data whose length is no multiple of the packet size leaves a short packet at its end. */
  lemma {:induction false} CutShort(data: seq<Byte>, q: nat, r: nat, maxPacket: nat)
    requires 0 < r < maxPacket && |data| == q * maxPacket + r
    ensures var w := Cut(data, false, maxPacket); |w| > 0 && |w[|w| - 1]| < maxPacket
  {
    if q > 0 {
      assert q * maxPacket == (q - 1) * maxPacket + maxPacket;
      CutShort(data[maxPacket..], q - 1, r, maxPacket);
    }
  }

  /** Otherwise every buffer longer than a request is broken up: a short packet comes before the last. */
  lemma WireBreaks(buf: seq<Byte>, maxPacket: nat)
    requires maxPacket > 0 && USB_BUFSIZE % maxPacket != 0 && |buf| > USB_BUFSIZE
    ensures !EndsOnce(Wire(Pieces(buf, maxPacket), maxPacket), maxPacket)
  {
    var p, tail := Piece(buf, maxPacket), buf[USB_BUFSIZE..];
    WirePieces(buf, maxPacket);
    WirePieces(tail, maxPacket);
    ShortPiece(p.data, maxPacket);
    var a, b := Cut(p.data, false, maxPacket), Wire(Pieces(tail, maxPacket), maxPacket);
    BrokenBefore(a, b, maxPacket);
  }

  lemma ShortPiece(data: seq<Byte>, maxPacket: nat)
    requires maxPacket > 0 && USB_BUFSIZE % maxPacket != 0 && |data| == USB_BUFSIZE
    ensures var w := Cut(data, false, maxPacket); |w| > 0 && |w[|w| - 1]| < maxPacket
  {
    CutShort(data, USB_BUFSIZE / maxPacket, USB_BUFSIZE % maxPacket, maxPacket);
  }

  lemma BrokenBefore(a: seq<seq<Byte>>, b: seq<seq<Byte>>, maxPacket: nat)
    requires |a| > 0 && |b| > 0 && |a[|a| - 1]| < maxPacket
    ensures !EndsOnce(a + b, maxPacket)
  {
    var w := a + b;
    assert w[..|w| - 1][|a| - 1] == a[|a| - 1];
  }

  /** A buffer goes out as one transfer exactly if it fits one request or the packet size divides 512. */
  lemma OneTransferIff(buf: seq<Byte>, maxPacket: nat)
    requires maxPacket > 0 && buf != []
    ensures EndsOnce(Wire(Pieces(buf, maxPacket), maxPacket), maxPacket)
       <==> |buf| <= USB_BUFSIZE || USB_BUFSIZE % maxPacket == 0
  {
    if USB_BUFSIZE % maxPacket == 0 || |buf| <= USB_BUFSIZE {
      WireEndsOnce(buf, maxPacket);
    } else {
      WireBreaks(buf, maxPacket);
    }
  }
}
