/** Marshalling descriptors into a response buffer, and the host's way of taking it apart again. */
module UsbDescriptors {
  import opened Common
  import opened Bits

  const USB_DT_ENDPOINT := 5

  /** A descriptor: bLength, bDescriptorType, and the rest; an endpoint descriptor has at least 7 bytes. */
  type Desc = d: seq<Byte> | |d| >= 2 && d[0] == |d| && (d[1] == USB_DT_ENDPOINT ==> |d| >= 7) witness [2, 0]

  function Flat(ds: seq<Desc>): seq<Byte> {
    if ds == [] then [] else ds[0] + Flat(ds[1..])
  }

  lemma {:induction false} FlatAppend(ds: seq<Desc>, es: seq<Desc>)
    ensures Flat(ds + es) == Flat(ds) + Flat(es)
  {
    if ds == [] {
      assert ds + es == es;
    } else {
      assert (ds + es)[1..] == ds[1..] + es;
      FlatAppend(ds[1..], es);
    }
  }

  /** Splits a buffer by bLength, as section 9.6.3 of USB 2.0 has a host do; None if a length does not fit. */
  function Parse(b: seq<Byte>): Option<seq<seq<Byte>>>
    decreases |b|
  {
    if b == [] then Some([])
    else if b[0] < 2 || b[0] > |b| then None
    else
      match Parse(b[b[0]..])
      case None => None
      case Some(ds) => Some([b[..b[0]]] + ds)
  }

  lemma {:induction false} ParseFlat(ds: seq<Desc>)
    ensures Parse(Flat(ds)) == Some(ds)
  {
    if ds != [] {
      var b := Flat(ds);
      assert b[..b[0]] == ds[0] && b[b[0]..] == Flat(ds[1..]);
      ParseFlat(ds[1..]);
      assert ds == [ds[0]] + ds[1..];
    }
  }

  /** Copies descriptors to buf from position `at` on, or fails if they need more than buflen bytes. */
  method FillBuf(buf: array<Byte>, at: nat, buflen: nat, src: Option<seq<Desc>>) returns (status: int)
    requires at + buflen <= buf.Length
    modifies buf
    ensures src.None? ==> status == -EINVAL
    ensures src.Some? ==> status == if |Flat(src.value)| <= buflen then |Flat(src.value)| else -EINVAL
    ensures status >= 0 ==> buf[at..at + status] == Flat(src.value)
    ensures buf[..at] == old(buf[..at])
  {
    if src.None? {
      return -EINVAL;
    }
    var ds := src.value;
    var dest, left: nat := at, buflen;
    for i := 0 to |ds|
      invariant dest + left == at + buflen && at <= dest
      invariant |Flat(ds[..i])| == dest - at && buf[at..dest] == Flat(ds[..i])
      invariant buf[..at] == old(buf[..at])
    {
      FlatStep(ds, i);
      var d := ds[i];
      if |d| > left {
        return -EINVAL;
      }
      CopyIn(buf, dest, d);
      dest, left := dest + |d|, left - |d|;
    }
    assert ds[..|ds|] == ds;
    status := dest - at;
  }

  /** memcpy into the buffer. */
  method CopyIn(buf: array<Byte>, at: nat, d: seq<Byte>)
    requires at + |d| <= buf.Length
    modifies buf
    ensures buf[..at] == old(buf[..at])
    ensures buf[at..at + |d|] == d
    ensures buf[at + |d|..] == old(buf[at + |d|..])
  {
    for j := 0 to |d|
      invariant buf[..at] == old(buf[..at])
      invariant buf[at..at + j] == d[..j]
      invariant buf[at + j..] == old(buf[at + j..])
    {
      buf[at + j] := d[j];
    }
  }

  lemma FlatSplit(ds: seq<Desc>, i: nat)
    requires i <= |ds|
    ensures Flat(ds) == Flat(ds[..i]) + Flat(ds[i..])
  {
    var a, b := ds[..i], ds[i..];
    assert a + b == ds;
    FlatAppend(a, b);
  }

  lemma FlatStep(ds: seq<Desc>, i: nat)
    requires i < |ds|
    ensures Flat(ds[..i + 1]) == Flat(ds[..i]) + ds[i]
    ensures |Flat(ds)| >= |Flat(ds[..i])| + |ds[i]|
  {
    FlatAppend(ds[..i], [ds[i]]);
    assert ds[..i + 1] == ds[..i] + [ds[i]];
    assert Flat([ds[i]]) == ds[i] + Flat([]);
    FlatSplit(ds, i + 1);
  }
}
