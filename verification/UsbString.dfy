/** String descriptors: UTF-8 to UTF-16LE conversion in place, for the 16-bit code points. */
module UsbString {
  import opened Common
  import opened Bits

  const USB_DT_STRING := 3

  type Unit = n: nat | n < 0x1_0000

  predicate Surrogate(u: nat) {
    0xD800 <= u <= 0xDFFF
  }

  // ----- the encodings

  /** UTF-8 of a 16-bit code point (section 3 of RFC 3629). */
  function Encode1(u: Unit): seq<Byte> {
    if u < 0x80 then [u]
    else if u < 0x800 then [0xC0 + u / 64, 0x80 + u % 64]
    else [0xE0 + u / 4096, 0x80 + u / 64 % 64, 0x80 + u % 64]
  }

  function Encode(us: seq<Unit>): seq<Byte> {
    if us == [] then [] else Encode1(us[0]) + Encode(us[1..])
  }

  /** Code points at the ends of the three ranges, as RFC 3629 encodes them. */
  lemma EncodeSamples()
    ensures Encode1(0x41) == [0x41] && Encode1(0x7F) == [0x7F]
    ensures Encode1(0x80) == [0xC2, 0x80] && Encode1(0x7FF) == [0xDF, 0xBF]
    ensures Encode1(0x800) == [0xE0, 0xA0, 0x80] && Encode1(0x20AC) == [0xE2, 0x82, 0xAC] && Encode1(0xFFFF) == [0xEF, 0xBF, 0xBF]
  {
  }

  predicate Continues(b: Byte) {
    b / 64 == 2
  }

  /** Value of a two-byte sequence. */
  function Two(a: nat, b: nat): (u: nat)
    ensures u < 0x800
  {
    a % 32 * 64 + b % 64
  }

  /** Value of a three-byte sequence. */
  function Three(a: nat, b: nat, c: nat): (u: nat)
    ensures u < 0x1_0000
  {
    a % 16 * 4096 + b % 64 * 64 + c % 64
  }

  /** One to three bytes that stand for u, in a form that need not be the shortest. */
  predicate Stands(b: seq<Byte>, u: Unit) {
    || (|b| == 1 && 0 < b[0] < 0x80 && u == b[0])
    || (|b| == 2 && b[0] / 32 == 6 && Continues(b[1]) && u == Two(b[0], b[1]))
    || (|b| == 3 && b[0] / 16 == 14 && Continues(b[1]) && Continues(b[2]) && !Surrogate(u) &&
        u == Three(b[0], b[1], b[2]))
  }

  /** How many bytes the sequence that starts with b has; 0 if none starts with it. */
  function Width(b: Byte): nat {
    if b < 0x80 then 1 else if b / 32 == 6 then 2 else if b / 16 == 14 then 3 else 0
  }

  /** s is a run of such sequences for the units us. */
  predicate StandsAll(s: seq<Byte>, us: seq<Unit>)
    decreases |us|
  {
    if us == [] then s == []
    else s != [] && 0 < Width(s[0]) <= |s| && Stands(s[..Width(s[0])], us[0]) && StandsAll(s[Width(s[0])..], us[1..])
  }

  /** The first unit of a string, if its first sequence is well formed. */
  function Decode1(s: seq<Byte>): Option<Unit>
    requires s != []
  {
    var w := Width(s[0]);
    if w == 0 || w > |s| then None
    else if w == 1 then Some(s[0])
    else if w == 2 then
      if Continues(s[1]) then Some(Two(s[0], s[1])) else None
    else
      var u := Three(s[0], s[1], s[2]);
      if Continues(s[1]) && Continues(s[2]) && !Surrogate(u) then Some(u) else None
  }

  /** Up to max units of a string. */
  function Decode(s: seq<Byte>, max: nat): (r: Option<seq<Unit>>)
    ensures r.Some? ==> |r.value| <= max
    decreases max
  {
    if max == 0 || s == [] then Some([])
    else
      match Decode1(s)
      case None => None
      case Some(u) =>
        match Decode(s[Width(s[0])..], max - 1)
        case None => None
        case Some(us) => Some([u] + us)
  }

  // ----- what the decoder accepts

  predicate CString(s: seq<Byte>) {
    forall i :: 0 <= i < |s| ==> s[i] != 0
  }

  lemma Decode1Exact(s: seq<Byte>, u: Unit)
    requires s != [] && s[0] != 0
    ensures Decode1(s) == Some(u) <==> 0 < Width(s[0]) <= |s| && Stands(s[..Width(s[0])], u)
  {
    var w := Width(s[0]);
    if 0 < w <= |s| {
      var b := s[..w];
      assert b[0] == s[0] && (w > 1 ==> b[1] == s[1]) && (w > 2 ==> b[2] == s[2]);
    }
  }

  /** The first n bytes of s are a run for us, and there is reason to stop there: enough units, or the end. */
  predicate RunTo(s: seq<Byte>, n: nat, us: seq<Unit>, max: nat) {
    n <= |s| && StandsAll(s[..n], us) && (|us| == max || n == |s|)
  }

  lemma RunPeel(s: seq<Byte>, n: nat, us: seq<Unit>, max: nat)
    requires RunTo(s, n, us, max) && us != [] && max > 0
    ensures s != [] && 0 < Width(s[0]) <= n && Stands(s[..Width(s[0])], us[0])
    ensures RunTo(s[Width(s[0])..], n - Width(s[0]), us[1..], max - 1)
  {
    var w, p := Width(s[..n][0]), s[..n];
    assert p[..w] == s[..w];
    assert p[w..] == s[w..][..n - w];
  }

  lemma RunExtend(s: seq<Byte>, n: nat, us: seq<Unit>, max: nat)
    requires s != [] && us != [] && max > 0
    requires 0 < Width(s[0]) <= |s| && Stands(s[..Width(s[0])], us[0])
    requires RunTo(s[Width(s[0])..], n, us[1..], max - 1)
    ensures RunTo(s, n + Width(s[0]), us, max)
  {
    var w := Width(s[0]);
    var p := s[..n + w];
    assert p[0] == s[0] && p[..w] == s[..w];
    assert p[w..] == s[w..][..n];
  }

  /**
    The decoder returns us exactly when the string, up to some point, is a run of sequences for us, and
    it stopped there because it has max units or the string ends.
   */
  lemma {:induction false} DecodeExact(s: seq<Byte>, max: nat, us: seq<Unit>)
    requires CString(s)
    ensures Decode(s, max) == Some(us) <==> |us| <= max && exists n :: RunTo(s, n, us, max)
    decreases max
  {
    if Decode(s, max) == Some(us) {
      var n := DecodeSound(s, max);
    }
    if |us| <= max && exists n :: RunTo(s, n, us, max) {
      var n :| RunTo(s, n, us, max);
      DecodeComplete(s, n, max, us);
    }
  }

  lemma {:induction false} DecodeSound(s: seq<Byte>, max: nat) returns (n: nat)
    requires CString(s) && Decode(s, max).Some?
    ensures RunTo(s, n, Decode(s, max).value, max)
    decreases max
  {
    if max == 0 || s == [] {
      n := 0;
    } else {
      var u, w := Decode1(s).value, Width(s[0]);
      Decode1Exact(s, u);
      n := DecodeSound(s[w..], max - 1);
      var us := Decode(s, max).value;
      assert us[1..] == Decode(s[w..], max - 1).value;
      RunExtend(s, n, us, max);
      n := n + w;
    }
  }

  lemma {:induction false} DecodeComplete(s: seq<Byte>, n: nat, max: nat, us: seq<Unit>)
    requires CString(s) && |us| <= max && RunTo(s, n, us, max)
    ensures Decode(s, max) == Some(us)
    decreases max
  {
    if us == [] {
      assert s[..n] == [];
    } else {
      RunPeel(s, n, us, max);
      var w := Width(s[0]);
      Decode1Exact(s, us[0]);
      DecodeComplete(s[w..], n - w, max - 1, us[1..]);
      assert us == [us[0]] + us[1..];
    }
  }

  // ----- the round trip

  predicate Encodable(us: seq<Unit>) {
    forall i :: 0 <= i < |us| ==> us[i] != 0 && !Surrogate(us[i])
  }

  lemma TwoBack(u: nat)
    requires 0x80 <= u < 0x800
    ensures (0xC0 + u / 64) / 32 == 6 && (0x80 + u % 64) / 64 == 2 && Two(0xC0 + u / 64, 0x80 + u % 64) == u
  {
    assert (0xC0 + u / 64) % 32 == u / 64 && (0x80 + u % 64) % 64 == u % 64;
  }

  lemma ThreeBack(u: nat)
    requires 0x800 <= u < 0x1_0000
    ensures (0xE0 + u / 4096) / 16 == 14 && (0x80 + u / 64 % 64) / 64 == 2 && (0x80 + u % 64) / 64 == 2
    ensures Three(0xE0 + u / 4096, 0x80 + u / 64 % 64, 0x80 + u % 64) == u
  {
    assert (0xE0 + u / 4096) % 16 == u / 4096;
    assert (0x80 + u / 64 % 64) % 64 == u / 64 % 64 && (0x80 + u % 64) % 64 == u % 64;
  }

  lemma Encode1Decodes(u: Unit, rest: seq<Byte>)
    requires u != 0 && !Surrogate(u)
    ensures var b := Encode1(u); Width(b[0]) == |b| && Decode1(b + rest) == Some(u) && CString(b)
  {
    if u < 0x80 {
    } else if u < 0x800 {
      TwoBack(u);
    } else {
      ThreeBack(u);
    }
  }

  /** Every sequence of nonzero, non-surrogate 16-bit code points survives, up to max units. */
  lemma {:induction false} RoundTrip(us: seq<Unit>, max: nat)
    requires Encodable(us)
    ensures Decode(Encode(us), max) == Some(us[..if |us| <= max then |us| else max])
    ensures CString(Encode(us)) && |Encode(us)| >= |us|
    decreases max, |us|
  {
    if us != [] {
      Encode1Decodes(us[0], Encode(us[1..]));
      var s := Encode(us);
      assert s[Width(s[0])..] == Encode(us[1..]);
      if max == 0 {
        RoundTrip(us[1..], 0);
      } else {
        RoundTrip(us[1..], max - 1);
        var n := if |us| <= max then |us| else max;
        assert us[..n] == [us[0]] + us[1..][..n - 1];
      }
    }
  }

  // ----- the descriptor buffer

  /** Each unit takes two bytes, its low byte first. */
  predicate LowFirst(b: seq<Byte>, us: seq<Unit>)
    requires |b| == 2 * |us|
  {
    forall i :: 0 <= i < |us| ==> b[2 * i] == us[i] % 256 && b[2 * i + 1] == us[i] / 256
  }

  /** Units as they lie in the buffer. */
  function Le(us: seq<Unit>): (b: seq<Byte>)
    ensures |b| == 2 * |us|
  {
    if us == [] then [] else Le(us[..|us| - 1]) + [us[|us| - 1] % 256, us[|us| - 1] / 256]
  }

  lemma {:induction false} LeLowFirst(us: seq<Unit>)
    ensures LowFirst(Le(us), us)
  {
    if us != [] {
      LeLowFirst(us[..|us| - 1]);
    }
  }

  /**
    One turn of the conversion at position i of the NUL-terminated string str: the unit and where the
    next sequence starts.  Every index read is within the string or its terminator.
   */
  method NextUnit(str: seq<Byte>, i: nat) returns (r: Option<Unit>, next: nat)
    requires CString(str) && i < |str|
    ensures r == Decode1(str[i..])
    ensures r.Some? ==> next == i + Width(str[i]) <= |str|
  {
    var s: seq<Byte> := str + [0];
    var t := str[i..];
    var c := s[i];
    next := i + 1;
    if c >= 0x80 {
      if c / 32 == 6 {
        var d := s[next];
        next := next + 1;
        if d / 64 != 2 {
          return None, next;
        }
        r := Some(Two(c, d));
      } else if c / 16 == 14 {
        var d := s[next];
        next := next + 1;
        if d / 64 != 2 {
          return None, next;
        }
        var e := s[next];
        next := next + 1;
        if e / 64 != 2 {
          return None, next;
        }
        var u := Three(c, d, e);
        if 0xD800 <= u <= 0xDFFF {
          return None, next;
        }
        r := Some(u);
      } else {
        r := None;
      }
    } else {
      r := Some(c);
    }
  }

  /** What is still to be decoded at position i, with room for len more units. */
  ghost function Rest(str: seq<Byte>, i: nat, len: nat): Option<seq<Unit>>
    requires i <= |str|
  {
    Decode(str[i..], len)
  }

  /** Converts and stores one unit; None if the sequence at position i is malformed. */
  method ConvertOne(str: seq<Byte>, i: nat, buf: array<Byte>, at: nat, count: nat, ghost len: nat, ghost done: seq<Unit>)
    returns (ok: bool, next: nat, ghost u: Unit)
    requires CString(str) && i < |str| && len > 0 && count == |done|
    requires at + 2 * count + 2 <= buf.Length && buf[at..at + 2 * count] == Le(done)
    modifies buf
    ensures buf[..at] == old(buf[..at])
    ensures !ok ==> Rest(str, i, len) == None
    ensures ok ==> next <= |str| && buf[at..at + 2 * (count + 1)] == Le(done + [u])
    ensures ok ==> Prepend(done, Rest(str, i, len)) == Prepend(done + [u], Rest(str, next, len - 1))
  {
    var r;
    r, next := NextUnit(str, i);
    DecodeStep(str, i, len, r, next);
    ok, u := r.Some?, 0;
    if ok {
      u := r.value;
      PutUnit(buf, at, done, count, r.value);
      PrependMore(done, r.value, Decode(str[next..], len - 1));
    }
  }

  /** utf8_to_utf16le, writing from position `at` on. */
  method Utf8ToUtf16Le(str: seq<Byte>, buf: array<Byte>, at: nat, max: nat) returns (count: int)
    requires CString(str) && at + 2 * max <= buf.Length
    modifies buf
    ensures buf[..at] == old(buf[..at])
    ensures Decode(str, max).None? ==> count == -1
    ensures Decode(str, max).Some? ==> count == |Decode(str, max).value| && buf[at..at + 2 * count] == Le(Decode(str, max).value)
    ensures Decode(str, max).Some? ==> LowFirst(buf[at..at + 2 * count], Decode(str, max).value)
  {
    count := ConvertAll(str, buf, at, max);
    if count >= 0 {
      LeLowFirst(Decode(str, max).value);
    }
  }

  /** The conversion loop. */
  method ConvertAll(str: seq<Byte>, buf: array<Byte>, at: nat, max: nat) returns (count: int)
    requires CString(str) && at + 2 * max <= buf.Length
    modifies buf
    ensures buf[..at] == old(buf[..at])
    ensures Decode(str, max).None? ==> count == -1
    ensures Decode(str, max).Some? ==> count == |Decode(str, max).value| && buf[at..at + 2 * count] == Le(Decode(str, max).value)
  {
    var i: nat, len: nat := 0, max;
    count := 0;
    ghost var done: seq<Unit>, goal := [], Decode(str, max);
    StartRest(str, max);
    while len != 0 && i < |str|
      invariant i <= |str| && count == |done| && count + len == max
      invariant buf[..at] == old(buf[..at]) && buf[at..at + 2 * count] == Le(done)
      invariant goal == Prepend(done, Rest(str, i, len))
      decreases len
    {
      var ok, next;
      ghost var u;
      ok, next, u := ConvertOne(str, i, buf, at, count, len, done);
      if !ok {
        return -1;
      }
      done := done + [u];
      i, count, len := next, count + 1, len - 1;
    }
    EndRest(str, i, len, done);
  }

  lemma StartRest(str: seq<Byte>, max: nat)
    ensures Decode(str, max) == Prepend([], Rest(str, 0, max))
  {
    assert str[0..] == str;
    PrependNothing(Decode(str, max));
  }

  lemma EndRest(str: seq<Byte>, i: nat, len: nat, done: seq<Unit>)
    requires i <= |str| && (len == 0 || i == |str|)
    ensures Prepend(done, Rest(str, i, len)) == Some(done)
  {
    DecodeStops(str[i..], len);
    assert done + [] == done;
  }

  lemma DecodeStep(str: seq<Byte>, i: nat, len: nat, r: Option<Unit>, next: nat)
    requires i < |str| && len > 0 && r == Decode1(str[i..]) && (r.Some? ==> next == i + Width(str[i]) <= |str|)
    ensures r.None? ==> Decode(str[i..], len) == None
    ensures r.Some? ==> Decode(str[i..], len) == Prepend([r.value], Decode(str[next..], len - 1))
  {
    if r.Some? {
      assert str[i..][Width(str[i])..] == str[next..];
    }
  }

  lemma DecodeStops(s: seq<Byte>, len: nat)
    requires len == 0 || s == []
    ensures Decode(s, len) == Some([])
  {
  }

  function Prepend(us: seq<Unit>, r: Option<seq<Unit>>): Option<seq<Unit>> {
    match r
    case None => None
    case Some(vs) => Some(us + vs)
  }

  lemma PrependMore(us: seq<Unit>, u: Unit, r: Option<seq<Unit>>)
    ensures Prepend(us, Prepend([u], r)) == Prepend(us + [u], r)
  {
    if r.Some? {
      assert us + ([u] + r.value) == (us + [u]) + r.value;
    }
  }

  lemma PrependNothing(r: Option<seq<Unit>>)
    ensures Prepend([], r) == r
  {
    if r.Some? {
      assert [] + r.value == r.value;
    }
  }

  /** Stores one more unit after those already in place. */
  method PutUnit(buf: array<Byte>, at: nat, ghost us: seq<Unit>, count: nat, u: Unit)
    requires count == |us| && at + 2 * count + 2 <= buf.Length && buf[at..at + 2 * count] == Le(us)
    modifies buf
    ensures buf[..at] == old(buf[..at]) && buf[at..at + 2 * (count + 1)] == Le(us + [u])
  {
    var m := at + 2 * count;
    ghost var front := buf[at..m];
    buf[m], buf[m + 1] := u % 256, u / 256;
    assert (us + [u])[..|us|] == us;
    assert buf[at..m] == front;
    assert buf[at..m + 2] == buf[at..m] + [u % 256, u / 256];
  }

  /** A string table: a language and (id, text) pairs in order. */
  datatype Strings = Strings(language: nat, strings: seq<(nat, seq<Byte>)>)

  predicate StringsOk(t: Strings) {
    t.language < 0x1_0000 && forall i :: 0 <= i < |t.strings| ==> CString(t.strings[i].1)
  }

  /** The text of the first entry with the given id. */
  function Lookup(ss: seq<(nat, seq<Byte>)>, id: nat): Option<seq<Byte>> {
    if ss == [] then None else if ss[0].0 == id then Some(ss[0].1) else Lookup(ss[1..], id)
  }

  /** The first entry with the id decides, whatever comes after it. */
  lemma {:induction false} LookupFirst(ss: seq<(nat, seq<Byte>)>, id: nat, k: nat)
    requires k < |ss| && ss[k].0 == id && forall j :: 0 <= j < k ==> ss[j].0 != id
    ensures Lookup(ss, id) == Some(ss[k].1)
  {
    if k > 0 {
      LookupFirst(ss[1..], id, k - 1);
    }
  }

  /** The units of the string with the given id, as many as fit a descriptor. */
  function Text(ss: seq<(nat, seq<Byte>)>, id: nat): Option<seq<Unit>> {
    match Lookup(ss, id)
    case None => None
    case Some(str) => Decode(str, Min(126, |str|))
  }

  /** The result and body a descriptor for this text must have; no text means a stall. */
  predicate IsBody(text: Option<seq<Unit>>, n: int, body: seq<Byte>) {
    match text
    case None => n == -EINVAL
    case Some(us) => n == 2 * |us| + 2 && body == Le(us)
  }

  /** Position of the first entry with the given id. */
  method FindString(ss: seq<(nat, seq<Byte>)>, id: nat) returns (k: nat)
    ensures k <= |ss| && (k < |ss| ==> ss[k].0 == id) && forall j :: 0 <= j < k ==> ss[j].0 != id
    ensures Lookup(ss, id) == if k < |ss| then Some(ss[k].1) else None
  {
    k := 0;
    assert ss[0..] == ss;
    while k < |ss| && ss[k].0 != id
      invariant k <= |ss| && Lookup(ss, id) == Lookup(ss[k..], id)
      invariant forall j :: 0 <= j < k ==> ss[j].0 != id
    {
      k := k + 1;
    }
  }

  /** Converts a string into the descriptor body and fills in the two header bytes. */
  method PutString(str: seq<Byte>, buf: array<Byte>) returns (n: int)
    requires CString(str) && buf.Length >= 256
    modifies buf
    ensures n == -EINVAL || (n % 2 == 0 && 2 <= n <= 254 && buf[0] == n && buf[1] == USB_DT_STRING)
    ensures IsBody(Decode(str, Min(126, |str|)), n, buf[2..if n >= 2 then n else 2])
  {
    var len := Min(126, |str|);
    for j := 0 to 2 * len {
      buf[2 + j] := 0;
    }
    var count := Utf8ToUtf16Le(str, buf, 2, len);
    if count < 0 {
      return -EINVAL;
    }
    ghost var text := buf[2..2 + 2 * count];
    buf[0], buf[1] := (count + 1) * 2, USB_DT_STRING;
    assert buf[2..2 + 2 * count] == text;
    n := (count + 1) * 2;
  }

  /** usb_gadget_get_string: the descriptor for a string id, its length even and at most 254. */
  method GetString(table: Strings, id: nat, buf: array<Byte>) returns (n: int)
    requires StringsOk(table) && buf.Length >= 256
    modifies buf
    ensures n == -EINVAL || (n % 2 == 0 && 2 <= n <= 254 && buf[0] == n && buf[1] == USB_DT_STRING)
    ensures n >= 0 ==> buf[0] == n && buf[1] == 3
    ensures id == 0 ==> n == 4 && buf[2] == table.language % 256 && buf[3] == table.language / 256
    ensures id != 0 ==> IsBody(Text(table.strings, id), n, buf[2..if n >= 2 then n else 2])
    ensures id != 0 && n >= 0 ==>
      Text(table.strings, id).Some? && |Text(table.strings, id).value| == (n - 2) / 2 &&
      LowFirst(buf[2..n], Text(table.strings, id).value)
  {
    if id == 0 {
      buf[0], buf[1], buf[2], buf[3] := 4, USB_DT_STRING, table.language % 256, table.language / 256;
      return 4;
    }
    var k := FindString(table.strings, id);
    if k == |table.strings| {
      return -EINVAL;
    }
    n := PutString(table.strings[k].1, buf);
    if n >= 0 {
      LeLowFirst(Text(table.strings, id).value);
    }
  }

  /** Text in the encodable range comes back as its first 126 code units. */
  lemma TextSurvives(us: seq<Unit>)
    requires Encodable(us)
    ensures var str := Encode(us);
            CString(str) && Decode(str, Min(126, |str|)) == Some(us[..Min(126, |us|)])
  {
    var str := Encode(us);
    RoundTrip(us, 0);
    RoundTrip(us, Min(126, |str|));
  }
}
