/** What the host sees of the configurations: endpoint dispatch, counts, lookup by index, descriptors. */
module CompositeLookup {
  import opened Common
  import opened Bits
  import opened UsbDescriptors
  import opened Composite

  const USB_BUFSIZ := 1024
  const USB_DT_CONFIG_SIZE := 9
  const USB_DT_DEVICE := 1
  const USB_DT_CONFIG := 2
  const USB_DT_DEVICE_QUALIFIER := 6
  const USB_DT_OTHER_SPEED_CONFIG := 7
  const USB_CONFIG_ATT_ONE := 0x80

  // ----- endpoint dispatch

  /** Every function has an interface and descriptors, all endpoint addresses are proper, no two functions share one. */
  ghost predicate Exclusive(c: Config, high: bool) {
    && (forall i :: 0 <= i < |c.functions| ==>
          Owns(c, i, MAX_CONFIG_INTERFACES) && DescsAt(c.functions[i], high).Some?)
    && (forall i, a :: 0 <= i < |c.functions| && Names(DescsAt(c.functions[i], high).value, a) ==> IsEpAddr(a))
    && (forall i, j, a ::
          (0 <= i < |c.functions| && 0 <= j < |c.functions| &&
           Names(DescsAt(c.functions[i], high).value, a) && Names(DescsAt(c.functions[j], high).value, a)) ==> i == j)
  }

  /** In an armed configuration a function's bit for a is up exactly when its descriptors name a. */
  lemma BitMeansNamed(c: Config, high: bool, i: nat, a: nat)
    requires Armed(c, high, MAX_CONFIG_INTERFACES) && Exclusive(c, high) && i < |c.functions| && IsEpAddr(a)
    ensures PackEp(a) in c.functions[i].endpoints <==> Names(DescsAt(c.functions[i], high).value, a)
  {
    var ds := DescsAt(c.functions[i], high).value;
    assert Owns(c, i, MAX_CONFIG_INTERFACES);
    assert Recorded(c.functions[i], high, c.functions[i].endpoints);
    if HasBit(ds, PackEp(a)) {
      var k :| 0 <= k < |ds| && ds[k][1] == USB_DT_ENDPOINT && PackEp(ds[k][2]) == PackEp(a);
      assert Names(ds, ds[k][2]);
      PackEpInjective(ds[k][2], a);
    }
  }

  /** The list holds a descriptor of type 5, an endpoint's, with address a. */
  ghost predicate HoldsEndpoint(list: Option<seq<Desc>>, a: nat) {
    list.Some? && exists k :: 0 <= k < |list.value| && list.value[k][1] == 5 && list.value[k][2] == a
  }

  lemma HoldsIsNames(f: Func, high: bool, a: nat)
    requires DescsAt(f, high).Some?
    ensures Names(DescsAt(f, high).value, a) <==>
      (high && HoldsEndpoint(f.hsDescriptors, a)) || (!high && HoldsEndpoint(f.descriptors, a))
  {
  }

  /** An endpoint request reaches the one function whose descriptors name the endpoint, and none if none does. */
  method DispatchExact(dev: CompositeDev, wIndex: nat) returns (f: Option<nat>)
    requires dev.Valid() && dev.active.Some? && Exclusive(dev.configs[dev.active.value], dev.high)
    requires IsEpAddr(wIndex)
    ensures var c := dev.configs[dev.active.value];
            && (forall i :: 0 <= i < |c.functions| && dev.high ==>
                  (f == Some(i) <==> HoldsEndpoint(c.functions[i].hsDescriptors, wIndex)))
            && (forall i :: 0 <= i < |c.functions| && !dev.high ==>
                  (f == Some(i) <==> HoldsEndpoint(c.functions[i].descriptors, wIndex)))
    ensures f.Some? ==> f.value < |dev.configs[dev.active.value].functions|
  {
    var c := dev.configs[dev.active.value];
    f := dev.Dispatch(wIndex);
    assert wIndex % 256 == wIndex;
    forall i | 0 <= i < |c.functions|
      ensures PackEp(wIndex) in c.functions[i].endpoints <==> Names(DescsAt(c.functions[i], dev.high).value, wIndex)
    {
      BitMeansNamed(c, dev.high, i, wIndex);
    }
    forall i | 0 <= i < |c.functions|
      ensures f == Some(i) <==> Names(DescsAt(c.functions[i], dev.high).value, wIndex)
      ensures Names(DescsAt(c.functions[i], dev.high).value, wIndex) <==>
        (dev.high && HoldsEndpoint(c.functions[i].hsDescriptors, wIndex)) ||
        (!dev.high && HoldsEndpoint(c.functions[i].descriptors, wIndex))
    {
      HoldsIsNames(c.functions[i], dev.high, wIndex);
    }
  }

  // ----- counting and indexing

  /** Whether a request speaks of high speed; `other` asks for the speed not in use. */
  function HighFor(dual: bool, high: bool, other: bool): bool {
    dual && (if other then !high else high)
  }

  predicate Usable(c: Config, high: bool) {
    if high then c.highspeed else c.fullspeed
  }

  /** Positions of the configurations usable at a speed, in list order. */
  function Usables(cs: seq<Config>, high: bool): seq<nat> {
    if cs == [] then []
    else Usables(cs[..|cs| - 1], high) + (if Usable(cs[|cs| - 1], high) then [|cs| - 1] else [])
  }

  /** Usables lists exactly the usable positions, each once, ascending. */
  lemma {:induction false} UsablesExact(cs: seq<Config>, high: bool)
    ensures forall k :: k in Usables(cs, high) <==> 0 <= k < |cs| && (if high then cs[k].highspeed else cs[k].fullspeed)
    ensures forall i, j :: 0 <= i < j < |Usables(cs, high)| ==> Usables(cs, high)[i] < Usables(cs, high)[j]
  {
    if cs != [] {
      var n := |cs| - 1;
      var u := Usables(cs[..n], high);
      UsablesExact(cs[..n], high);
      forall i | 0 <= i < |u| ensures u[i] < n {
        assert u[i] in u;
      }
    }
  }

  lemma {:induction false} UsablesPrefix(cs: seq<Config>, high: bool, n: nat)
    requires n <= |cs|
    ensures Usables(cs[..n], high) <= Usables(cs, high)
  {
    if n < |cs| {
      UsablesPrefix(cs[..|cs| - 1], high, n);
      assert cs[..|cs| - 1][..n] == cs[..n];
    } else {
      assert cs[..n] == cs;
    }
  }

  lemma UsablesStep(cs: seq<Config>, high: bool, i: nat)
    requires i < |cs|
    ensures Usables(cs[..i + 1], high) == Usables(cs[..i], high) + (if Usable(cs[i], high) then [i] else [])
  {
    assert cs[..i + 1][..i] == cs[..i];
  }

  /** The entry at `index` is usable and has `index` usable ones before it. */
  lemma UsablesPlace(cs: seq<Config>, high: bool, index: nat)
    requires index < |Usables(cs, high)|
    ensures var r := Usables(cs, high)[index];
            r < |cs| && Usable(cs[r], high) && index == |Usables(cs[..r], high)|
  {
    var u := Usables(cs, high);
    UsablesExact(cs, high);
    var r := u[index];
    assert r in u;
    UsablesStep(cs, high, r);
    UsablesPrefix(cs, high, r + 1);
    var m := |Usables(cs[..r], high)|;
    assert u[m] == Usables(cs[..r + 1], high)[m] == r;
  }

  /** Number of configurations to advertise in a DEVICE or DEVICE_QUALIFIER descriptor. */
  method CountConfigs(cs: seq<Config>, dual: bool, high: bool, kind: nat) returns (count: nat)
    ensures count == |Usables(cs, HighFor(dual, high, kind == USB_DT_DEVICE_QUALIFIER))|
  {
    var hs := false;
    if dual {
      hs := high;
      if kind == USB_DT_DEVICE_QUALIFIER {
        hs := !hs;
      }
    }
    count := 0;
    for i := 0 to |cs|
      invariant count == |Usables(cs[..i], hs)|
    {
      UsablesStep(cs, hs, i);
      if Usable(cs[i], hs) {
        count := count + 1;
      }
    }
    assert cs[..|cs|] == cs;
  }

  /** The configuration a CONFIG or OTHER_SPEED_CONFIG request with this wValue selects. */
  method ConfigIndex(cs: seq<Config>, dual: bool, high: bool, wValue: nat) returns (r: Option<nat>)
    ensures var u, i := Usables(cs, HighFor(dual, high, wValue / 256 == USB_DT_OTHER_SPEED_CONFIG)), wValue % 256;
            r == if i < |u| then Some(u[i]) else None
  {
    var hs := false;
    if dual {
      hs := high;
      if wValue / 256 == USB_DT_OTHER_SPEED_CONFIG {
        hs := !hs;
      }
    }
    var left: nat := wValue % 256;
    for i := 0 to |cs|
      invariant left + |Usables(cs[..i], hs)| == wValue % 256
    {
      UsablesStep(cs, hs, i);
      UsablesPrefix(cs, hs, i + 1);
      if Usable(cs[i], hs) {
        if left == 0 {
          return Some(i);
        }
        left := left - 1;
      }
    }
    assert cs[..|cs|] == cs;
    r := None;
  }

  /** The count a host was told and the indices it may ask for agree, for the speed in use and the other one. */
  method AdvertisedIsServed(cs: seq<Config>, dual: bool, high: bool, other: bool, index: nat)
    returns (count: nat, r: Option<nat>)
    requires index < 256
    ensures r.Some? <==> index < count
    ensures r.Some? ==> r.value < |cs| && (if dual && high != other then cs[r.value].highspeed else cs[r.value].fullspeed)
    ensures r.Some? ==> index == |Usables(cs[..r.value], dual && high != other)|
    ensures count == |Usables(cs, dual && high != other)|
  {
    var hs := HighFor(dual, high, other);
    count := CountConfigs(cs, dual, high, if other then USB_DT_DEVICE_QUALIFIER else USB_DT_DEVICE);
    r := ConfigIndex(cs, dual, high, (if other then USB_DT_OTHER_SPEED_CONFIG else USB_DT_CONFIG) * 256 + index);
    if index < |Usables(cs, hs)| {
      UsablesPlace(cs, hs, index);
    }
  }

  // ----- the count fits its byte

  lemma {:induction false} BoundedSet(s: set<nat>, n: nat)
    requires forall x :: x in s ==> 0 < x <= n
    ensures |s| <= n
  {
    if n == 0 {
      assert s == {};
    } else {
      BoundedSet(s - {n}, n - 1);
    }
  }

  lemma {:induction false} DistinctValues(cs: seq<Config>)
    requires Values(cs)
    ensures |set i | 0 <= i < |cs| :: cs[i].value| == |cs|
  {
    var s := set i | 0 <= i < |cs| :: cs[i].value;
    if cs != [] {
      var n := |cs| - 1;
      var t := set i | 0 <= i < |cs[..n]| :: cs[..n][i].value;
      DistinctValues(cs[..n]);
      assert s == t + {cs[n].value};
    }
  }

  lemma {:induction false} UsablesBound(cs: seq<Config>, high: bool)
    ensures |Usables(cs, high)| <= |cs|
  {
    if cs != [] {
      UsablesBound(cs[..|cs| - 1], high);
    }
  }

  /** Unique nonzero byte values leave room for 255 configurations, so bNumConfigurations never overflows. */
  lemma CountFitsByte(cs: seq<Config>, active: Option<nat>, high: bool, hs: bool)
    requires DevInv(cs, active, high)
    ensures |Usables(cs, hs)| <= |cs| <= 255
  {
    UsablesBound(cs, hs);
    DistinctValues(cs);
    var s := set i | 0 <= i < |cs| :: cs[i].value;
    forall v | v in s ensures 0 < v <= 255 {
      var i :| 0 <= i < |cs| && cs[i].value == v;
      assert ConfigOk(cs[i]);
    }
    BoundedSet(s, 255);
  }

  // ----- the configuration descriptor

  function OrTop(b: Byte): Byte {
    if b < USB_CONFIG_ATT_ONE then b + USB_CONFIG_ATT_ONE else b
  }

  /** The nine header bytes, with the given total length. */
  function Header(c: Config, kind: Byte, vbusDraw: Byte, total: nat): seq<Byte>
    requires c.nextInterfaceId < 256 && c.value < 256 && total < 0x1_0000
  {
    [USB_DT_CONFIG_SIZE, kind, total % 256, total / 256, c.nextInterfaceId, c.value, c.iConfiguration,
     OrTop(c.bmAttributes), if c.bMaxPower != 0 then c.bMaxPower else vbusDraw]
  }

  /** The descriptors of the first n functions for a speed, in list order; functions without any are passed over. */
  function FunctionDescs(fs: seq<Func>, high: bool, n: nat): seq<Desc>
    requires n <= |fs|
  {
    if n == 0 then []
    else FunctionDescs(fs, high, n - 1) + Own(fs[n - 1], high)
  }

  /** One function's descriptors for a speed, none if it has no list. */
  function Own(f: Func, high: bool): seq<Desc> {
    if DescsAt(f, high).Some? then DescsAt(f, high).value else []
  }

  /** All descriptors that follow the header. */
  function Body(c: Config, high: bool): seq<Desc> {
    (if c.descriptors.Some? then c.descriptors.value else []) + FunctionDescs(c.functions, high, |c.functions|)
  }

  lemma {:induction false} FunctionDescsGrow(fs: seq<Func>, high: bool, n: nat)
    requires n <= |fs|
    ensures |Flat(FunctionDescs(fs, high, n))| <= |Flat(FunctionDescs(fs, high, |fs|))|
    decreases |fs| - n
  {
    if n < |fs| {
      FunctionDescsGrow(fs, high, n + 1);
      FlatAppend(FunctionDescs(fs, high, n), Own(fs[n], high));
    }
  }

  lemma FunctionStep(fs: seq<Func>, high: bool, i: nat)
    requires i < |fs|
    ensures Flat(FunctionDescs(fs, high, i + 1)) == Flat(FunctionDescs(fs, high, i)) + Flat(Own(fs[i], high))
    ensures |Flat(FunctionDescs(fs, high, i))| + |Flat(Own(fs[i], high))| <= |Flat(FunctionDescs(fs, high, |fs|))|
  {
    FlatAppend(FunctionDescs(fs, high, i), Own(fs[i], high));
    FunctionDescsGrow(fs, high, i + 1);
  }

  /** Writes the header fields; the total length comes later. */
  method PutHeader(buf: array<Byte>, c: Config, kind: Byte, vbusDraw: Byte)
    requires buf.Length == USB_BUFSIZ && c.nextInterfaceId < 256 && c.value < 256
    modifies buf
    ensures buf[..2] == Header(c, kind, vbusDraw, 0)[..2]
    ensures buf[4..9] == Header(c, kind, vbusDraw, 0)[4..]
  {
    buf[0], buf[1] := USB_DT_CONFIG_SIZE, kind;
    buf[4], buf[5], buf[6] := c.nextInterfaceId, c.value, c.iConfiguration;
    buf[7], buf[8] := OrTop(c.bmAttributes), if c.bMaxPower != 0 then c.bMaxPower else vbusDraw;
  }

  /** Appends one list after what already lies between `at` and `next`. */
  method FillMore(buf: array<Byte>, at: nat, next: nat, ds: Option<seq<Desc>>) returns (status: int)
    requires buf.Length == USB_BUFSIZ && at <= next <= USB_BUFSIZ && ds.Some?
    modifies buf
    ensures buf[..at] == old(buf[..at])
    ensures status == if next + |Flat(ds.value)| <= USB_BUFSIZ then |Flat(ds.value)| else -EINVAL
    ensures status >= 0 ==> buf[at..next + status] == old(buf[at..next]) + Flat(ds.value)
  {
    ghost var before := buf[..];
    status := FillBuf(buf, next, USB_BUFSIZ - next, ds);
    KeepsFront(before, buf[..], at, next, next + if status >= 0 then status else 0);
  }

  /** Appends the descriptors of every function that has some for the speed. */
  method FillFunctions(buf: array<Byte>, at: nat, fs: seq<Func>, high: bool) returns (end: int)
    requires buf.Length == USB_BUFSIZ && at <= USB_BUFSIZ
    modifies buf
    ensures buf[..at] == old(buf[..at])
    ensures var b := Flat(Joined(SpeedLists(fs, high)));
            && end == (if at + |b| <= USB_BUFSIZ then at + |b| else -EINVAL)
            && (end >= 0 ==> buf[at..end] == b)
  {
    FunctionsJoined(fs, high, |fs|, SpeedLists(fs, high));
    end := CopyFunctions(buf, at, fs, high);
  }

  /** The loop over the functions. */
  method CopyFunctions(buf: array<Byte>, at: nat, fs: seq<Func>, high: bool) returns (end: int)
    requires buf.Length == USB_BUFSIZ && at <= USB_BUFSIZ
    modifies buf
    ensures buf[..at] == old(buf[..at])
    ensures var b := Flat(FunctionDescs(fs, high, |fs|));
            && end == (if at + |b| <= USB_BUFSIZ then at + |b| else -EINVAL)
            && (end >= 0 ==> buf[at..end] == b)
  {
    var next: nat := at;
    for i := 0 to |fs|
      invariant at <= next <= USB_BUFSIZ && next == at + |Flat(FunctionDescs(fs, high, i))|
      invariant buf[..at] == old(buf[..at])
      invariant buf[at..next] == Flat(FunctionDescs(fs, high, i))
    {
      var ds := DescsAt(fs[i], high);
      FunctionStep(fs, high, i);
      assert ds.None? ==> Flat(Own(fs[i], high)) == [];
      if ds.Some? {
        var status := FillMore(buf, at, next, ds);
        if status < 0 {
          return -EINVAL;
        }
        next := next + status;
      }
    }
    end := next;
  }

  /** Bytes before mid unchanged: slices from lo on are the old part followed by the new. */
  lemma KeepsFront(old_: seq<Byte>, new_: seq<Byte>, lo: nat, mid: nat, hi: nat)
    requires lo <= mid <= hi <= |new_| == |old_| && new_[..mid] == old_[..mid]
    ensures new_[..lo] == old_[..lo]
    ensures new_[lo..hi] == old_[lo..mid] + new_[mid..hi]
  {
    assert new_[lo..mid] == new_[..mid][lo..] == old_[lo..mid];
    assert new_[..lo] == new_[..mid][..lo] == old_[..lo];
  }

  /** Everything after the header. */
  method FillBody(buf: array<Byte>, c: Config, high: bool) returns (len: int)
    requires buf.Length == USB_BUFSIZ
    modifies buf
    ensures buf[..9] == old(buf[..9])
    ensures var total := USB_DT_CONFIG_SIZE + |Flat(Body(c, high))|;
            && len == (if total <= USB_BUFSIZ then total else -EINVAL)
            && (len >= 0 ==> buf[9..len] == Flat(Body(c, high)))
  {
    var at: nat := USB_DT_CONFIG_SIZE;
    ghost var extra := if c.descriptors.Some? then c.descriptors.value else [];
    FlatAppend(extra, FunctionDescs(c.functions, high, |c.functions|));
    if c.descriptors.Some? {
      var status := FillBuf(buf, at, USB_BUFSIZ - at, c.descriptors);
      if status < 0 {
        return -EINVAL;
      }
      at := at + status;
    }
    ghost var before := buf[..];
    assert before[9..at] == Flat(extra) && before[..9] == old(buf[..9]);
    FunctionsJoined(c.functions, high, |c.functions|, SpeedLists(c.functions, high));
    len := FillFunctions(buf, at, c.functions, high);
    KeepsFront(before, buf[..], 9, at, if len >= 0 then len else at);
  }

  /** Stores the total length. */
  method PutTotal(buf: array<Byte>, len: nat)
    requires 9 <= len <= buf.Length == USB_BUFSIZ
    modifies buf
    ensures buf[2] == len % 256 && buf[3] == len / 256
    ensures buf[..2] == old(buf[..2]) && buf[4..9] == old(buf[4..9]) && buf[9..len] == old(buf[9..len])
  {
    buf[2], buf[3] := len % 256, len / 256;
  }

  /**
    config_buf.  It succeeds exactly when header and descriptors fit, and then a host that splits the
    response by bLength finds the header, with the right total, and every descriptor in order.
   */
  method ConfigBuf(buf: array<Byte>, c: Config, high: bool, kind: Byte, vbusDraw: Byte) returns (len: int)
    requires buf.Length == USB_BUFSIZ && ConfigOk(c)
    modifies buf
    ensures var total := USB_DT_CONFIG_SIZE + |Flat(Body(c, high))|;
            && len == (if total <= USB_BUFSIZ then total else -EINVAL)
            && (len >= 0 ==> Parse(buf[..len]) == Some([Header(c, kind, vbusDraw, total)] + Body(c, high)))
    ensures len >= 0 ==> HeaderBytes(buf[..9], c, kind, vbusDraw, len)
    ensures len >= 0 ==> Parse(buf[..len]) == Some([buf[..9]] +
      ((if c.descriptors.Some? then c.descriptors.value else []) + Joined(SpeedLists(c.functions, high))))
  {
    PutHeader(buf, c, kind, vbusDraw);
    ghost var head := buf[..9];
    len := FillBody(buf, c, high);
    if len < 0 {
      return;
    }
    assert buf[..2] == buf[..9][..2] == head[..2] && buf[4..9] == buf[..9][4..] == head[4..];
    PutTotal(buf, len);
    ghost var b := buf[..len];
    assert b[..2] == buf[..2] && b[4..9] == buf[4..9] && b[9..] == buf[9..len];
    HeaderDone(b, c, kind, vbusDraw, high);
    assert b[..9] == buf[..9];
    HeaderFields(c, kind, vbusDraw, |b|);
    BodyNamed(c, high);
  }

  /**
    The configuration descriptor as section 9.6.3 of USB 2.0 has it: length, type, total length, number of
    interfaces, value, string index, attributes with bit 7 set, power.
   */
  ghost predicate HeaderBytes(h: seq<Byte>, c: Config, kind: Byte, vbusDraw: Byte, total: nat) {
    && |h| == 9 && h[0] == 9 && h[1] == kind
    && h[2] as int + 256 * h[3] as int == total
    && h[4] == c.nextInterfaceId && h[5] == c.value && h[6] == c.iConfiguration
    && h[7] % 128 == c.bmAttributes % 128 && h[7] >= 128
    && h[8] == if c.bMaxPower == 0 then vbusDraw else c.bMaxPower
  }

  /** Every function's list for the speed: its high-speed list, or its full-speed list. */
  function SpeedLists(fs: seq<Func>, high: bool): (lists: seq<Option<seq<Desc>>>)
    ensures |lists| == |fs|
    ensures high ==> forall i :: 0 <= i < |fs| ==> lists[i] == fs[i].hsDescriptors
    ensures !high ==> forall i :: 0 <= i < |fs| ==> lists[i] == fs[i].descriptors
  {
    seq(|fs|, i requires 0 <= i < |fs| => DescsAt(fs[i], high))
  }

  /** The lists that are there, one after the other. */
  function Joined(lists: seq<Option<seq<Desc>>>): seq<Desc> {
    if lists == [] then []
    else Joined(lists[..|lists| - 1]) + if lists[|lists| - 1].Some? then lists[|lists| - 1].value else []
  }

  lemma {:induction false} FunctionsJoined(fs: seq<Func>, high: bool, n: nat, lists: seq<Option<seq<Desc>>>)
    requires n == |lists| <= |fs|
    requires forall i :: 0 <= i < n ==> lists[i] == if high then fs[i].hsDescriptors else fs[i].descriptors
    ensures FunctionDescs(fs, high, n) == Joined(lists)
  {
    if n > 0 {
      FunctionsJoined(fs, high, n - 1, lists[..n - 1]);
    }
  }

  lemma BodyNamed(c: Config, high: bool)
    ensures Body(c, high)
         == (if c.descriptors.Some? then c.descriptors.value else []) + Joined(SpeedLists(c.functions, high))
  {
    FunctionsJoined(c.functions, high, |c.functions|, SpeedLists(c.functions, high));
  }

  lemma HeaderFields(c: Config, kind: Byte, vbusDraw: Byte, total: nat)
    requires c.nextInterfaceId < 256 && c.value < 256 && total < 0x1_0000
    ensures HeaderBytes(Header(c, kind, vbusDraw, total), c, kind, vbusDraw, total)
  {
  }

  lemma HeaderSplits(b: seq<Byte>, h: seq<Byte>)
    requires |b| >= 9 && |h| == 9 && b[..2] == h[..2] && b[2] == h[2] && b[3] == h[3] && b[4..9] == h[4..]
    ensures b[..9] == h && b[0] == h[0]
  {
    assert b[0] == b[..2][0] && b[1] == b[..2][1];
    assert forall i :: 4 <= i < 9 ==> b[i] == b[4..9][i - 4];
  }

  lemma HeaderDone(b: seq<Byte>, c: Config, kind: Byte, vbusDraw: Byte, high: bool)
    requires 9 <= |b| < 0x1_0000 && c.nextInterfaceId < 256 && c.value < 256
    requires b[..2] == Header(c, kind, vbusDraw, 0)[..2] && b[4..9] == Header(c, kind, vbusDraw, 0)[4..]
    requires b[2] == |b| % 256 && b[3] == |b| / 256
    requires b[9..] == Flat(Body(c, high))
    ensures Parse(b) == Some([Header(c, kind, vbusDraw, |b|)] + Body(c, high))
    ensures b[..9] == Header(c, kind, vbusDraw, |b|)
  {
    var h := Header(c, kind, vbusDraw, |b|);
    HeaderPieces(c, kind, vbusDraw, |b|, h);
    HeaderSplits(b, h);
    ParseFlat(Body(c, high));
    ParseHead(b, h, Body(c, high));
  }

  /** Only the two bytes of the total length depend on it. */
  lemma HeaderPieces(c: Config, kind: Byte, vbusDraw: Byte, total: nat, h: seq<Byte>)
    requires c.nextInterfaceId < 256 && c.value < 256 && total < 0x1_0000 && h == Header(c, kind, vbusDraw, total)
    ensures |h| == 9 && h[0] == 9 && h[2] == total % 256 && h[3] == total / 256
    ensures h[..2] == Header(c, kind, vbusDraw, 0)[..2] && h[4..] == Header(c, kind, vbusDraw, 0)[4..]
  {
  }

  lemma ParseHead(b: seq<Byte>, h: seq<Byte>, ds: seq<seq<Byte>>)
    requires |b| >= 9 && |h| == 9 && h[0] == 9 && b[..9] == h && Parse(b[9..]) == Some(ds)
    ensures Parse(b) == Some([h] + ds)
  {
    assert b[0] == h[0];
  }
}
