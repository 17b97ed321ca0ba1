/**
  The composite gadget's configurations: registration, selection, endpoint bookkeeping and lookup.
  Callbacks (bind, set_alt) are given by their results.  A function belongs to one configuration and
  is known by its position there.
 */
module Composite {
  import opened Common
  import opened Bits
  import opened UsbDescriptors

  const MAX_CONFIG_INTERFACES := 16
  /** USB_GADGET_DELAYED_STATUS. */
  const DELAYED := 0x7fff

  datatype Func = Func(descriptors: Option<seq<Desc>>, hsDescriptors: Option<seq<Desc>>, endpoints: set<nat>)

  datatype Config = Config(value: nat, iConfiguration: Byte, bmAttributes: Byte, bMaxPower: Byte,
                           descriptors: Option<seq<Desc>>, functions: seq<Func>,
                           interface: seq<Option<nat>>, nextInterfaceId: nat, fullspeed: bool, highspeed: bool)

  function DescsAt(f: Func, high: bool): Option<seq<Desc>> {
    if high then f.hsDescriptors else f.descriptors
  }

  // ----- endpoints

  /** Direction bit and number of an endpoint address, as a bitmap position. */
  function PackEp(a: nat): nat {
    a / 128 % 2 * 16 + a % 16
  }

  /** An endpoint address proper: bits [6:4] are zero. */
  predicate IsEpAddr(a: nat) {
    a < 256 && a / 16 % 8 == 0
  }

  lemma PackEpValue(a: nat)
    requires IsEpAddr(a)
    ensures a < 16 || 128 <= a < 144
    ensures PackEp(a) == if a < 16 then a else a - 112
  {
  }

  lemma PackEpInjective(a: nat, b: nat)
    requires IsEpAddr(a) && IsEpAddr(b) && PackEp(a) == PackEp(b)
    ensures a == b
  {
    PackEpValue(a);
    PackEpValue(b);
  }

  /** The descriptors name endpoint address a. */
  predicate Names(ds: seq<Desc>, a: nat) {
    exists i :: 0 <= i < |ds| && ds[i][1] == USB_DT_ENDPOINT && ds[i][2] == a
  }

  ghost predicate HasBit(ds: seq<Desc>, e: nat) {
    exists i :: 0 <= i < |ds| && ds[i][1] == USB_DT_ENDPOINT && PackEp(ds[i][2]) == e
  }

  /** `eps` is exactly the bitmap of the endpoints that f's descriptors name. */
  ghost predicate Recorded(f: Func, high: bool, eps: set<nat>) {
    DescsAt(f, high).Some? && forall e :: e in eps <==> HasBit(DescsAt(f, high).value, e)
  }

  /** Sets the bit of every endpoint descriptor in the list. */
  method RecordEndpoints(ds: seq<Desc>, eps0: set<nat>) returns (eps: set<nat>)
    ensures forall e :: e in eps <==> e in eps0 || HasBit(ds, e)
  {
    eps := eps0;
    for i := 0 to |ds|
      invariant forall e :: e in eps <==> e in eps0 || exists j :: 0 <= j < i && ds[j][1] == USB_DT_ENDPOINT && PackEp(ds[j][2]) == e
    {
      if ds[i][1] == USB_DT_ENDPOINT {
        eps := eps + {PackEp(ds[i][2])};
      }
    }
  }

  // ----- invariants

  /** Interfaces are numbered densely from 0 and each belongs to a function of the configuration. */
  ghost predicate ConfigOk(c: Config) {
    && 0 < c.value < 256
    && |c.interface| == MAX_CONFIG_INTERFACES
    && c.nextInterfaceId <= MAX_CONFIG_INTERFACES
    && forall t :: 0 <= t < MAX_CONFIG_INTERFACES ==>
         (c.interface[t].Some? <==> t < c.nextInterfaceId) &&
         (c.interface[t].Some? ==> c.interface[t].value < |c.functions|)
  }

  /** Function i has one of the first n interfaces. */
  predicate Owns(c: Config, i: nat, n: nat) {
    exists t :: 0 <= t < n && t < |c.interface| && c.interface[t] == Some(i)
  }

  ghost predicate Quiet(c: Config) {
    forall i :: 0 <= i < |c.functions| ==> c.functions[i].endpoints == {}
  }

  /** The bitmaps of a configuration whose first n interfaces were brought up. */
  ghost predicate Armed(c: Config, high: bool, n: nat) {
    forall i :: 0 <= i < |c.functions| ==>
      if Owns(c, i, n) then Recorded(c.functions[i], high, c.functions[i].endpoints)
      else c.functions[i].endpoints == {}
  }

  ghost predicate Values(cs: seq<Config>) {
    forall i, j :: 0 <= i < j < |cs| ==> cs[i].value != cs[j].value
  }

  ghost predicate DevInv(cs: seq<Config>, active: Option<nat>, high: bool) {
    && (forall i :: 0 <= i < |cs| ==> ConfigOk(cs[i]))
    && Values(cs)
    && (active.Some? ==> active.value < |cs| && Armed(cs[active.value], high, MAX_CONFIG_INTERFACES))
    && (forall i :: 0 <= i < |cs| && active != Some(i) ==> Quiet(cs[i]))
  }

  /** Everything but the endpoint bitmaps. */
  function Plan(c: Config): Config {
    c.(functions := seq(|c.functions|, i requires 0 <= i < |c.functions| => c.functions[i].(endpoints := {})))
  }

  ghost predicate SamePlans(cs: seq<Config>, ds: seq<Config>) {
    |ds| == |cs| && forall i :: 0 <= i < |cs| ==> Plan(ds[i]) == Plan(cs[i])
  }

  /** A function of the configuration has descriptors for the given speed if it has an interface. */
  predicate Speaks(c: Config, high: bool) {
    forall i :: 0 <= i < |c.functions| && Owns(c, i, MAX_CONFIG_INTERFACES) ==> DescsAt(c.functions[i], high).Some?
  }

  lemma PlanFacts(c: Config, d: Config)
    requires Plan(c) == Plan(d)
    ensures |c.functions| == |d.functions| && c.interface == d.interface && c.value == d.value
    ensures c.nextInterfaceId == d.nextInterfaceId && c.fullspeed == d.fullspeed && c.highspeed == d.highspeed
    ensures forall i :: 0 <= i < |c.functions| ==>
      c.functions[i].descriptors == d.functions[i].descriptors && c.functions[i].hsDescriptors == d.functions[i].hsDescriptors
    ensures ConfigOk(c) <==> ConfigOk(d)
    ensures forall high :: Speaks(c, high) <==> Speaks(d, high)
  {
    forall i | 0 <= i < |c.functions|
      ensures c.functions[i].descriptors == d.functions[i].descriptors && c.functions[i].hsDescriptors == d.functions[i].hsDescriptors
    {
      assert Plan(c).functions[i] == Plan(d).functions[i];
    }
  }

  /** bitmap_zero for every function. */
  method Silence(c: Config) returns (d: Config)
    ensures d == Plan(c) && Plan(d) == Plan(c) && Quiet(d)
  {
    d := c;
    for i := 0 to |c.functions|
      invariant |d.functions| == |c.functions| && d == c.(functions := d.functions)
      invariant forall j :: 0 <= j < |c.functions| ==>
        d.functions[j] == if j < i then c.functions[j].(endpoints := {}) else c.functions[j]
    {
      d := d.(functions := d.functions[i := d.functions[i].(endpoints := {})]);
    }
    assert d.functions == Plan(c).functions;
  }

  /** Brings up interface n: records its function's endpoints. */
  method ArmOne(c: Config, high: bool, n: nat) returns (d: Config)
    requires ConfigOk(c) && n < c.nextInterfaceId && Armed(c, high, n) && Speaks(c, high)
    ensures Plan(d) == Plan(c) && Armed(d, high, n + 1)
  {
    var i := c.interface[n].value;
    var f := c.functions[i];
    assert Owns(c, i, MAX_CONFIG_INTERFACES);
    var eps := RecordEndpoints(DescsAt(f, high).value, f.endpoints);
    d := c.(functions := c.functions[i := f.(endpoints := eps)]);
    assert Plan(d).functions == Plan(c).functions;
    forall j | 0 <= j < |d.functions|
      ensures if Owns(d, j, n + 1) then Recorded(d.functions[j], high, d.functions[j].endpoints)
              else d.functions[j].endpoints == {}
    {
      assert Owns(c, j, n) ==> Owns(d, j, n + 1);
      assert Owns(d, j, n + 1) ==> Owns(c, j, n) || j == i;
      if j == i {
        assert d.interface[n] == Some(i);
      }
    }
  }

  /** The bits are those of the endpoint descriptors (type 5) in the list: direction times 16, plus number. */
  ghost predicate BitsFrom(endpoints: set<nat>, ds: seq<Desc>) {
    forall e :: e in endpoints <==>
      exists k :: 0 <= k < |ds| && ds[k][1] == 5 && e == ds[k][2] / 128 % 2 * 16 + ds[k][2] % 16
  }

  /** At high speed the bits go by a function's high-speed list, else by its full-speed list; none without an interface. */
  ghost predicate BitsNamed(c: Config, high: bool) {
    forall i :: 0 <= i < |c.functions| ==>
      var f := c.functions[i];
      if exists t :: 0 <= t < |c.interface| && c.interface[t] == Some(i) then
        && (high ==> f.hsDescriptors.Some? && BitsFrom(f.endpoints, f.hsDescriptors.value))
        && (!high ==> f.descriptors.Some? && BitsFrom(f.endpoints, f.descriptors.value))
      else f.endpoints == {}
  }

  lemma ArmedBits(c: Config, high: bool)
    requires ConfigOk(c) && Armed(c, high, MAX_CONFIG_INTERFACES)
    ensures BitsNamed(c, high)
  {
    forall i | 0 <= i < |c.functions|
      ensures var f := c.functions[i];
              if exists t :: 0 <= t < |c.interface| && c.interface[t] == Some(i) then
                && (high ==> f.hsDescriptors.Some? && BitsFrom(f.endpoints, f.hsDescriptors.value))
                && (!high ==> f.descriptors.Some? && BitsFrom(f.endpoints, f.descriptors.value))
              else f.endpoints == {}
    {
      var f := c.functions[i];
      assert Owns(c, i, MAX_CONFIG_INTERFACES) <==> exists t :: 0 <= t < |c.interface| && c.interface[t] == Some(i);
      if Owns(c, i, MAX_CONFIG_INTERFACES) {
        RecordedBits(f.endpoints, DescsAt(f, high).value);
      }
    }
  }

  lemma RecordedBits(endpoints: set<nat>, ds: seq<Desc>)
    requires forall e :: e in endpoints <==> HasBit(ds, e)
    ensures BitsFrom(endpoints, ds)
  {
    forall e ensures e in endpoints <==>
      exists k :: 0 <= k < |ds| && ds[k][1] == 5 && e == ds[k][2] / 128 % 2 * 16 + ds[k][2] % 16
    {
      if HasBit(ds, e) {
        var k :| 0 <= k < |ds| && ds[k][1] == USB_DT_ENDPOINT && PackEp(ds[k][2]) == e;
      }
      if k :| 0 <= k < |ds| && ds[k][1] == 5 && e == ds[k][2] / 128 % 2 * 16 + ds[k][2] % 16 {
        assert PackEp(ds[k][2]) == e;
      }
    }
  }

  /** The bits of the endpoints that a function's descriptors name. */
  ghost function Eps(f: Func, high: bool): set<nat> {
    match DescsAt(f, high)
    case None => {}
    case Some(ds) => set i | 0 <= i < |ds| && ds[i][1] == USB_DT_ENDPOINT :: PackEp(ds[i][2])
  }

  /** A configuration with all its interfaces up. */
  ghost function Arm(c: Config, high: bool): Config {
    c.(functions := seq(|c.functions|, i requires 0 <= i < |c.functions| =>
      c.functions[i].(endpoints := if Owns(c, i, MAX_CONFIG_INTERFACES) then Eps(c.functions[i], high) else {})))
  }

  lemma EpsRecorded(f: Func, high: bool, eps: set<nat>)
    requires DescsAt(f, high).Some?
    ensures Recorded(f, high, eps) <==> eps == Eps(f, high)
  {
    var ds := DescsAt(f, high).value;
    forall e ensures e in Eps(f, high) <==> HasBit(ds, e) {
      if HasBit(ds, e) {
        var i :| 0 <= i < |ds| && ds[i][1] == USB_DT_ENDPOINT && PackEp(ds[i][2]) == e;
      }
    }
  }

  lemma SameRecord(f: Func, g: Func, high: bool, eps: set<nat>)
    requires f.descriptors == g.descriptors && f.hsDescriptors == g.hsDescriptors
    ensures Recorded(f, high, eps) <==> Recorded(g, high, eps)
    ensures Eps(f, high) == Eps(g, high)
  {
  }

  /** The bitmaps of an armed configuration are no matter of history. */
  lemma ArmUnique(c0: Config, c: Config, high: bool)
    requires Plan(c) == Plan(c0) && Armed(c, high, MAX_CONFIG_INTERFACES)
    ensures c == Arm(c0, high)
  {
    PlanFacts(c, c0);
    var n := MAX_CONFIG_INTERFACES;
    forall i | 0 <= i < |c.functions| ensures c.functions[i] == Arm(c0, high).functions[i] {
      assert Owns(c, i, n) <==> Owns(c0, i, n);
      SameRecord(c.functions[i], c0.functions[i], high, c.functions[i].endpoints);
      if Owns(c, i, n) {
        EpsRecorded(c.functions[i], high, c.functions[i].endpoints);
      }
    }
    assert c.functions == Arm(c0, high).functions;
    PlanFields(c, c0);
  }

  lemma PlanFields(c: Config, d: Config)
    requires Plan(c) == Plan(d)
    ensures c == d.(functions := c.functions)
  {
    assert c == Plan(c).(functions := c.functions);
    assert d.(functions := c.functions) == Plan(d).(functions := c.functions);
  }

  lemma ArmIs(c: Config, high: bool)
    requires Speaks(c, high)
    ensures Plan(Arm(c, high)) == Plan(c) && Armed(Arm(c, high), high, MAX_CONFIG_INTERFACES)
  {
    var d, n := Arm(c, high), MAX_CONFIG_INTERFACES;
    assert Plan(d).functions == Plan(c).functions;
    forall i | 0 <= i < |d.functions|
      ensures if Owns(d, i, n) then Recorded(d.functions[i], high, d.functions[i].endpoints)
              else d.functions[i].endpoints == {}
    {
      assert Owns(d, i, n) <==> Owns(c, i, n);
      if Owns(c, i, n) {
        SameRecord(d.functions[i], c.functions[i], high, d.functions[i].endpoints);
        EpsRecorded(d.functions[i], high, d.functions[i].endpoints);
      }
    }
  }

  lemma QuietIsPlan(c: Config)
    requires Quiet(c)
    ensures Plan(c) == c
  {
    assert Plan(c).functions == c.functions;
  }

  /** set_alt accepts every interface the configuration has. */
  ghost predicate AllUp(c: Config, alts: seq<int>)
    requires |alts| == MAX_CONFIG_INTERFACES
  {
    forall t :: 0 <= t < c.nextInterfaceId && t < MAX_CONFIG_INTERFACES ==> alts[t] >= 0
  }

  /** How many interfaces from t on ask for a delayed status before one refuses. */
  function Delays(c: Config, alts: seq<int>, t: nat): nat
    requires |alts| == MAX_CONFIG_INTERFACES
    decreases MAX_CONFIG_INTERFACES - t
  {
    if t >= MAX_CONFIG_INTERFACES || t >= c.nextInterfaceId || alts[t] < 0 then 0
    else (if alts[t] == DELAYED then 1 else 0) + Delays(c, alts, t + 1)
  }

  predicate NoneRefuses(alts: seq<int>, t: nat, u: nat) {
    forall v :: t <= v < u && v < |alts| ==> alts[v] >= 0
  }

  /** The interfaces from t on, before the first refusal, that ask for a delayed status. */
  ghost function Delaying(c: Config, alts: seq<int>, t: nat): set<nat>
    requires |alts| == MAX_CONFIG_INTERFACES
  {
    set u: nat | u < MAX_CONFIG_INTERFACES && t <= u < c.nextInterfaceId && alts[u] == 0x7fff && NoneRefuses(alts, t, u)
  }

  lemma DelayingStep(c: Config, alts: seq<int>, t: nat)
    requires |alts| == MAX_CONFIG_INTERFACES && t < MAX_CONFIG_INTERFACES && t < c.nextInterfaceId && alts[t] >= 0
    ensures t !in Delaying(c, alts, t + 1)
    ensures Delaying(c, alts, t) == Delaying(c, alts, t + 1) + (if alts[t] == 0x7fff then {t} else {})
  {
    forall u: nat ensures u > t ==> (NoneRefuses(alts, t, u) <==> NoneRefuses(alts, t + 1, u)) {
      if u > t && NoneRefuses(alts, t + 1, u) {
        forall v | t <= v < u && v < |alts| ensures alts[v] >= 0 {
        }
      }
    }
  }

  lemma DelayingNone(c: Config, alts: seq<int>, t: nat)
    requires |alts| == MAX_CONFIG_INTERFACES
    requires t >= MAX_CONFIG_INTERFACES || t >= c.nextInterfaceId || alts[t] < 0
    ensures Delaying(c, alts, t) == {}
  {
  }

  lemma {:induction false} DelaysCount(c: Config, alts: seq<int>, t: nat)
    requires |alts| == MAX_CONFIG_INTERFACES
    ensures Delays(c, alts, t) == |Delaying(c, alts, t)|
    decreases MAX_CONFIG_INTERFACES - t
  {
    if t >= MAX_CONFIG_INTERFACES || t >= c.nextInterfaceId || alts[t] < 0 {
      DelayingNone(c, alts, t);
    } else {
      DelaysCount(c, alts, t + 1);
      DelayingStep(c, alts, t);
    }
  }

  /** Sets every interface to altsetting zero, up to the first free number; on a refusal all bitmaps are cleared. */
  method RaiseAll(c0: Config, high: bool, alts: seq<int>) returns (c: Config, result: int, delays: nat)
    requires ConfigOk(c0) && Quiet(c0) && Speaks(c0, high) && |alts| == MAX_CONFIG_INTERFACES
    ensures result >= 0 <==> AllUp(c0, alts)
    ensures c == if result >= 0 then Arm(c0, high) else c0
    ensures delays == Delays(c0, alts, 0)
  {
    c, result, delays := c0, 0, 0;
    var t: nat := 0;
    while t < MAX_CONFIG_INTERFACES && c.interface[t].Some? && result >= 0
      invariant Raising(c0, c, high, alts, t, result, delays)
      decreases MAX_CONFIG_INTERFACES - t
    {
      ghost var was, before := c, delays;
      c := ArmOne(c, high, t);
      result := alts[t];
      if result == DELAYED {
        delays := delays + 1;
      }
      RaisingMore(c0, was, c, high, alts, t, before);
      t := t + 1;
    }
    if result < 0 {
      c := Silence(c);
      QuietIsPlan(c0);
    } else {
      FullyUp(c0, c, high);
    }
  }

  /** Interfaces below t were asked; result is the last answer, `delays` counts those asking for a delayed status. */
  ghost predicate Raising(c0: Config, c: Config, high: bool, alts: seq<int>, t: nat, result: int, delays: nat)
    requires |alts| == MAX_CONFIG_INTERFACES
  {
    && Plan(c) == Plan(c0) && ConfigOk(c) && Speaks(c, high)
    && t <= c.nextInterfaceId == c0.nextInterfaceId
    && if result >= 0 then
         && Armed(c, high, t) && (forall u :: 0 <= u < t ==> alts[u] >= 0)
         && delays + Delays(c0, alts, t) == Delays(c0, alts, 0)
       else t > 0 && alts[t - 1] < 0 && delays == Delays(c0, alts, 0)
  }

  lemma RaisingMore(c0: Config, c: Config, d: Config, high: bool, alts: seq<int>, t: nat, delays: nat)
    requires |alts| == MAX_CONFIG_INTERFACES && t < MAX_CONFIG_INTERFACES && c.nextInterfaceId > t
    requires Raising(c0, c, high, alts, t, 0, delays) && Plan(d) == Plan(c) && Armed(d, high, t + 1)
    ensures Raising(c0, d, high, alts, t + 1, alts[t], delays + if alts[t] == DELAYED then 1 else 0)
  {
    PlanFacts(d, c);
    DelaysStep(c0, alts, t);
  }

  lemma FullyUp(c0: Config, c: Config, high: bool)
    requires ConfigOk(c) && Plan(c) == Plan(c0) && Armed(c, high, c.nextInterfaceId)
    ensures c == Arm(c0, high)
  {
    ArmedAll(c, high, c.nextInterfaceId);
    ArmUnique(c0, c, high);
  }

  /** The i-th answer is counted if it asks for a delayed status. */
  lemma DelaysStep(c: Config, alts: seq<int>, t: nat)
    requires |alts| == MAX_CONFIG_INTERFACES && t < c.nextInterfaceId && t < MAX_CONFIG_INTERFACES
    ensures Delays(c, alts, t) == if alts[t] < 0 then 0 else (if alts[t] == DELAYED then 1 else 0) + Delays(c, alts, t + 1)
  {
  }

  /** Stopping at the first free interface number misses none. */
  lemma ArmedAll(c: Config, high: bool, n: nat)
    requires ConfigOk(c) && n == c.nextInterfaceId && Armed(c, high, n)
    ensures Armed(c, high, MAX_CONFIG_INTERFACES)
  {
    forall i | 0 <= i < |c.functions| ensures Owns(c, i, MAX_CONFIG_INTERFACES) <==> Owns(c, i, n) {
    }
  }

  // ----- functions and interfaces

  /** What bind asks of a new function: its descriptors and how many interface IDs it takes. */
  datatype Addition = Addition(descriptors: Option<seq<Desc>>, hsDescriptors: Option<seq<Desc>>,
                               callbacks: bool, ids: nat, status: int)

  /** The configuration once function f has been given n more interface numbers, as far as they last. */
  function Granted(c: Config, f: nat, n: nat): Config
    requires |c.interface| == MAX_CONFIG_INTERFACES && c.nextInterfaceId <= MAX_CONFIG_INTERFACES
  {
    c.(interface := seq(MAX_CONFIG_INTERFACES, t requires 0 <= t < MAX_CONFIG_INTERFACES =>
                      if c.nextInterfaceId <= t < c.nextInterfaceId + n then Some(f) else c.interface[t]),
       nextInterfaceId := Min(c.nextInterfaceId + n, MAX_CONFIG_INTERFACES))
  }

  lemma GrantedMore(c: Config, f: nat, n: nat)
    requires |c.interface| == MAX_CONFIG_INTERFACES && c.nextInterfaceId <= MAX_CONFIG_INTERFACES
    ensures Granted(c, f, 0) == c
    ensures Granted(Granted(c, f, n), f, 1) == Granted(c, f, n + 1)
  {
    assert Granted(c, f, 0).interface == c.interface;
    assert Granted(Granted(c, f, n), f, 1).interface == Granted(c, f, n + 1).interface;
  }

  /** usb_interface_id for the function at position f. */
  method InterfaceId(c: Config, f: nat) returns (d: Config, id: int)
    requires ConfigOk(c)
    ensures d == Granted(c, f, 1)
    ensures id == if c.nextInterfaceId < MAX_CONFIG_INTERFACES then c.nextInterfaceId else -ENODEV
    ensures id >= 0 ==> c.interface[id] == None && d.interface[id] == Some(f) && d.nextInterfaceId == id + 1
    ensures f < |c.functions| ==> ConfigOk(d)
  {
    d := c;
    if c.nextInterfaceId < MAX_CONFIG_INTERFACES {
      id := c.nextInterfaceId;
      d := d.(interface := d.interface[id := Some(f)]);
      d := d.(nextInterfaceId := id + 1);
    } else {
      id := -ENODEV;
    }
    assert d.interface == Granted(c, f, 1).interface;
  }

  /** The configuration with one more function; a failing bind leaves none, but its speeds count. */
  function Added(c: Config, a: Addition): Config
    requires |c.interface| == MAX_CONFIG_INTERFACES && c.nextInterfaceId <= MAX_CONFIG_INTERFACES
  {
    if !a.callbacks then c
    else
      var f := Func(a.descriptors, a.hsDescriptors, {});
      var d := if a.status < 0 then c else Granted(c.(functions := c.functions + [f]), |c.functions|, a.ids);
      d.(fullspeed := c.fullspeed || a.descriptors.Some?, highspeed := c.highspeed || a.hsDescriptors.Some?)
  }

  lemma AddedKeeps(c: Config, a: Addition)
    requires ConfigOk(c) && Quiet(c)
    ensures ConfigOk(Added(c, a)) && Quiet(Added(c, a)) && Added(c, a).value == c.value
  {
  }

  /** usb_add_function; a failing bind takes no interface ID. */
  method AddFunction(c: Config, a: Addition) returns (d: Config, status: int)
    requires ConfigOk(c) && Quiet(c) && (a.status < 0 ==> a.ids == 0)
    ensures d == Added(c, a) && ConfigOk(d) && Quiet(d)
    ensures status == if a.callbacks then a.status else -EINVAL
    ensures status >= 0 ==> |d.functions| == |c.functions| + 1
    ensures forall t :: 0 <= t < MAX_CONFIG_INTERFACES ==>
      (d.interface[t] == Some(|c.functions|) <==> status >= 0 && c.nextInterfaceId <= t < c.nextInterfaceId + a.ids)
  {
    AddedKeeps(c, a);
    d := c;
    if !a.callbacks {
      return d, -EINVAL;
    }
    d := d.(functions := d.functions + [Func(a.descriptors, a.hsDescriptors, {})]);
    ghost var c1 := d;
    GrantedMore(c1, |c.functions|, 0);
    for i := 0 to a.ids
      invariant ConfigOk(d) && d == Granted(c1, |c.functions|, i)
    {
      GrantedMore(c1, |c.functions|, i);
      var id;
      d, id := InterfaceId(d, |c.functions|);
    }
    status := a.status;
    if status < 0 {
      assert d.functions[..|c.functions|] == c.functions;
      d := d.(functions := d.functions[..|c.functions|]);
    }
    d := d.(fullspeed := d.fullspeed || a.descriptors.Some?, highspeed := d.highspeed || a.hsDescriptors.Some?);
  }

  /** The configuration that a bind with these additions builds. */
  function Built(c: Config, adds: seq<Addition>): (d: Config)
    requires |c.interface| == MAX_CONFIG_INTERFACES && c.nextInterfaceId <= MAX_CONFIG_INTERFACES
    ensures |d.interface| == MAX_CONFIG_INTERFACES && d.nextInterfaceId <= MAX_CONFIG_INTERFACES
  {
    if adds == [] then c else Added(Built(c, adds[..|adds| - 1]), adds[|adds| - 1])
  }

  lemma {:induction false} BuiltKeeps(c: Config, adds: seq<Addition>)
    requires ConfigOk(c) && Quiet(c)
    ensures ConfigOk(Built(c, adds)) && Quiet(Built(c, adds)) && Built(c, adds).value == c.value
  {
    if adds != [] {
      BuiltKeeps(c, adds[..|adds| - 1]);
      AddedKeeps(Built(c, adds[..|adds| - 1]), adds[|adds| - 1]);
    }
  }

  // ----- what a bind builds, in terms of its additions

  /** The addition leaves a function: its callbacks are there and its bind succeeds. */
  predicate Accepted(a: Addition) {
    a.callbacks && a.status >= 0
  }

  /** Interface IDs taken by the first n additions. */
  function Taken(adds: seq<Addition>, n: nat): nat
    requires n <= |adds|
  {
    if n == 0 then 0 else Taken(adds, n - 1) + if Accepted(adds[n - 1]) then adds[n - 1].ids else 0
  }

  lemma {:induction false} TakenFront(adds: seq<Addition>, n: nat, m: nat)
    requires m <= n <= |adds|
    ensures Taken(adds[..n], m) == Taken(adds, m) <= Taken(adds, n)
  {
    if m > 0 {
      TakenFront(adds, n, m - 1);
    }
    TakenGrows(adds, m, n);
  }

  lemma {:induction false} TakenGrows(adds: seq<Addition>, m: nat, n: nat)
    requires m <= n <= |adds|
    ensures Taken(adds, m) <= Taken(adds, n)
  {
    if m < n {
      TakenGrows(adds, m, n - 1);
    }
  }

  ghost predicate Lists(at: seq<nat>, i: nat) {
    exists k :: 0 <= k < |at| && at[k] == i
  }

  ghost predicate AllAccepted(at: seq<nat>, adds: seq<Addition>) {
    forall k :: 0 <= k < |at| ==> at[k] < |adds| && Accepted(adds[at[k]])
  }

  /** `at` lists, in order, the additions that leave a function. */
  ghost predicate Picks(at: seq<nat>, adds: seq<Addition>) {
    && (forall i, j :: 0 <= i < j < |at| ==> at[i] < at[j])
    && AllAccepted(at, adds)
    && (forall i: nat :: i < |adds| ==> (Lists(at, i) <==> Accepted(adds[i])))
  }

  /** Function k is the one of addition at[k], with its own descriptor lists. */
  ghost predicate FunctionsFrom(fs: seq<Func>, adds: seq<Addition>, at: seq<nat>)
    requires AllAccepted(at, adds)
  {
    && |fs| == |at|
    && forall k :: 0 <= k < |at| ==>
         fs[k].descriptors == adds[at[k]].descriptors && fs[k].hsDescriptors == adds[at[k]].hsDescriptors && fs[k].endpoints == {}
  }

  /** It has the interfaces that the additions before it left, as many as it took, as far as they last. */
  ghost predicate InterfacesFrom(c: Config, adds: seq<Addition>, at: seq<nat>)
    requires AllAccepted(at, adds)
  {
    && |c.interface| == MAX_CONFIG_INTERFACES && c.nextInterfaceId == Min(MAX_CONFIG_INTERFACES, Taken(adds, |adds|))
    && forall k: nat, t: nat {:trigger Spot(c, adds, at[k], k, t)} ::
         k < |at| && t < MAX_CONFIG_INTERFACES ==> Spot(c, adds, at[k], k, t)
  }

  /** Interface t belongs to function k exactly if it is among those that addition i took. */
  ghost predicate Spot(c: Config, adds: seq<Addition>, i: nat, k: nat, t: nat)
    requires i < |adds| && t < |c.interface|
  {
    c.interface[t] == Some(k) <==> Taken(adds, i) <= t < Taken(adds, i) + adds[i].ids
  }

  /** The header is the draft's; a speed is supported if the draft says so or an addition has descriptors for it. */
  ghost predicate HeaderFrom(c: Config, draft: Config, adds: seq<Addition>) {
    && c.value == draft.value && c.iConfiguration == draft.iConfiguration && c.bmAttributes == draft.bmAttributes
    && c.bMaxPower == draft.bMaxPower && c.descriptors == draft.descriptors
    && (c.fullspeed <==> draft.fullspeed || exists i :: 0 <= i < |adds| && adds[i].callbacks && adds[i].descriptors.Some?)
    && (c.highspeed <==> draft.highspeed || exists i :: 0 <= i < |adds| && adds[i].callbacks && adds[i].hsDescriptors.Some?)
  }

  /** The configuration has the draft's header and exactly the functions that the additions leave, in order. */
  ghost predicate BuiltFrom(c: Config, draft: Config, adds: seq<Addition>) {
    && HeaderFrom(c, draft, adds)
    && exists at :: Picks(at, adds) && FunctionsFrom(c.functions, adds, at) && InterfacesFrom(c, adds, at)
  }

  lemma {:induction false} BuiltHeader(draft: Config, adds: seq<Addition>)
    ensures HeaderFrom(Built(Blank(draft), adds), draft, adds)
  {
    if adds != [] {
      var n := |adds| - 1;
      BuiltHeader(draft, adds[..n]);
      var c, d, a := Built(Blank(draft), adds[..n]), Built(Blank(draft), adds), adds[n];
      assert forall i :: 0 <= i < n ==> adds[..n][i] == adds[i];
      assert d.fullspeed <==> c.fullspeed || (a.callbacks && a.descriptors.Some?);
      assert d.highspeed <==> c.highspeed || (a.callbacks && a.hsDescriptors.Some?);
    }
  }

  lemma ListsMore(at: seq<nat>, n: nat, i: nat)
    ensures Lists(at + [n], i) <==> Lists(at, i) || i == n
  {
    var next := at + [n];
    assert next[|at|] == n;
    if k :| 0 <= k < |at| && at[k] == i {
      assert next[k] == i;
    }
    if k :| 0 <= k < |next| && next[k] == i {
      assert k < |at| ==> at[k] == i;
    }
  }

  lemma ListsBelow(at: seq<nat>, n: nat)
    requires forall k :: 0 <= k < |at| ==> at[k] < n
    ensures !Lists(at, n)
  {
  }

  lemma PicksMore(at: seq<nat>, adds: seq<Addition>, n: nat) returns (next: seq<nat>)
    requires |adds| == n + 1 && Picks(at, adds[..n])
    ensures next == (if Accepted(adds[n]) then at + [n] else at) && Picks(next, adds)
  {
    next := if Accepted(adds[n]) then at + [n] else at;
    ListsBelow(at, n);
    forall k | 0 <= k < |next| ensures next[k] < |adds| && Accepted(adds[next[k]]) {
      assert k < |at| ==> adds[..n][at[k]] == adds[at[k]];
    }
    forall i: nat | i < |adds| ensures Lists(next, i) <==> Accepted(adds[i]) {
      ListsMore(at, n, i);
      if i < n {
        assert adds[..n][i] == adds[i];
      }
    }
  }

  lemma FunctionsMore(c: Config, adds: seq<Addition>, n: nat, at: seq<nat>, next: seq<nat>)
    requires |adds| == n + 1 && ConfigOk(c) && AllAccepted(at, adds[..n]) && FunctionsFrom(c.functions, adds[..n], at)
    requires next == (if Accepted(adds[n]) then at + [n] else at) && AllAccepted(next, adds)
    ensures FunctionsFrom(Added(c, adds[n]).functions, adds, next)
  {
  }

  /** What the earlier additions took is the same with one more addition, and lies below what that one takes. */
  lemma TakenBelow(adds: seq<Addition>, n: nat, at: seq<nat>, k: nat)
    requires |adds| == n + 1 && AllAccepted(at, adds[..n]) && k < |at|
    ensures adds[..n][at[k]] == adds[at[k]] && Taken(adds[..n], at[k]) == Taken(adds, at[k])
    ensures Taken(adds, at[k]) + adds[at[k]].ids <= Taken(adds, n) == Taken(adds[..n], n)
  {
    TakenFront(adds, n, at[k]);
    TakenFront(adds, n, n);
    TakenGrows(adds, at[k] + 1, n);
  }

  lemma OldCase(c: Config, adds: seq<Addition>, n: nat, at: seq<nat>, k: nat, t: nat)
    requires |adds| == n + 1 && ConfigOk(c) && AllAccepted(at, adds[..n]) && |c.functions| == |at|
    requires InterfacesFrom(c, adds[..n], at) && k < |at| && t < MAX_CONFIG_INTERFACES
    ensures at[k] < |adds| && Spot(Added(c, adds[n]), adds, at[k], k, t)
  {
    TakenFront(adds, n, n);
    TakenBelow(adds, n, at, k);
    assert Spot(c, adds[..n], at[k], k, t);
    OldInterface(c, adds[n], k, t, Taken(adds, at[k]), Taken(adds, at[k]) + adds[at[k]].ids, Taken(adds, n));
  }

  lemma NewCase(c: Config, adds: seq<Addition>, n: nat, t: nat)
    requires |adds| == n + 1 && ConfigOk(c) && c.nextInterfaceId == Min(MAX_CONFIG_INTERFACES, Taken(adds[..n], n))
    requires Accepted(adds[n]) && t < MAX_CONFIG_INTERFACES
    ensures Spot(Added(c, adds[n]), adds, n, |c.functions|, t)
  {
    TakenFront(adds, n, n);
    NewInterface(c, adds[n], t, Taken(adds, n));
  }

  lemma CountMore(c: Config, adds: seq<Addition>, n: nat)
    requires |adds| == n + 1 && ConfigOk(c) && c.nextInterfaceId == Min(MAX_CONFIG_INTERFACES, Taken(adds[..n], n))
    ensures |Added(c, adds[n]).interface| == MAX_CONFIG_INTERFACES
    ensures Added(c, adds[n]).nextInterfaceId == Min(MAX_CONFIG_INTERFACES, Taken(adds, n + 1))
  {
    TakenFront(adds, n, n);
  }

  lemma InterfacesMore(c: Config, adds: seq<Addition>, n: nat, at: seq<nat>, next: seq<nat>, d: Config)
    requires |adds| == n + 1 && ConfigOk(c) && AllAccepted(at, adds[..n]) && |c.functions| == |at|
    requires InterfacesFrom(c, adds[..n], at)
    requires next == (if Accepted(adds[n]) then at + [n] else at) && AllAccepted(next, adds) && d == Added(c, adds[n])
    ensures InterfacesFrom(d, adds, next)
  {
    CountMore(c, adds, n);
    forall k: nat, t: nat | k < |next| && t < MAX_CONFIG_INTERFACES ensures Spot(d, adds, next[k], k, t) {
      if k < |at| {
        OldCase(c, adds, n, at, k, t);
      } else {
        NewCase(c, adds, n, t);
      }
    }
  }

  /** Interfaces of an earlier function stay as they are. */
  lemma OldInterface(c: Config, a: Addition, k: nat, t: nat, lo: nat, hi: nat, taken: nat)
    requires ConfigOk(c) && t < MAX_CONFIG_INTERFACES && k < |c.functions|
    requires hi <= taken && c.nextInterfaceId == Min(MAX_CONFIG_INTERFACES, taken)
    requires c.interface[t] == Some(k) <==> lo <= t < hi
    ensures Added(c, a).interface[t] == Some(k) <==> lo <= t < hi
  {
  }

  /** A new function gets the next numbers. */
  lemma NewInterface(c: Config, a: Addition, t: nat, taken: nat)
    requires ConfigOk(c) && t < MAX_CONFIG_INTERFACES && Accepted(a) && c.nextInterfaceId == Min(MAX_CONFIG_INTERFACES, taken)
    ensures Added(c, a).interface[t] == Some(|c.functions|) <==> taken <= t < taken + a.ids
  {
  }

  lemma BuiltMeans(draft: Config, adds: seq<Addition>)
    requires 0 < draft.value < 256
    ensures BuiltFrom(Built(Blank(draft), adds), draft, adds)
  {
    BuiltHeader(draft, adds);
    var at := BuiltFunctions(draft, adds);
  }

  lemma {:induction false} BuiltFunctions(draft: Config, adds: seq<Addition>) returns (at: seq<nat>)
    requires 0 < draft.value < 256
    ensures var c := Built(Blank(draft), adds);
            Picks(at, adds) && FunctionsFrom(c.functions, adds, at) && InterfacesFrom(c, adds, at)
  {
    at := [];
    if adds != [] {
      var n := |adds| - 1;
      var front := BuiltFunctions(draft, adds[..n]);
      var c := Built(Blank(draft), adds[..n]);
      BuiltKeeps(Blank(draft), adds[..n]);
      at := PicksMore(front, adds, n);
      FunctionsMore(c, adds, n, front, at);
      InterfacesMore(c, adds, n, front, at, Added(c, adds[n]));
    }
  }

  function Blank(draft: Config): Config {
    draft.(functions := [], nextInterfaceId := 0, interface := seq(MAX_CONFIG_INTERFACES, i => None))
  }

  // ----- the device as a value

  datatype Device = Device(configs: seq<Config>, active: Option<nat>, high: bool, delayed: nat)

  const Unconfigured := Device([], None, false, 0)

  ghost predicate Sound(d: Device) {
    DevInv(d.configs, d.active, d.high)
  }

  /** Index of the first configuration with the given number. */
  function IndexOf(cs: seq<Config>, number: nat): (r: Option<nat>)
    ensures r.Some? ==> r.value < |cs| && cs[r.value].value == number
    ensures r.None? ==> forall i :: 0 <= i < |cs| ==> cs[i].value != number
  {
    if cs == [] then None
    else
      var r := IndexOf(cs[..|cs| - 1], number);
      if r.Some? then r else if cs[|cs| - 1].value == number then Some(|cs| - 1) else None
  }

  lemma {:induction false} IndexOfFirst(cs: seq<Config>, number: nat, i: nat)
    requires i < |cs| && cs[i].value == number && forall j :: 0 <= j < i ==> cs[j].value != number
    ensures IndexOf(cs, number) == Some(i)
  {
    if i < |cs| - 1 {
      IndexOfFirst(cs[..|cs| - 1], number, i);
    }
  }

  method FindValue(cs: seq<Config>, number: nat) returns (r: Option<nat>)
    ensures r == IndexOf(cs, number)
  {
    for i := 0 to |cs|
      invariant forall j :: 0 <= j < i ==> cs[j].value != number
    {
      if cs[i].value == number {
        IndexOfFirst(cs, number, i);
        return Some(i);
      }
    }
    r := None;
  }

  /** No configuration is active any more. */
  function Reset(d: Device): Device
    requires d.active.Some? ==> d.active.value < |d.configs|
  {
    if d.active.None? then d
    else d.(configs := d.configs[d.active.value := Plan(d.configs[d.active.value])], active := None)
  }

  lemma ResetKeeps(d: Device)
    requires Sound(d)
    ensures Sound(Reset(d)) && SamePlans(d.configs, Reset(d).configs)
  {
    if d.active.Some? {
      var a := d.active.value;
      PlanOnce(d.configs[a]);
      PlanFacts(d.configs[a], Plan(d.configs[a]));
    }
  }

  lemma PlanOnce(c: Config)
    ensures Plan(Plan(c)) == Plan(c) && Quiet(Plan(c))
  {
    assert Plan(Plan(c)).functions == Plan(c).functions;
  }

  /** Configuration a, of an idle device, after set_alt was asked for its interfaces. */
  ghost function Raised(d: Device, a: nat, alts: seq<int>): Device
    requires a < |d.configs| && |alts| == MAX_CONFIG_INTERFACES
  {
    var e := d.(delayed := d.delayed + Delays(d.configs[a], alts, 0));
    if AllUp(d.configs[a], alts) then e.(configs := d.configs[a := Arm(d.configs[a], d.high)], active := Some(a)) else e
  }

  lemma RaisedKeeps(d: Device, a: nat, alts: seq<int>)
    requires Sound(d) && d.active == None && a < |d.configs| && |alts| == MAX_CONFIG_INTERFACES
    requires Speaks(d.configs[a], d.high)
    ensures Sound(Raised(d, a, alts)) && SamePlans(d.configs, Raised(d, a, alts).configs)
  {
    ArmIs(d.configs[a], d.high);
    PlanFacts(d.configs[a], Arm(d.configs[a], d.high));
  }

  /** SET_CONFIGURATION. */
  ghost function Configured(d: Device, number: nat, alts: seq<int>): Device
    requires (d.active.Some? ==> d.active.value < |d.configs|) && |alts| == MAX_CONFIG_INTERFACES
  {
    var e := Reset(d);
    match IndexOf(e.configs, number)
    case None => e
    case Some(a) => if number == 0 then e else Raised(e, a, alts)
  }

  /** The functions that a SET_CONFIGURATION would bring up have descriptors for the speed in use. */
  predicate Handles(d: Device, number: nat) {
    forall i :: 0 <= i < |d.configs| && d.configs[i].value == number ==> Speaks(d.configs[i], d.high)
  }

  lemma ConfiguredKeeps(d: Device, number: nat, alts: seq<int>)
    requires Sound(d) && Handles(d, number) && |alts| == MAX_CONFIG_INTERFACES
    ensures Sound(Configured(d, number, alts)) && SamePlans(d.configs, Configured(d, number, alts).configs)
  {
    ResetKeeps(d);
    var e := Reset(d);
    var r := IndexOf(e.configs, number);
    if r.Some? {
      PlanFacts(d.configs[r.value], e.configs[r.value]);
      RaisedKeeps(e, r.value, alts);
    }
  }

  /** The condition under which SET_CONFIGURATION with a nonzero number activates a configuration. */
  ghost predicate Accepts(d: Device, number: nat, alts: seq<int>, i: nat)
    requires |alts| == MAX_CONFIG_INTERFACES
  {
    number != 0 && i < |d.configs| && d.configs[i].value == number && AllUp(d.configs[i], alts)
  }

  ghost predicate Succeeds(d: Device, number: nat, alts: seq<int>)
    requires |alts| == MAX_CONFIG_INTERFACES
  {
    exists i :: Accepts(d, number, alts, i)
  }

  lemma SucceedsAt(d: Device, e: Device, number: nat, alts: seq<int>, a: nat)
    requires Sound(d) && e == Reset(d) && |alts| == MAX_CONFIG_INTERFACES && number != 0
    requires IndexOf(e.configs, number) == Some(a)
    ensures Succeeds(d, number, alts) <==> AllUp(e.configs[a], alts)
    ensures Handles(d, number) ==> Speaks(e.configs[a], e.high)
  {
    ResetKeeps(d);
    PlanFacts(d.configs[a], e.configs[a]);
    if AllUp(e.configs[a], alts) {
      assert Accepts(d, number, alts, a);
    }
    if i: nat :| Accepts(d, number, alts, i) {
      PlanFacts(d.configs[i], e.configs[i]);
      UniqueIndex(e.configs, number, i);
    }
  }

  lemma NeverSucceeds(d: Device, e: Device, number: nat, alts: seq<int>)
    requires Sound(d) && e == Reset(d) && |alts| == MAX_CONFIG_INTERFACES && IndexOf(e.configs, number) == None
    ensures !Succeeds(d, number, alts)
  {
    ResetKeeps(d);
    if i: nat :| Accepts(d, number, alts, i) {
      PlanFacts(d.configs[i], e.configs[i]);
    }
  }

  /** If all went well the active configuration has that number, with the right endpoint bits; otherwise none is active. */
  ghost predicate Selected(cs: seq<Config>, active: Option<nat>, high: bool, number: nat, ok: bool) {
    if ok then
      active.Some? && active.value < |cs| && cs[active.value].value == number && BitsNamed(cs[active.value], high)
    else active == None
  }

  lemma ConfiguredMeans(d: Device, number: nat, alts: seq<int>)
    requires Sound(d) && |alts| == MAX_CONFIG_INTERFACES && Handles(d, number)
    ensures var e := Configured(d, number, alts);
            Selected(e.configs, e.active, e.high, number, Succeeds(d, number, alts))
  {
    ConfiguredActive(d, number, alts);
    ConfiguredKeeps(d, number, alts);
    var e := Configured(d, number, alts);
    if e.active.Some? {
      assert Accepts(d, number, alts, e.active.value);
      PlanFacts(d.configs[e.active.value], e.configs[e.active.value]);
      ArmedBits(e.configs[e.active.value], e.high);
    }
  }

  /** The active configuration is then the one with that number, and none if there is none or it refuses. */
  lemma ConfiguredActive(d: Device, number: nat, alts: seq<int>)
    requires Sound(d) && |alts| == MAX_CONFIG_INTERFACES
    ensures forall i: nat :: Configured(d, number, alts).active == Some(i) <==> Accepts(d, number, alts, i)
  {
    ResetKeeps(d);
    var e := Reset(d);
    forall i: nat ensures Configured(d, number, alts).active == Some(i) <==> Accepts(d, number, alts, i) {
      if i < |d.configs| {
        PlanFacts(d.configs[i], e.configs[i]);
      }
      UniqueIndex(e.configs, number, i);
    }
  }

  lemma UniqueIndex(cs: seq<Config>, number: nat, i: nat)
    requires Values(cs)
    ensures IndexOf(cs, number) == Some(i) <==> i < |cs| && cs[i].value == number
  {
  }

  /** The result of registering a configuration. */
  function RegisterStatus(d: Device, draft: Config, hasBind: bool, bindStatus: int): int {
    if draft.value == 0 || !hasBind then -EINVAL
    else if IndexOf(d.configs, draft.value).Some? then -EBUSY
    else bindStatus
  }

  function Registered(d: Device, draft: Config, hasBind: bool, adds: seq<Addition>, bindStatus: int): Device {
    if RegisterStatus(d, draft, hasBind, bindStatus) < 0 then d
    else d.(configs := d.configs + [Built(Blank(draft), adds)])
  }

  lemma RegisteredKeeps(d: Device, draft: Config, hasBind: bool, adds: seq<Addition>, bindStatus: int)
    requires Sound(d) && draft.value < 256
    ensures Sound(Registered(d, draft, hasBind, adds, bindStatus))
  {
    if RegisterStatus(d, draft, hasBind, bindStatus) >= 0 {
      BuiltKeeps(Blank(draft), adds);
    }
  }

  /** One configuration was added at the end. */
  ghost predicate Appended(cs: seq<Config>, ds: seq<Config>) {
    |ds| == |cs| + 1 && ds[..|cs|] == cs
  }

  /**
    Registration is refused for value 0, a missing bind or a value in use, and otherwise ends as the bind does; if
    it succeeds, the configuration that the draft and the additions describe is added at the end, else nothing changes.
   */
  ghost predicate Registers(cs: seq<Config>, ds: seq<Config>, draft: Config, hasBind: bool, adds: seq<Addition>,
                            bindStatus: int, status: int) {
    && (status == if draft.value == 0 || !hasBind then -EINVAL
                  else if exists i :: 0 <= i < |cs| && cs[i].value == draft.value then -EBUSY
                  else bindStatus)
    && (status < 0 ==> ds == cs)
    && (status >= 0 ==> Appended(cs, ds) && BuiltFrom(ds[|cs|], draft, adds))
  }

  /** Registration appends the configuration that the bind builds, unless it is refused, which changes nothing. */
  lemma RegisteredMeans(d: Device, draft: Config, hasBind: bool, adds: seq<Addition>, bindStatus: int)
    requires Sound(d) && draft.value < 256
    ensures var e, status := Registered(d, draft, hasBind, adds, bindStatus), RegisterStatus(d, draft, hasBind, bindStatus);
            e == d.(configs := e.configs) && Registers(d.configs, e.configs, draft, hasBind, adds, bindStatus, status)
  {
    if RegisterStatus(d, draft, hasBind, bindStatus) >= 0 {
      BuiltMeans(draft, adds);
    }
  }

  function Dropped(cs: seq<Config>, i: nat): (ds: seq<Config>)
    requires i < |cs|
    ensures |ds| == |cs| - 1
    ensures forall j :: 0 <= j < |ds| ==> ds[j] == cs[if j < i then j else j + 1]
  {
    cs[..i] + cs[i + 1..]
  }

  /** The device without configuration i; another active one stays active. */
  function Removed(d: Device, i: nat): Device
    requires i < |d.configs| && (d.active.Some? ==> d.active.value < |d.configs|)
  {
    var e := if d.active == Some(i) then Reset(d) else d;
    e.(configs := Dropped(e.configs, i),
       active := if e.active.Some? && e.active.value > i then Some(e.active.value - 1) else e.active)
  }

  lemma DroppedValues(cs: seq<Config>, i: nat)
    requires Values(cs) && i < |cs|
    ensures Values(Dropped(cs, i))
  {
  }

  lemma DroppedKeeps(cs: seq<Config>, active: Option<nat>, high: bool, i: nat)
    requires DevInv(cs, active, high) && i < |cs| && active != Some(i)
    ensures DevInv(Dropped(cs, i), if active.Some? && active.value > i then Some(active.value - 1) else active, high)
  {
    var ds := Dropped(cs, i);
    var active' := if active.Some? && active.value > i then Some(active.value - 1) else active;
    DroppedValues(cs, i);
    forall j | 0 <= j < |ds| ensures ConfigOk(ds[j]) && (active' != Some(j) ==> Quiet(ds[j])) {
      var k := if j < i then j else j + 1;
      assert ds[j] == cs[k];
    }
    if active.Some? {
      assert ds[active'.value] == cs[active.value];
    }
  }

  lemma RemovedOther(d: Device, i: nat)
    requires Sound(d) && i < |d.configs| && d.active != Some(i)
    ensures Sound(Removed(d, i))
    ensures d.active.Some? ==>
      Removed(d, i).active.Some? && Removed(d, i).configs[Removed(d, i).active.value] == d.configs[d.active.value]
  {
    DroppedKeeps(d.configs, d.active, d.high, i);
  }

  lemma RemovedKeeps(d: Device, i: nat)
    requires Sound(d) && i < |d.configs|
    ensures Sound(Removed(d, i))
    ensures d.active.Some? && d.active != Some(i) ==>
      Removed(d, i).active.Some? && Removed(d, i).configs[Removed(d, i).active.value] == d.configs[d.active.value]
    ensures d.active == Some(i) || d.active == None ==> Removed(d, i).active == None
    ensures |Removed(d, i).configs| == |d.configs| - 1
    ensures forall j :: 0 <= j < |d.configs| - 1 ==>
      Plan(Removed(d, i).configs[j]) == Plan(d.configs[if j < i then j else j + 1])
  {
    if d.active == Some(i) {
      ResetKeeps(d);
      RemovedOther(Reset(d), i);
      assert Removed(d, i) == Removed(Reset(d), i);
    } else {
      RemovedOther(d, i);
    }
  }

  // ----- the device

  class CompositeDev {
    var configs: seq<Config>
    var active: Option<nat>
    var high: bool
    var delayedStatus: nat

    ghost predicate Valid()
      reads this
    {
      DevInv(configs, active, high)
    }

    function St(): Device
      reads this
    {
      Device(configs, active, high, delayedStatus)
    }

    constructor ()
      ensures Valid() && St() == Unconfigured
    {
      configs, active, high, delayedStatus := [], None, false, 0;
    }

    /** Drops the active configuration and the endpoint bitmaps of its functions. */
    method ResetConfig()
      requires Valid() && active.Some?
      modifies this`configs, this`active
      ensures Valid() && St() == Reset(old(St())) && SamePlans(old(configs), configs)
    {
      ResetKeeps(St());
      var a := active.value;
      var c := Silence(configs[a]);
      configs := configs[a := c];
      active := None;
    }

    /** composite_disconnect, after which the link may come up at another speed. */
    method Disconnect(newHigh: bool)
      requires Valid()
      modifies this`configs, this`active, this`high
      ensures Valid() && active == None && St() == Reset(old(St())).(high := newHigh)
    {
      if active.Some? {
        ResetConfig();
      }
      high := newHigh;
    }

    /**
      SET_CONFIGURATION.  `alts` are the results of set_alt for the interfaces, in order; the functions
      that will be brought up have descriptors for the current speed.
     */
    method SetConfig(number: nat, alts: seq<int>) returns (result: int)
      requires Valid() && |alts| == MAX_CONFIG_INTERFACES && Handles(St(), number)
      modifies this`configs, this`active, this`delayedStatus
      ensures Valid() && SamePlans(old(configs), configs)
      ensures St() == Configured(old(St()), number, alts)
      ensures Selected(configs, active, high, number, result >= 0 && number != 0)
      ensures result >= 0 && delayedStatus > 0 ==> result == DELAYED
      ensures result >= 0 <==> number == 0 || Succeeds(old(St()), number, alts)
    {
      ConfiguredKeeps(St(), number, alts);
      ConfiguredMeans(St(), number, alts);
      result := Select(number, alts);
      if result >= 0 && delayedStatus > 0 {
        result := DELAYED;
      }
    }

    /** Drops the active configuration and selects the one with the number, if there is one. */
    method Select(number: nat, alts: seq<int>) returns (result: int)
      requires Valid() && |alts| == MAX_CONFIG_INTERFACES && Handles(St(), number)
      modifies this`configs, this`active, this`delayedStatus
      ensures St() == Configured(old(St()), number, alts)
      ensures result >= 0 <==> number == 0 || Succeeds(old(St()), number, alts)
    {
      result := -EINVAL;
      if active.Some? {
        ResetConfig();
      }
      if number == 0 {
        result := 0;
        NoneIsZero(configs);
      } else {
        var found := FindValue(configs, number);
        if found.Some? {
          SucceedsAt(old(St()), St(), number, alts, found.value);
          result := BringUp(found.value, alts);
        } else {
          NeverSucceeds(old(St()), St(), number, alts);
        }
      }
    }

    /** Selects configuration a and brings its interfaces up, or backs out if set_alt refuses one. */
    method BringUp(a: nat, alts: seq<int>) returns (result: int)
      requires Valid() && active == None && a < |configs| && |alts| == MAX_CONFIG_INTERFACES
      requires Speaks(configs[a], high)
      modifies this`configs, this`active, this`delayedStatus
      ensures Valid() && St() == Raised(old(St()), a, alts)
      ensures result >= 0 <==> AllUp(old(configs)[a], alts)
    {
      RaisedKeeps(St(), a, alts);
      var c, delays;
      c, result, delays := RaiseAll(configs[a], high, alts);
      configs := configs[a := c];
      delayedStatus := delayedStatus + delays;
      if result >= 0 {
        active := Some(a);
      }
    }

    /** usb_add_config: registers a configuration whose bind makes the given additions. */
    method AddConfig(draft: Config, hasBind: bool, adds: seq<Addition>, bindStatus: int) returns (status: int)
      requires Valid() && draft.value < 256
      requires forall i :: 0 <= i < |adds| ==> (adds[i].status < 0 ==> adds[i].ids == 0)
      modifies this`configs
      ensures Valid() && St() == Registered(old(St()), draft, hasBind, adds, bindStatus)
      ensures Registers(old(configs), configs, draft, hasBind, adds, bindStatus, status)
    {
      RegisteredMeans(St(), draft, hasBind, adds, bindStatus);
      RegisteredKeeps(St(), draft, hasBind, adds, bindStatus);
      if draft.value == 0 || !hasBind {
        return -EINVAL;
      }
      var dup := FindValue(configs, draft.value);
      if dup.Some? {
        return -EBUSY;
      }
      var c := Bind(Blank(draft), adds);
      status := bindStatus;
      if status >= 0 {
        configs := configs + [c];
      }
    }

    /** usb_remove_config. */
    method RemoveConfig(i: nat)
      requires Valid() && i < |configs|
      modifies this`configs, this`active
      ensures Valid() && St() == Removed(old(St()), i)
      ensures |configs| == |old(configs)| - 1
      ensures forall j :: 0 <= j < |configs| ==> Plan(configs[j]) == Plan(old(configs)[if j < i then j else j + 1])
      ensures old(active) == Some(i) ==> active == None
      ensures old(active).Some? && old(active) != Some(i) ==>
        active.Some? && configs[active.value] == old(configs)[old(active).value]
    {
      RemovedKeeps(St(), i);
      if active == Some(i) {
        ResetConfig();
      }
      Drop(i);
    }

    /** Takes configuration i, which is not active, off the list. */
    method Drop(i: nat)
      requires Valid() && i < |configs| && active != Some(i)
      modifies this`configs, this`active
      ensures St() == Removed(old(St()), i)
    {
      configs := Dropped(configs, i);
      if active.Some? && active.value > i {
        active := Some(active.value - 1);
      }
    }

    /** GET_CONFIGURATION. */
    method GetConfiguration() returns (v: nat)
      requires Valid()
      ensures v == 0 <==> active == None
      ensures active.Some? ==> v == configs[active.value].value
      ensures forall i :: 0 <= i < |configs| ==> (v == configs[i].value <==> active == Some(i))
    {
      v := 0;
      if active.Some? {
        v := configs[active.value].value;
      }
    }

    /** Endpoint-recipient requests: the first function of the active configuration with the bit set. */
    method Dispatch(wIndex: nat) returns (f: Option<nat>)
      requires Valid() && active.Some?
      ensures var fs, e := configs[active.value].functions, PackEp(wIndex % 256);
              && (f.Some? ==> f.value < |fs| && e in fs[f.value].endpoints)
              && (forall i :: 0 <= i < |fs| && (f.None? || i < f.value) ==> e !in fs[i].endpoints)
    {
      var c := configs[active.value];
      var endp := PackEp(wIndex % 256);
      for i := 0 to |c.functions|
        invariant forall j :: 0 <= j < i ==> endp !in c.functions[j].endpoints
      {
        if endp in c.functions[i].endpoints {
          return Some(i);
        }
      }
      f := None;
    }

    /** Performs an operation on the device. */
    method Perform(op: Op)
      requires Valid() && OpOk(op)
      modifies this
      ensures Valid() && St() == Effect(old(St()), op)
    {
      match op {
        case Register(draft, hasBind, adds, bindStatus) =>
          var status := AddConfig(draft, hasBind, adds, bindStatus);
        case Unregister(index) =>
          if index < |configs| {
            RemoveConfig(index);
          }
        case Configure(number, alts) =>
          if Handles(St(), number) {
            var result := SetConfig(number, alts);
          }
        case Unplug(newHigh) =>
          Disconnect(newHigh);
      }
    }
  }

  lemma NoneIsZero(cs: seq<Config>)
    requires forall i :: 0 <= i < |cs| ==> ConfigOk(cs[i])
    ensures IndexOf(cs, 0) == None
  {
  }

  /** The bind routine: adds its functions one after the other. */
  method Bind(c0: Config, adds: seq<Addition>) returns (c: Config)
    requires ConfigOk(c0) && Quiet(c0) && forall i :: 0 <= i < |adds| ==> (adds[i].status < 0 ==> adds[i].ids == 0)
    ensures c == Built(c0, adds)
  {
    c := c0;
    for i := 0 to |adds|
      invariant c == Built(c0, adds[..i]) && ConfigOk(c) && Quiet(c)
    {
      assert adds[..i + 1][..i] == adds[..i];
      var s;
      c, s := AddFunction(c, adds[i]);
    }
    assert adds[..|adds|] == adds;
  }

  // ----- whole runs

  datatype Op =
    | Register(draft: Config, hasBind: bool, adds: seq<Addition>, bindStatus: int)
    | Unregister(index: nat)
    | Configure(number: nat, alts: seq<int>)
    | Unplug(newHigh: bool)

  predicate OpOk(op: Op) {
    match op
    case Register(draft, _, adds, _) =>
      draft.value < 256 && forall i :: 0 <= i < |adds| ==> (adds[i].status < 0 ==> adds[i].ids == 0)
    case Unregister(_) => true
    case Configure(_, alts) => |alts| == MAX_CONFIG_INTERFACES
    case Unplug(_) => true
  }

  /** What an operation makes of the device; one that the driver does not handle is passed over. */
  ghost function Effect(d: Device, op: Op): Device
    requires OpOk(op) && (d.active.Some? ==> d.active.value < |d.configs|)
  {
    match op
    case Register(draft, hasBind, adds, bindStatus) => Registered(d, draft, hasBind, adds, bindStatus)
    case Unregister(index) => if index < |d.configs| then Removed(d, index) else d
    case Configure(number, alts) => if Handles(d, number) then Configured(d, number, alts) else d
    case Unplug(newHigh) => Reset(d).(high := newHigh)
  }

  lemma EffectKeeps(d: Device, op: Op)
    requires Sound(d) && OpOk(op)
    ensures Sound(Effect(d, op))
  {
    match op {
      case Register(draft, hasBind, adds, bindStatus) => RegisteredKeeps(d, draft, hasBind, adds, bindStatus);
      case Unregister(index) =>
        if index < |d.configs| {
          RemovedKeeps(d, index);
        }
      case Configure(number, alts) =>
        if Handles(d, number) {
          ConfiguredKeeps(d, number, alts);
        }
      case Unplug(_) => ResetKeeps(d);
    }
  }

  /** A run of operations. */
  ghost function Exec(d: Device, ops: seq<Op>): (e: Device)
    requires Sound(d) && forall i :: 0 <= i < |ops| ==> OpOk(ops[i])
    ensures Sound(e)
  {
    if ops == [] then d
    else
      var e := Exec(d, ops[..|ops| - 1]);
      EffectKeeps(e, ops[|ops| - 1]);
      Effect(e, ops[|ops| - 1])
  }

  /**
    After any run the configuration values are unique and nonzero, only functions of the active
    configuration have endpoint bits, and interfaces are dense; this is what Sound says of the run's result.
    And if the run ends with a SET_CONFIGURATION that the driver handles, the active configuration is the
    unique one with that number if its interfaces all come up, and otherwise none.
   */
  lemma RunSafe(ops: seq<Op>, number: nat, alts: seq<int>)
    requires (forall i :: 0 <= i < |ops| ==> OpOk(ops[i])) && |alts| == MAX_CONFIG_INTERFACES
    ensures ProperValues(Exec(Unconfigured, ops)) && OnlyActiveArmed(Exec(Unconfigured, ops))
    ensures var d, e := Exec(Unconfigured, ops), Exec(Unconfigured, ops + [Configure(number, alts)]);
            Handles(d, number) ==> forall i: nat :: e.active == Some(i) <==> Accepts(d, number, alts, i)
  {
    var d := Exec(Unconfigured, ops);
    var all := ops + [Configure(number, alts)];
    assert all[..|all| - 1] == ops;
    ConfiguredActive(d, number, alts);
    SoundMeans(d);
  }

  lemma ExecMore(ops: seq<Op>, op: Op)
    requires (forall i :: 0 <= i < |ops| ==> OpOk(ops[i])) && OpOk(op)
    ensures Exec(Unconfigured, ops + [op]) == Effect(Exec(Unconfigured, ops), op)
  {
    var all := ops + [op];
    assert all[..|all| - 1] == ops;
  }

  /** After any run, a good registration is there, and selecting its number brings it up if its set_alts accept. */
  lemma RegisteredIsSelectable(ops: seq<Op>, draft: Config, adds: seq<Addition>, bindStatus: int, alts: seq<int>)
    requires forall i :: 0 <= i < |ops| ==> OpOk(ops[i])
    requires OpOk(Register(draft, true, adds, bindStatus)) && |alts| == MAX_CONFIG_INTERFACES
    requires draft.value != 0 && bindStatus >= 0 && forall t :: 0 <= t < |alts| ==> alts[t] >= 0
    requires var d := Exec(Unconfigured, ops); forall i :: 0 <= i < |d.configs| ==> d.configs[i].value != draft.value
    ensures var d, e := Exec(Unconfigured, ops), Exec(Unconfigured, ops + [Register(draft, true, adds, bindStatus)]);
            && Appended(d.configs, e.configs) && BuiltFrom(e.configs[|d.configs|], draft, adds)
            && (Handles(e, draft.value) ==>
                  Exec(Unconfigured, ops + [Register(draft, true, adds, bindStatus)] + [Configure(draft.value, alts)]).active
                  == Some(|d.configs|))
  {
    var d, op := Exec(Unconfigured, ops), Register(draft, true, adds, bindStatus);
    ExecMore(ops, op);
    RegisteredMeans(d, draft, true, adds, bindStatus);
    var e := Exec(Unconfigured, ops + [op]);
    ExecMore(ops + [op], Configure(draft.value, alts));
    ConfiguredActive(e, draft.value, alts);
    assert Accepts(e, draft.value, alts, |d.configs|);
  }

  /** In any run, removing a configuration takes it off the list and leaves the others, and unplugging deselects. */
  lemma RemovalsInRun(ops: seq<Op>, index: nat, newHigh: bool)
    requires forall i :: 0 <= i < |ops| ==> OpOk(ops[i])
    ensures var d, e := Exec(Unconfigured, ops), Exec(Unconfigured, ops + [Unregister(index)]);
            if index < |d.configs| then
              && |e.configs| == |d.configs| - 1
              && (forall j :: 0 <= j < |e.configs| ==> Plan(e.configs[j]) == Plan(d.configs[if j < index then j else j + 1]))
              && (d.active == Some(index) ==> e.active == None)
            else e == d
    ensures var d, e := Exec(Unconfigured, ops), Exec(Unconfigured, ops + [Unplug(newHigh)]);
            e.active == None && e.high == newHigh && SamePlans(d.configs, e.configs)
  {
    var d := Exec(Unconfigured, ops);
    ExecMore(ops, Unregister(index));
    ExecMore(ops, Unplug(newHigh));
    ResetKeeps(d);
    if index < |d.configs| {
      RemovedKeeps(d, index);
    }
  }

  /** Configuration values are unique, nonzero bytes. */
  ghost predicate ProperValues(d: Device) {
    && (forall i :: 0 <= i < |d.configs| ==> 0 < d.configs[i].value < 256)
    && (forall i, j :: 0 <= i < j < |d.configs| ==> d.configs[i].value != d.configs[j].value)
  }

  /** A function with a bit in its bitmap belongs to the active configuration. */
  ghost predicate OnlyActiveArmed(d: Device) {
    forall i, f ::
      (0 <= i < |d.configs| && 0 <= f < |d.configs[i].functions| && d.configs[i].functions[f].endpoints != {}) ==>
        d.active == Some(i)
  }

  lemma SoundMeans(d: Device)
    requires Sound(d)
    ensures ProperValues(d) && OnlyActiveArmed(d)
  {
    forall i | 0 <= i < |d.configs| ensures 0 < d.configs[i].value < 256 {
      assert ConfigOk(d.configs[i]);
    }
    forall i, f | 0 <= i < |d.configs| && 0 <= f < |d.configs[i].functions| && d.configs[i].functions[f].endpoints != {}
      ensures d.active == Some(i)
    {
      assert !Quiet(d.configs[i]);
    }
  }

  /** The driver performs exactly the run, and the number the host reads back names the active configuration. */
  method Run(ops: seq<Op>) returns (dev: CompositeDev, v: nat)
    requires forall i :: 0 <= i < |ops| ==> OpOk(ops[i])
    ensures dev.St() == Exec(Unconfigured, ops)
    ensures v == 0 <==> dev.active == None
    ensures forall i :: 0 <= i < |dev.configs| ==> (v == dev.configs[i].value <==> dev.active == Some(i))
  {
    dev := new CompositeDev();
    for i := 0 to |ops|
      invariant dev.Valid() && dev.St() == Exec(Unconfigured, ops[..i])
    {
      assert ops[..i + 1][..i] == ops[..i];
      dev.Perform(ops[i]);
    }
    assert ops[..|ops|] == ops;
    v := dev.GetConfiguration();
  }
}
