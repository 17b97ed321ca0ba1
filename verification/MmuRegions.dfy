/** Regions of the configuration file and the map they describe: the last region that covers wins. */
module MmuRegions {
  import opened Common
  import opened Bits
  import opened MmuModel
  import opened MmuWalk

  datatype Gran = G1 | M2 | K4

  datatype Region = Region(phyBegin: nat, phyEnd: nat, virtBegin: nat, gran: Gran, attr: nat)

  function Unit(gran: Gran): nat {
    match gran
    case G1 => GB1
    case M2 => MB2
    case K4 => KB4
  }

  function UnitPages(gran: Gran): nat {
    match gran
    case G1 => N2
    case M2 => N1
    case K4 => 1
  }

  function VirtEnd(r: Region): int {
    r.phyEnd - r.phyBegin + r.virtBegin
  }

  /** Number of granules it takes to step over size bytes. */
  function Steps(size: int, gran: Gran): nat {
    if size <= 0 then 0 else (size + Unit(gran) - 1) / Unit(gran)
  }

  /** Number of granules the region is stepped through. */
  function Count(r: Region): nat {
    Steps(r.phyEnd - r.phyBegin, r.gran)
  }

  /** All entries the region needs exist in the three arrays. */
  predicate Fits(r: Region) {
    match r.gran
    case G1 => Count(r) == 0 || r.virtBegin / GB1 + Count(r) <= N1
    case M2 => VirtEnd(r) <= N1 * GB1
    case K4 => VirtEnd(r) <= N3 * KB4
  }

  /** Its entries exist and its output addresses stay within 48 bits. */
  predicate InRoom(r: Region) {
    Fits(r) && (r.phyBegin / Unit(r.gran) + Count(r)) * Unit(r.gran) <= PA_END
  }

  predicate RegionOk(r: Region) {
    InRoom(r) && AttrOk(r.attr)
  }

  // ----- the reference meaning

  /** What the stepping maps: both starts moved down to a granule, the number of granules kept. */
  function Stepped(r: Region): Region {
    var u := Unit(r.gran);
    var p := r.phyBegin / u * u;
    Region(p, p + Count(r) * u, r.virtBegin / u * u, r.gran, r.attr)
  }

  predicate Covers(r: Region, va: nat) {
    r.virtBegin <= va < VirtEnd(r)
  }

  /** The last region of the list that covers va decides; none means a fault. */
  function LastWins(rs: seq<Region>, va: nat): Outcome {
    if rs == [] then Fault
    else
      var r := rs[|rs| - 1];
      if Covers(r, va) then Mapped(r.phyBegin + (va - r.virtBegin), 0, r.attr)
      else LastWins(rs[..|rs| - 1], va)
  }

  lemma {:induction false} LastIs(rs: seq<Region>, va: nat, i: nat)
    requires i < |rs| && Covers(rs[i], va) && forall j :: i < j < |rs| ==> !Covers(rs[j], va)
    ensures LastWins(rs, va) == Mapped(rs[i].phyBegin + (va - rs[i].virtBegin), 0, rs[i].attr)
  {
    if i < |rs| - 1 {
      LastIs(rs[..|rs| - 1], va, i);
    }
  }

  lemma {:induction false} NoneIs(rs: seq<Region>, va: nat)
    requires forall i :: 0 <= i < |rs| ==> !Covers(rs[i], va)
    ensures LastWins(rs, va) == Fault
  {
    if rs != [] {
      NoneIs(rs[..|rs| - 1], va);
    }
  }

  predicate Aligned(r: Region) {
    var u := Unit(r.gran);
    r.phyBegin % u == 0 && r.phyEnd % u == 0 && r.virtBegin % u == 0 && r.phyBegin <= r.phyEnd
  }

  function SteppedAll(rs: seq<Region>): (ss: seq<Region>)
    ensures |ss| == |rs| && forall i :: 0 <= i < |rs| ==> ss[i] == Stepped(rs[i])
  {
    seq(|rs|, i requires 0 <= i < |rs| => Stepped(rs[i]))
  }

  /** Stepping maps exactly the region if its bounds are multiples of its granularity. */
  lemma AlignedIsExact(r: Region)
    requires Aligned(r)
    ensures Stepped(r) == r
  {
    var u := Unit(r.gran);
    var n, m := r.phyBegin / u, r.phyEnd / u;
    WholeSteps(n, m, r.gran);
    assert r.phyBegin == n * u && r.phyEnd == m * u;
  }

  /** A region whose end is given inclusively, as the shipped configuration does, means the same. */
  lemma InclusiveEnd(r: Region)
    requires Aligned(r) && r.phyBegin < r.phyEnd
    ensures Stepped(r.(phyEnd := r.phyEnd - 1)) == r
  {
    AlignedIsExact(r);
    var u := Unit(r.gran);
    LastStep(r.phyEnd / u - r.phyBegin / u, r.gran);
    assert r.phyEnd - r.phyBegin == (r.phyEnd / u - r.phyBegin / u) * u;
  }

  lemma LastStep(n: int, gran: Gran)
    ensures n > 0 ==> Steps(n * Unit(gran) - 1, gran) == n == Steps(n * Unit(gran), gran)
  {
  }

  lemma AlignedAreExact(rs: seq<Region>)
    requires forall i :: 0 <= i < |rs| ==> Aligned(rs[i])
    ensures SteppedAll(rs) == rs
  {
    forall i | 0 <= i < |rs| ensures SteppedAll(rs)[i] == rs[i] {
      AlignedIsExact(rs[i]);
    }
  }

  /** Every address of the region is among those the stepping maps. */
  ghost predicate NoneLeftOut(r: Region) {
    forall va: nat :: Covers(r, va) ==> Covers(Stepped(r), va)
  }

  /** No other address is. */
  ghost predicate NoneBesides(r: Region) {
    forall va: nat :: Covers(Stepped(r), va) ==> Covers(r, va)
  }

  /** For every address of the region, the stepping maps it as the region says. */
  ghost predicate MappedAsSaid(r: Region) {
    forall va: nat :: Covers(r, va) ==>
      LastWins([Stepped(r)], va) == Mapped(r.phyBegin + (va - r.virtBegin), 0, r.attr)
  }

  /** An unaligned region is reached to its end exactly if the granules counted from its start reach that far. */
  lemma NoneLeftOutIff(r: Region)
    requires r.phyBegin < r.phyEnd
    ensures NoneLeftOut(r) <==> r.virtBegin % Unit(r.gran) + (r.phyEnd - r.phyBegin) <= Count(r) * Unit(r.gran)
  {
    var u := Unit(r.gran);
    assert r.virtBegin == r.virtBegin / u * u + r.virtBegin % u;
    var last: nat := VirtEnd(r) - 1;
    if NoneLeftOut(r) {
      assert Covers(r, last);
    }
  }

  /** Nothing else is mapped exactly if virtual start and size are whole granules. */
  lemma NoneBesidesIff(r: Region)
    requires r.phyBegin < r.phyEnd
    ensures NoneBesides(r) <==> r.virtBegin % Unit(r.gran) == 0 && (r.phyEnd - r.phyBegin) % Unit(r.gran) == 0
  {
    var u, size := Unit(r.gran), r.phyEnd - r.phyBegin;
    assert r.virtBegin == r.virtBegin / u * u + r.virtBegin % u;
    StepsCover(size, r.gran);
    var first: nat, last: nat := Stepped(r).virtBegin, VirtEnd(Stepped(r)) - 1;
    if NoneBesides(r) {
      assert Covers(Stepped(r), first) && Covers(Stepped(r), last);
    }
  }

  /** It is mapped as it says exactly if, besides, both starts have the same offset in their granules. */
  lemma MappedAsSaidIff(r: Region)
    requires r.phyBegin < r.phyEnd
    ensures MappedAsSaid(r) <==> NoneLeftOut(r) && r.phyBegin % Unit(r.gran) == r.virtBegin % Unit(r.gran)
  {
    var u, q := Unit(r.gran), Stepped(r);
    assert r.virtBegin == r.virtBegin / u * u + r.virtBegin % u;
    assert r.phyBegin == r.phyBegin / u * u + r.phyBegin % u;
    assert [q][..0] == [];
    forall va: nat ensures LastWins([q], va) == if Covers(q, va) then Mapped(q.phyBegin + (va - q.virtBegin), 0, q.attr) else Fault {
      assert LastWins([q][..0], va) == Fault;
    }
    if MappedAsSaid(r) {
      assert Covers(r, r.virtBegin);
    }
  }

  lemma StepsCover(size: int, gran: Gran)
    requires size > 0
    ensures (Steps(size, gran) - 1) * Unit(gran) < size <= Steps(size, gran) * Unit(gran)
    ensures size % Unit(gran) == 0 <==> size == Steps(size, gran) * Unit(gran)
  {
    match gran {
      case G1 => assert size == size / GB1 * GB1 + size % GB1;
      case M2 => assert size == size / MB2 * MB2 + size % MB2;
      case K4 => assert size == size / KB4 * KB4 + size % KB4;
    }
  }

  /** Two megabytes from the first on, in steps of 2M: one granule is mapped, from 0, and the second half left out. */
  lemma EndLeftOut()
    ensures var r := Region(0x10_0000, 0x30_0000, 0x10_0000, M2, 0xC00);
            RegionOk(r) && Covers(r, 0x28_0000) && LastWins(SteppedAll([r]), 0x28_0000) == Fault
  {
    var r := Region(0x10_0000, 0x30_0000, 0x10_0000, M2, 0xC00);
    assert SteppedAll([r]) == [Stepped(r)] && [Stepped(r)][..0] == [];
    assert LastWins([Stepped(r)][..0], 0x28_0000) == Fault;
  }

  /** The shipped 4K region at 24 GiB: every index it needs lies past the end of the level-3 array. */
  lemma ShippedPagesDoNotFit(attr: nat, va: nat)
    requires Covers(Region(0x6_0000_0000, 0x6_0FFF_FFFF, 0x6_0000_0000, K4, attr), va)
    ensures va / KB4 >= N3
    ensures !Fits(Region(0x6_0000_0000, 0x6_0FFF_FFFF, 0x6_0000_0000, K4, attr))
  {
  }

  lemma WholeSteps(n: nat, m: nat, gran: Gran)
    requires n * Unit(gran) <= m * Unit(gran)
    ensures Steps(m * Unit(gran) - n * Unit(gran), gran) == m - n
    ensures (m - n) * Unit(gran) == m * Unit(gran) - n * Unit(gran)
  {
  }

  // ----- the same meaning, page by page

  /** What the region makes of a page that translates to `below` without it. */
  function Overlay(r: Region, n: nat, page: nat, below: Leaf): Leaf {
    var u := Unit(r.gran);
    var g, first := page / UnitPages(r.gran), r.virtBegin / u;
    if first <= g < first + n
    then Leaf((r.phyBegin / u + g - first) * u + page % UnitPages(r.gran) * KB4, r.attr)
    else below
  }

  function PageMeaning(rs: seq<Region>, page: nat): Leaf {
    if rs == [] then Unmapped
    else Overlay(rs[|rs| - 1], Count(rs[|rs| - 1]), page, PageMeaning(rs[..|rs| - 1], page))
  }

  /** Page numbers and granules of one address. */
  lemma PageInUnit(gran: Gran, va: nat)
    ensures va / KB4 / UnitPages(gran) == va / Unit(gran)
    ensures va / KB4 % UnitPages(gran) * KB4 + va % KB4 == va % Unit(gran)
  {
    match gran {
      case G1 =>
        PageOfGig(va);
        VaFields(va);
      case M2 =>
        PageOfTwoMeg(va);
        VaFields(va);
      case K4 =>
    }
  }

  /** Counting in granules and counting in bytes agree. */
  lemma GranuleRange(gran: Gran, va: nat, first: nat, n: nat, p: nat)
    ensures var u := Unit(gran);
            && (first <= va / u < first + n <==> first * u <= va < first * u + n * u)
            && (first <= va / u ==> (p + va / u - first) * u + va % u == p * u + (va - first * u))
  {
  }

  lemma OverlayMeaning(r: Region, va: nat, below: Leaf)
    ensures ToOutcome(Overlay(r, Count(r), va / KB4, below), va)
         == var q := Stepped(r);
            if Covers(q, va) then Mapped(q.phyBegin + (va - q.virtBegin), 0, q.attr)
            else ToOutcome(below, va)
  {
    var u := Unit(r.gran);
    PageInUnit(r.gran, va);
    GranuleRange(r.gran, va, r.virtBegin / u, Count(r), r.phyBegin / u);
  }

  lemma {:induction false} PageMeaningIsLastWins(rs: seq<Region>, va: nat)
    ensures ToOutcome(PageMeaning(rs, va / KB4), va) == LastWins(SteppedAll(rs), va)
  {
    if rs != [] {
      PageMeaningIsLastWins(rs[..|rs| - 1], va);
      OverlayMeaning(rs[|rs| - 1], va, PageMeaning(rs[..|rs| - 1], va / KB4));
      assert SteppedAll(rs)[..|rs| - 1] == SteppedAll(rs[..|rs| - 1]);
    }
  }

  // ----- how many tables a list of regions needs

  /** Number of aligned 1G ranges that the addresses from `from` up to `to` meet. */
  function Gigs(from: nat, to: int): nat {
    if to <= from then 0 else (to - 1) / GB1 - from / GB1 + 1
  }

  /** Number of aligned 2M ranges. */
  function TwoMegs(from: nat, to: int): nat {
    if to <= from then 0 else (to - 1) / MB2 - from / MB2 + 1
  }

  /** Sub-tables that mapping [from, to) may need. */
  function TablesBetween(gran: Gran, from: nat, to: int): nat {
    match gran
    case G1 => 0
    case M2 => Gigs(from, to)
    case K4 => Gigs(from, to) + TwoMegs(from, to)
  }

  /** How far one step of the allocation loop goes. */
  function Stride(gran: Gran): nat {
    if gran == K4 then MB2 else GB1
  }

  /** Where the allocation loop starts. */
  function FirstStride(gran: Gran, begin: nat): nat {
    if gran == G1 then begin else begin / Stride(gran) * Stride(gran)
  }

  function TablesOf(r: Region): nat {
    TablesBetween(r.gran, FirstStride(r.gran, r.virtBegin), VirtEnd(r))
  }

  function TablesFor(rs: seq<Region>): nat {
    if rs == [] then 0
    else
      var r := rs[|rs| - 1];
      TablesFor(rs[..|rs| - 1]) + TablesOf(r)
  }

  // ----- attribute words

  datatype Kind = Device | Cacheable | Uncacheable

  // Stage 1 descriptor fields.
  const NS: bv16 := 0x20
  const SH_INNER: bv16 := 0x300
  const AF: bv16 := 0x400
  const NG: bv16 := 0x800
  const NORMAL_NO_CACHEABLE: bv16 := 0x2
  const WRITE_BACK_NON_TRANSIENT: bv16 := 0x4

  function KindBits(k: Kind): bv16 {
    match k
    case Device => AF | NG
    case Cacheable => (WRITE_BACK_NON_TRANSIENT << 2) | SH_INNER | AF | NG
    case Uncacheable => (NORMAL_NO_CACHEABLE << 2) | SH_INNER | AF | NG
  }

  function AttrBits(k: Kind, el1: bool): nat {
    (if el1 then KindBits(k) | NS else KindBits(k)) as nat
  }

  /**
    What the lower attributes of a leaf say of its memory: the index of the memory type, shareability, access
    for the exception level only, access and not-global flags set, non-secure exactly for EL1.
   */
  predicate Says(a: nat, k: Kind, el1: bool) {
    && a / 4 % 8 == (match k case Device => 0 case Cacheable => 4 case Uncacheable => 2)
    && a / 0x100 % 4 == (if k == Device then 0 else 3)
    && a / 0x40 % 4 == 0
    && a / 0x400 % 2 == 1 && a / 0x800 % 2 == 1
    && (a / 0x20 % 2 == 1 <==> el1)
  }

  /** Every attribute word stays in bits [11:2] and has exactly the fields it should. */
  lemma AttrBitsOk(k: Kind, el1: bool)
    ensures AttrOk(AttrBits(k, el1)) && Says(AttrBits(k, el1), k, el1)
  {
    assert KindBits(Device) == 0xC00 && KindBits(Device) | NS == 0xC20;
    assert KindBits(Cacheable) == 0xF10 && KindBits(Cacheable) | NS == 0xF30;
    assert KindBits(Uncacheable) == 0xF08 && KindBits(Uncacheable) | NS == 0xF28;
  }
}
