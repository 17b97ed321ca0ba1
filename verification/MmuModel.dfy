/**
  The table generator's data: 512 level-1 entries, 512*512 level-2 entries, 8*512*512 level-3
  entries, and the linear list of items that will be serialised.  An entry object is identified by
  the array slot it lives in; `items` holds slots, so one entry may be listed twice.
 */
module MmuModel {
  import opened Common
  import opened Bits

  const KB4 := 0x1000
  const MB2 := 0x20_0000
  const GB1 := 0x4000_0000
  /** End of the 48-bit output address space. */
  const PA_END := 0x1_0000_0000_0000
  /** Number of 4K pages that three levels of 512 entries reach. */
  const PAGES := 0x800_0000

  const N1 := 0x200
  const N2 := 0x4_0000
  const N3 := 0x20_0000

  // Descriptor types, bits [1:0].
  const FAULT := 0
  const BLOCK := 1
  const TABLE := 3
  const PAGE := 3

  datatype Level = L1 | L2 | L3

  datatype Entry = Entry(entryIdx: nat, entryAddr: nat, relAddr: nat, attr: nat, memAttr: nat,
                         use: bool, typ: Level)

  const Blank := Entry(0, 0, 0, FAULT, 0, false, L1)

  datatype Slot = Slot1(i: nat) | Slot2(i: nat) | Slot3(i: nat)

  datatype Tables = Tables(l1: seq<Entry>, l2: seq<Entry>, l3: seq<Entry>, items: seq<Slot>, relAddr: nat)

  /** What one 4K page of virtual address space translates to. */
  datatype Leaf = Unmapped | Leaf(pa: nat, memAttr: nat)

  predicate Shape(s: Tables) {
    |s.l1| == N1 && |s.l2| == N2 && |s.l3| == N3
  }

  /** The meaning of the three entry arrays for the page with the given number. */
  ghost function Xlate(s: Tables, page: nat): Leaf
    requires Shape(s) && page < PAGES
  {
    var e1 := s.l1[page / N2];
    if e1.attr == BLOCK then Leaf(e1.entryAddr + page % N2 * KB4, e1.memAttr)
    else if e1.attr == TABLE then Xlate2(s, page)
    else Unmapped
  }

  ghost function Xlate2(s: Tables, page: nat): Leaf
    requires Shape(s) && page < PAGES
  {
    var e2 := s.l2[page / N1];
    if e2.attr == BLOCK then Leaf(e2.entryAddr + page % N1 * KB4, e2.memAttr)
    else if e2.attr == TABLE && page < N3 && s.l3[page].attr == PAGE then
      Leaf(s.l3[page].entryAddr, s.l3[page].memAttr)
    else Unmapped
  }

  // ----- the state invariant

  function Lookup(s: Tables, t: Slot): Entry
    requires Shape(s) && InRange(t)
  {
    match t
    case Slot1(i) => s.l1[i]
    case Slot2(i) => s.l2[i]
    case Slot3(i) => s.l3[i]
  }

  predicate InRange(t: Slot) {
    match t
    case Slot1(i) => i < N1
    case Slot2(i) => i < N2
    case Slot3(i) => i < N3
  }

  predicate TypeMatches(t: Slot, e: Entry) {
    match t
    case Slot1(_) => e.typ == L1
    case Slot2(_) => e.typ == L2
    case Slot3(_) => e.typ == L3
  }

  function Children1(): (r: seq<Slot>)
    ensures |r| == 512
  {
    seq(512, i requires i >= 0 => Slot1(i))
  }

  /** The level-2 slots below level-1 entry g. */
  function Children2(g: nat): (r: seq<Slot>)
    ensures |r| == 512
  {
    seq(512, i requires i >= 0 => Slot2(512 * g + i))
  }

  /** The level-3 slots below level-2 entry m. */
  function Children3(m: nat): (r: seq<Slot>)
    ensures |r| == 512
  {
    seq(512, i requires i >= 0 => Slot3(512 * m + i))
  }

  /** The table at relative address addr lists exactly the given children. */
  ghost predicate Names(s: Tables, addr: nat, children: seq<Slot>)
    requires |children| == 512
  {
    addr % 4096 == 0 && addr / 8 + 512 <= |s.items| && s.items[addr / 8..addr / 8 + 512] == children
  }

  /** Memory attributes occupy bits [11:2] only. */
  predicate AttrOk(a: nat) {
    a < 4096 && a % 4 == 0
  }

  ghost predicate EntryOk(s: Tables, e: Entry) {
    && e.entryAddr % KB4 == 0
    && (e.entryAddr < PA_END || e.entryAddr < s.relAddr)
    && AttrOk(e.memAttr)
  }

  ghost predicate Ok1(s: Tables, g: nat)
    requires Shape(s) && g < N1
  {
    var e := s.l1[g];
    && EntryOk(s, e)
    && (e.attr == FAULT || e.attr == BLOCK || e.attr == TABLE)
    && (e.attr == BLOCK ==> e.entryAddr % GB1 == 0 && e.entryAddr + GB1 <= PA_END)
    && (e.attr == TABLE ==> Names(s, e.entryAddr, Children2(g)))
  }

  ghost predicate Ok2(s: Tables, m: nat)
    requires Shape(s) && m < N2
  {
    var e := s.l2[m];
    && EntryOk(s, e)
    && (e.attr == FAULT || e.attr == BLOCK || e.attr == TABLE)
    && (e.attr == BLOCK ==> e.entryAddr % MB2 == 0 && e.entryAddr + MB2 <= PA_END)
    && (e.attr == TABLE ==> 512 * m + 512 <= N3 && Names(s, e.entryAddr, Children3(m)))
  }

  ghost predicate Ok3(s: Tables, k: nat)
    requires Shape(s) && k < N3
  {
    var e := s.l3[k];
    && EntryOk(s, e)
    && (e.attr == FAULT || e.attr == PAGE)
    && (e.attr == PAGE ==> e.entryAddr + KB4 <= PA_END)
  }

  /** A listed entry knows its own level, and its own address is that of its last listing. */
  ghost predicate ItemOk(s: Tables, p: nat)
    requires Shape(s) && p < |s.items|
  {
    && InRange(s.items[p])
    && var e := Lookup(s, s.items[p]);
    && TypeMatches(s.items[p], e)
    && e.relAddr % 8 == 0
    && p <= e.relAddr / 8 < |s.items|
    && s.items[e.relAddr / 8] == s.items[p]
  }

  ghost predicate Layout(s: Tables) {
    && s.relAddr == 8 * |s.items|
    && |s.items| % 512 == 0
    && |s.items| >= 512
    && s.items[..512] == Children1()
  }

  ghost predicate Inv(s: Tables) {
    && Shape(s)
    && Layout(s)
    && (forall g :: 0 <= g < N1 ==> Ok1(s, g))
    && (forall m :: 0 <= m < N2 ==> Ok2(s, m))
    && (forall k :: 0 <= k < N3 ==> Ok3(s, k))
    && (forall p :: 0 <= p < |s.items| ==> ItemOk(s, p))
  }

  // ----- splitting an entry into a sub-table

  /** A sub-table entry after its parent was split: it inherits the parent's block, or faults. */
  function Child(parent: Entry, e: Entry, i: nat, unit: nat, kind: nat, level: Level, rel: nat): Entry {
    var e' := if parent.attr == BLOCK
              then e.(attr := kind, memAttr := parent.memAttr, entryAddr := parent.entryAddr + i * unit)
              else e.(attr := FAULT);
    e'.(relAddr := rel + 8 * i, typ := level)
  }

  /** Entries with the 512 from `first` on replaced by the children of `parent`. */
  function WithChildren(es: seq<Entry>, first: nat, n: nat, parent: Entry, unit: nat, kind: nat,
                        level: Level, rel: nat): (r: seq<Entry>)
    requires first + n <= |es|
    ensures |r| == |es|
    ensures forall i :: 0 <= i < |es| ==>
      r[i] == if first <= i < first + n then Child(parent, es[i], i - first, unit, kind, level, rel) else es[i]
  {
    seq(|es|, i requires 0 <= i < |es| =>
      if first <= i < first + n then Child(parent, es[i], i - first, unit, kind, level, rel) else es[i])
  }

  /** Effect of realloc_l2 on level-1 entry g. */
  function Split2(s: Tables, g: nat): (r: Tables)
    requires Shape(s) && g < N1
    ensures Shape(r)
  {
    var e := s.l1[g];
    if e.attr == FAULT || e.attr == BLOCK then
      Tables(s.l1[g := e.(entryAddr := s.relAddr, entryIdx := 512 * g, attr := TABLE)],
             WithChildren(s.l2, 512 * g, 512, e, MB2, BLOCK, L2, s.relAddr),
             s.l3, s.items + Children2(g), s.relAddr + 4096)
    else s
  }

  /** Effect of realloc_l3 on level-2 entry m. */
  function Split3(s: Tables, m: nat): (r: Tables)
    requires Shape(s) && m < N2 && 512 * m + 512 <= N3
    ensures Shape(r)
  {
    var e := s.l2[m];
    if e.attr == FAULT || e.attr == BLOCK then
      Tables(s.l1,
             s.l2[m := e.(entryAddr := s.relAddr, entryIdx := 512 * m, attr := TABLE)],
             WithChildren(s.l3, 512 * m, 512, e, KB4, PAGE, L3, s.relAddr),
             s.items + Children3(m), s.relAddr + 4096)
    else s
  }

  // ----- writing one leaf

  function SetLeaf(e: Entry, pa: nat, kind: nat, a: nat): Entry {
    e.(entryAddr := pa, attr := kind, memAttr := a, use := true)
  }

  function Put1(s: Tables, g: nat, pa: nat, a: nat): Tables
    requires Shape(s) && g < N1
  {
    s.(l1 := s.l1[g := SetLeaf(s.l1[g], pa, BLOCK, a)])
  }

  function Put2(s: Tables, m: nat, pa: nat, a: nat): Tables
    requires Shape(s) && m < N2
  {
    s.(l2 := s.l2[m := SetLeaf(s.l2[m], pa, BLOCK, a)])
  }

  function Put3(s: Tables, k: nat, pa: nat, a: nat): Tables
    requires Shape(s) && k < N3
  {
    s.(l3 := s.l3[k := SetLeaf(s.l3[k], pa, PAGE, a)])
  }

  function Start(): (s: Tables)
    ensures Shape(s)
  {
    Tables(seq(N1, i requires i >= 0 => Blank.(relAddr := 8 * i)), seq(N2, i => Blank), seq(N3, i => Blank),
           Children1(), 8 * N1)
  }
}
