/**
  The emitted image and the architectural translation table walk over it: 4KB granule, 39-bit input
  addresses, lookup starting at level 1 (sections D5.3.1 and D5.3.2 of Arm DDI 0487E).
 */
module MmuWalk {
  import opened Common
  import opened Bits
  import opened MmuModel

  // ----- descriptors

  function Pack(addr: nat, attr: nat, memAttr: nat): nat {
    Or(Or(addr, attr), memAttr)
  }

  /** The word write2bin emits for an entry; None is its "attr err" exit. */
  function Word(e: Entry, base: nat): Option<nat> {
    if e.typ == L3 && e.attr == PAGE then Some(Pack(e.entryAddr, e.attr, e.memAttr))
    else if e.typ != L3 && e.attr == TABLE then Some(Pack(e.entryAddr + base, e.attr, e.memAttr))
    else if e.attr == BLOCK then Some(Pack(e.entryAddr, e.attr, e.memAttr))
    else if e.attr == FAULT then Some(Pack(e.entryAddr, e.attr, e.memAttr))
    else None
  }

  lemma OrStep(x: nat, b: nat, y: nat, c: nat)
    requires b < 2 && c < 2
    ensures Or(2 * x + b, 2 * y + c) == 2 * Or(x, y) + (if b == 1 || c == 1 then 1 else 0)
  {
  }

  lemma OrLow2(x: nat, low: nat, q: nat)
    requires low < 4
    ensures Or(4 * x + low, 4 * q) == 4 * Or(x, q) + low
  {
    OrStep(2 * x + low / 2, low % 2, 2 * q, 0);
    OrStep(x, low / 2, q, 0);
  }

  lemma OrBelow4(x: nat, b: nat)
    requires b < 4
    ensures Or(4 * x, b) == 4 * x + b
  {
    OrStep(2 * x, 0, b / 2, b % 2);
    OrStep(x, 0, 0, b / 2);
    OrZero(x);
  }

  lemma OrBelow1024(h: nat, q: nat)
    requires q < 1024
    ensures Or(1024 * h, q) == 1024 * h + q
  {
    var p := Pow2(10);
    assert p == 1024 by { Pow2Add8(2); }
    OrDisjoint(h, q, 10);
    assert h * p == 1024 * h;
  }

  /** Address, type and attribute bits never overlap: their bitwise or is their sum. */
  lemma PackSum(h: nat, kind: nat, q: nat)
    requires kind < 4 && q < 1024
    ensures Pack(4096 * h, kind, 4 * q) == 4096 * h + kind + 4 * q
  {
    var x := 1024 * h;
    OrBelow4(x, kind);
    OrBelow1024(h, q);
    OrLow2(x, kind, q);
    assert 4096 * h == 4 * x;
  }

  lemma SumFields(h: nat, low: nat)
    requires low < 4096
    ensures (4096 * h + low) / 4096 == h && (4096 * h + low) % 4096 == low && (4096 * h + low) % 4 == low % 4
  {
    assert 4096 * h + low == 4 * (1024 * h) + low;
  }

  lemma PackValue(addr: nat, kind: nat, memAttr: nat)
    requires addr % KB4 == 0 && kind < 4 && AttrOk(memAttr)
    ensures Pack(addr, kind, memAttr) == addr + kind + memAttr
  {
    PackSum(addr / 4096, kind, memAttr / 4);
  }

  /** So the word splits back into the three. */
  lemma PackFields(addr: nat, kind: nat, memAttr: nat)
    requires addr % KB4 == 0 && kind < 4 && AttrOk(memAttr)
    ensures var w := Pack(addr, kind, memAttr);
            && w == addr + kind + memAttr
            && w % 4 == kind
            && w % KB4 / 4 * 4 == memAttr
            && w / KB4 * KB4 == addr
  {
    var h, q := addr / 4096, memAttr / 4;
    assert addr == 4096 * h && memAttr == 4 * q;
    PackSum(h, kind, q);
    SumFields(h, kind + 4 * q);
  }

  // ----- the image

  function WordAt(image: seq<Byte>, p: nat): nat
    requires 8 * p + 8 <= |image|
  {
    FromLe(image[8 * p..8 * p + 8])
  }

  /** One 8-byte little-endian word for each of the first n items, in item order. */
  ghost predicate EncodesTo(s: Tables, base: nat, image: seq<Byte>, n: nat)
    requires Shape(s) && n <= |s.items| && forall p :: 0 <= p < |s.items| ==> InRange(s.items[p])
  {
    && |image| == 8 * n
    && forall p :: 0 <= p < n ==> Word(Lookup(s, s.items[p]), base) == Some(WordAt(image, p))
  }

  lemma {:induction false} Pow64()
    ensures Pow2(64) == 0x1_0000_0000_0000_0000
  {
    Pow2Add8(0);
    Pow2Add8(8);
    Pow2Add8(16);
    Pow2Add8(24);
    Pow2Add8(32);
    Pow2Add8(40);
    Pow2Add8(48);
    Pow2Add8(56);
  }

  lemma WordSmall(e: Entry, base: nat)
    requires e.entryAddr % KB4 == 0 && e.entryAddr < PA_END && AttrOk(e.memAttr) && base % KB4 == 0 && base <= PA_END
    requires e.attr == FAULT || (e.attr == BLOCK && e.typ != L3) || e.attr == TABLE
    ensures Word(e, base).Some? && Word(e, base).value < 0x1_0000_0000_0000_0000
  {
    if e.typ != L3 && e.attr == TABLE {
      PackValue(e.entryAddr + base, e.attr, e.memAttr);
    } else {
      PackValue(e.entryAddr, e.attr, e.memAttr);
    }
  }

  /** Serialising an item of a good state neither takes the error exit nor overflows 64 bits. */
  lemma ItemWord(s: Tables, base: nat, p: nat)
    requires Inv(s) && base % 4096 == 0 && base + s.relAddr <= PA_END && p < |s.items|
    ensures ItemOk(s, p)
    ensures var e := Lookup(s, s.items[p]);
            Word(e, base).Some? && Word(e, base).value < 0x1_0000_0000_0000_0000
  {
    assert ItemOk(s, p);
    match s.items[p] {
      case Slot1(i) => assert Ok1(s, i);
      case Slot2(i) => assert Ok2(s, i);
      case Slot3(i) => assert Ok3(s, i);
    }
    WordSmall(Lookup(s, s.items[p]), base);
  }

  // ----- the walk

  /** Result of a translation: an output address with upper and lower attribute bits, or a fault. */
  datatype Outcome = Fault | Mapped(pa: nat, upper: nat, lower: nat)

  /** The 64-bit word at a physical address, if the image at base backs it. */
  function Load(image: seq<Byte>, base: nat, addr: nat): Option<nat> {
    if base <= addr && addr + 8 <= base + |image|
    then Some(FromLe(image[addr - base..addr - base + 8])) else None
  }

  /** Next-level table address, descriptor bits [47:12]. */
  function TableAddr(d: nat): nat {
    d % 0x1_0000_0000_0000 / 0x1000 * 0x1000
  }

  /** Output of a leaf descriptor that maps `size` bytes: address, upper attributes, lower attributes [11:2]. */
  function LeafOut(d: nat, va: nat, size: nat): Outcome
    requires size > 0
  {
    Mapped(d % 0x1_0000_0000_0000 / size * size + va % size, d / 0x1_0000_0000_0000, d % 0x1000 / 4 * 4)
  }

  /** Level 1: address bits [38:30] index the table at base; descriptor bits [1:0] are 01 for a block, 11 for a table. */
  function Walk(image: seq<Byte>, base: nat, va: nat): Outcome {
    match Load(image, base, base + 8 * (va / 0x4000_0000 % 512))
    case None => Fault
    case Some(d) =>
      if d % 4 == 1 then LeafOut(d, va, 0x4000_0000)
      else if d % 4 == 3 then Walk2(image, base, TableAddr(d), va)
      else Fault
  }

  /** Level 2: address bits [29:21]. */
  function Walk2(image: seq<Byte>, base: nat, table: nat, va: nat): Outcome {
    match Load(image, base, table + 8 * (va / 0x20_0000 % 512))
    case None => Fault
    case Some(d) =>
      if d % 4 == 1 then LeafOut(d, va, 0x20_0000)
      else if d % 4 == 3 then Walk3(image, base, TableAddr(d), va)
      else Fault
  }

  /** Level 3: address bits [20:12]; 11 is a page. */
  function Walk3(image: seq<Byte>, base: nat, table: nat, va: nat): Outcome {
    match Load(image, base, table + 8 * (va / 0x1000 % 512))
    case None => Fault
    case Some(d) => if d % 4 == 3 then LeafOut(d, va, 0x1000) else Fault
  }

  // ----- the walk computes Xlate

  function ToOutcome(leaf: Leaf, va: nat): Outcome {
    match leaf
    case Unmapped => Fault
    case Leaf(pa, a) => Mapped(pa + va % KB4, 0, a)
  }

  ghost predicate Emitted(s: Tables, base: nat, image: seq<Byte>) {
    && Inv(s) && base % 4096 == 0 && base + s.relAddr <= PA_END
    && (forall p :: 0 <= p < |s.items| ==> InRange(s.items[p]))
    && EncodesTo(s, base, image, |s.items|)
  }

  lemma ItemAt(s: Tables, addr: nat, children: seq<Slot>, i: nat)
    requires |children| == 512 && Names(s, addr, children) && i < 512
    ensures addr / 8 + i < |s.items| && s.items[addr / 8 + i] == children[i]
    ensures 8 * (addr / 8 + i) == addr + 8 * i
  {
    assert s.items[addr / 8..addr / 8 + 512][i] == children[i];
  }

  lemma LoadWord(image: seq<Byte>, base: nat, p: nat)
    requires 8 * p + 8 <= |image|
    ensures Load(image, base, base + 8 * p) == Some(WordAt(image, p))
  {
  }

  /** Reading entry i of a live table yields the word of the i-th child. */
  lemma LoadChild(s: Tables, base: nat, image: seq<Byte>, addr: nat, children: seq<Slot>, i: nat)
    requires Emitted(s, base, image) && |children| == 512 && Names(s, addr, children) && i < 512
    ensures InRange(children[i]) && TypeMatches(children[i], Lookup(s, children[i]))
    ensures Load(image, base, base + addr + 8 * i) == Word(Lookup(s, children[i]), base)
  {
    var p := addr / 8 + i;
    ItemAt(s, addr, children, i);
    assert ItemOk(s, p);
    LoadWord(image, base, p);
  }

  lemma LeafField(size: nat, n: nat, low: nat)
    requires (size == GB1 || size == MB2 || size == KB4) && low < size
    ensures (n * size + low) / size * size == n * size
  {
  }

  lemma DivUnique(x: nat, d: nat, k: nat, r: nat)
    requires (d == GB1 || d == MB2) && x == k * d + r && r < d
    ensures x / d == k && x % d == r
  {
  }

  lemma PageOfTwoMeg(va: nat)
    ensures va % MB2 == va / KB4 % N1 * KB4 + va % KB4
  {
    var q, r := va / KB4, va % KB4;
    DivUnique(va, MB2, q / N1, q % N1 * KB4 + r);
  }

  lemma PageOfGig(va: nat)
    ensures va % GB1 == va / KB4 % N2 * KB4 + va % KB4
  {
    var q, r := va / KB4, va % KB4;
    DivUnique(va, GB1, q / N2, q % N2 * KB4 + r);
  }

  /** A page inside a block: the block's output address plus the offset, either way round. */
  lemma BlockOutcome(addr: nat, a: nat, va: nat)
    ensures ToOutcome(Leaf(addr + va / KB4 % N1 * KB4, a), va) == Mapped(addr + va % MB2, 0, a)
    ensures ToOutcome(Leaf(addr + va / KB4 % N2 * KB4, a), va) == Mapped(addr + va % GB1, 0, a)
  {
    PageOfTwoMeg(va);
    PageOfGig(va);
  }

  /** How the fields of a virtual address nest. */
  lemma VaFields(va: nat)
    ensures va / KB4 / N1 == va / MB2 && va / KB4 / N2 == va / GB1 && va / MB2 / 512 == va / GB1
    ensures 512 * (va / GB1) + va / MB2 % 512 == va / MB2
    ensures 512 * (va / MB2) + va / KB4 % 512 == va / KB4
  {
  }

  /** Decoding a leaf descriptor gives back the address and attributes that went into it. */
  lemma LeafDecodes(addr: nat, kind: nat, a: nat, va: nat, size: nat)
    requires size == GB1 || size == MB2 || size == KB4
    requires addr % size == 0 && addr + size <= PA_END && kind < 4 && AttrOk(a)
    ensures LeafOut(Pack(addr, kind, a), va, size) == Mapped(addr + va % size, 0, a)
  {
    assert addr % 4096 == 0;
    PackFields(addr, kind, a);
    var w := Pack(addr, kind, a);
    assert w < PA_END && w % PA_END == w;
    LeafField(size, addr / size, kind + a);
  }

  lemma TableDecodes(addr: nat, a: nat)
    requires addr % 4096 == 0 && addr < PA_END && AttrOk(a)
    ensures var w := Pack(addr, TABLE, a); w % 4 == 3 && TableAddr(w) == addr
  {
    PackFields(addr, TABLE, a);
    var w := Pack(addr, TABLE, a);
    assert w < PA_END by {
      assert addr + KB4 <= PA_END;
    }
    assert w % PA_END == w;
  }

  lemma FaultDecodes(addr: nat, a: nat)
    requires addr % 4096 == 0 && AttrOk(a)
    ensures Pack(addr, FAULT, a) % 4 == 0
  {
    PackFields(addr, FAULT, a);
  }

  lemma Walk3Correct(s: Tables, base: nat, image: seq<Byte>, va: nat)
    requires Emitted(s, base, image) && va / KB4 < N3
    requires s.l2[va / MB2].attr == TABLE
    ensures Walk3(image, base, base + s.l2[va / MB2].entryAddr, va)
         == ToOutcome(if s.l3[va / KB4].attr == PAGE
                      then Leaf(s.l3[va / KB4].entryAddr, s.l3[va / KB4].memAttr) else Unmapped, va)
  {
    var m, k := va / MB2, va / KB4;
    assert Ok2(s, m);
    VaFields(va);
    assert Children3(m)[k % 512] == Slot3(k);
    LoadChild(s, base, image, s.l2[m].entryAddr, Children3(m), k % 512);
    assert Ok3(s, k);
    var e := s.l3[k];
    if e.attr == PAGE {
      PackFields(e.entryAddr, PAGE, e.memAttr);
      LeafDecodes(e.entryAddr, PAGE, e.memAttr, va, KB4);
    } else {
      FaultDecodes(e.entryAddr, e.memAttr);
    }
  }

  /** What a level-1 or level-2 lookup sees in the word of an entry. */
  ghost predicate Decodes(d: nat, e: Entry, base: nat, va: nat, size: nat)
    requires size > 0
  {
    && d % 4 == e.attr
    && (e.attr == BLOCK ==> LeafOut(d, va, size) == Mapped(e.entryAddr + va % size, 0, e.memAttr))
    && (e.attr == TABLE ==> TableAddr(d) == base + e.entryAddr)
  }

  lemma EntryDecodes(e: Entry, base: nat, va: nat, size: nat) returns (d: nat)
    requires (size == GB1 || size == MB2) && e.typ != L3
    requires (e.attr == FAULT || e.attr == BLOCK || e.attr == TABLE) && AttrOk(e.memAttr)
    requires e.entryAddr % KB4 == 0 && base % KB4 == 0
    requires e.attr == BLOCK ==> e.entryAddr % size == 0 && e.entryAddr + size <= PA_END
    requires e.attr == TABLE ==> e.entryAddr + base < PA_END
    ensures Word(e, base) == Some(d) && Decodes(d, e, base, va, size)
  {
    d := Word(e, base).value;
    if e.attr == BLOCK {
      PackFields(e.entryAddr, BLOCK, e.memAttr);
      LeafDecodes(e.entryAddr, BLOCK, e.memAttr, va, size);
    } else if e.attr == TABLE {
      TableDecodes(e.entryAddr + base, e.memAttr);
    } else {
      FaultDecodes(e.entryAddr, e.memAttr);
    }
  }

  lemma Fetch1(s: Tables, base: nat, image: seq<Byte>, va: nat) returns (d: nat)
    requires Emitted(s, base, image) && va / KB4 < PAGES
    ensures Load(image, base, base + 8 * (va / GB1 % 512)) == Some(d)
    ensures Decodes(d, s.l1[va / GB1], base, va, GB1)
  {
    var g := va / GB1;
    assert Names(s, 0, Children1()) by {
      assert s.items[0 / 8..0 / 8 + 512] == Children1();
    }
    assert Children1()[g] == Slot1(g);
    LoadChild(s, base, image, 0, Children1(), g);
    assert Ok1(s, g);
    d := EntryDecodes(s.l1[g], base, va, GB1);
  }

  lemma Fetch2(s: Tables, base: nat, image: seq<Byte>, va: nat) returns (d: nat)
    requires Emitted(s, base, image) && va / KB4 < PAGES && s.l1[va / GB1].attr == TABLE
    ensures Load(image, base, base + s.l1[va / GB1].entryAddr + 8 * (va / MB2 % 512)) == Some(d)
    ensures Decodes(d, s.l2[va / MB2], base, va, MB2)
  {
    var g, m := va / GB1, va / MB2;
    VaFields(va);
    assert Ok1(s, g) && Ok2(s, m);
    assert Children2(g)[m % 512] == Slot2(m);
    LoadChild(s, base, image, s.l1[g].entryAddr, Children2(g), m % 512);
    d := EntryDecodes(s.l2[m], base, va, MB2);
  }

  lemma Walk2Correct(s: Tables, base: nat, image: seq<Byte>, va: nat)
    requires Emitted(s, base, image) && va / KB4 < PAGES && s.l1[va / GB1].attr == TABLE
    ensures Walk2(image, base, base + s.l1[va / GB1].entryAddr, va) == ToOutcome(Xlate2(s, va / KB4), va)
  {
    var m := va / MB2;
    assert Ok2(s, m);
    VaFields(va);
    var d := Fetch2(s, base, image, va);
    BlockOutcome(s.l2[m].entryAddr, s.l2[m].memAttr, va);
    if s.l2[m].attr == TABLE {
      Walk3Correct(s, base, image, va);
    }
  }

  /** The walk over the emitted bytes computes exactly the meaning of the entry arrays. */
  lemma WalkCorrect(s: Tables, base: nat, image: seq<Byte>, va: nat)
    requires Emitted(s, base, image) && va / KB4 < PAGES
    ensures Walk(image, base, va) == ToOutcome(Xlate(s, va / KB4), va)
  {
    var g := va / GB1;
    assert Ok1(s, g);
    VaFields(va);
    var d := Fetch1(s, base, image, va);
    BlockOutcome(s.l1[g].entryAddr, s.l1[g].memAttr, va);
    if s.l1[g].attr == TABLE {
      Walk2Correct(s, base, image, va);
    }
  }
}
