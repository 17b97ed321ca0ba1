/** The page-table generator: allocation of sub-tables, mapping of regions, and serialisation. */
module MmuTool {
  import opened Common
  import opened Bits
  import opened MmuModel
  import opened MmuSplit
  import opened MmuPut
  import opened MmuWalk
  import opened MmuRegions

  /** The bytes written, or the way serialisation gave up. */
  datatype Binary = Image(bytes: seq<Byte>) | AttrError | PackError | TooBig

  ghost predicate SameMeaning(s: Tables, s': Tables)
    requires Shape(s) && Shape(s')
  {
    forall page :: 0 <= page < PAGES ==> Xlate(s', page) == Xlate(s, page)
  }

  lemma Split2Same(s: Tables, g: nat)
    requires Inv(s) && g < N1
    ensures Inv(Split2(s, g)) && SameMeaning(s, Split2(s, g)) && Split2(s, g).l1[g].attr == TABLE
    ensures forall h :: 0 <= h < N1 && s.l1[h].attr == TABLE ==> Split2(s, g).l1[h].attr == TABLE
    ensures forall m :: 0 <= m < N2 && s.l1[m / N1].attr == TABLE ==> Split2(s, g).l2[m] == s.l2[m]
  {
    Split2Keeps(s, g);
    assert Ok1(s, g);
    forall page | 0 <= page < PAGES ensures Xlate(Split2(s, g), page) == Xlate(s, page) {
      Split2Preserves(s, g, page);
    }
  }

  lemma Split3Same(s: Tables, m: nat)
    requires Inv(s) && m < N2 && 512 * m + 512 <= N3
    ensures Inv(Split3(s, m)) && SameMeaning(s, Split3(s, m)) && Split3(s, m).l2[m].attr == TABLE
    ensures Split3(s, m).l1 == s.l1
    ensures forall h :: 0 <= h < N2 && s.l2[h].attr == TABLE ==> Split3(s, m).l2[h].attr == TABLE
  {
    Split3Keeps(s, m);
    forall page | 0 <= page < PAGES ensures Xlate(Split3(s, m), page) == Xlate(s, page) {
      Split3Preserves(s, m, page);
    }
  }

  /** The table above granule g of the given size is in place, so the granule's entry is live. */
  ghost predicate Live(s: Tables, gran: Gran, g: nat)
    requires Shape(s)
  {
    match gran
    case G1 => g < N1
    case M2 => g < N2 && s.l1[g / N1].attr == TABLE
    case K4 => g < N3 && s.l1[g / N2].attr == TABLE && s.l2[g / N1].attr == TABLE
  }

  /** Every table that the addresses from unit `first` up to both b and end need is in place. */
  ghost predicate Allocated(s: Tables, gran: Gran, first: nat, b: int, end: int)
    requires Shape(s)
  {
    match gran
    case G1 => true
    case M2 => forall g :: first <= g < N1 && g * GB1 < b && g * GB1 < end ==> s.l1[g].attr == TABLE
    case K4 => forall m :: first <= m < N2 && m * MB2 < b && m * MB2 < end ==>
                 s.l1[m / N1].attr == TABLE && s.l2[m].attr == TABLE
  }

  lemma AllocatedMore2(s: Tables, first: nat, b: nat, end: int)
    requires Inv(s) && Allocated(s, M2, first, b, end) && b % GB1 == 0 && b < end <= N1 * GB1
    ensures var s' := Split2(s, b / GB1);
            Inv(s') && SameMeaning(s, s') && Allocated(s', M2, first, b + GB1, end)
  {
    var h := b / GB1;
    Split2Same(s, h);
    var s' := Split2(s, h);
    forall g | first <= g < N1 && g * GB1 < b + GB1 && g * GB1 < end ensures s'.l1[g].attr == TABLE {
      assert g <= h;
      if g < h {
        assert g * GB1 < b;
      }
    }
  }

  lemma AllocatedMore3(s: Tables, first: nat, b: nat, end: int)
    requires Inv(s) && Allocated(s, K4, first, b, end) && b % MB2 == 0 && b < end <= N3 * KB4
    ensures var s1 := Split2(s, b / GB1);
            var s' := Split3(s1, b / MB2);
            Inv(s') && SameMeaning(s, s') && Allocated(s', K4, first, b + MB2, end)
  {
    var g, h := b / GB1, b / MB2;
    assert h / N1 == g;
    Split2Same(s, g);
    var s1 := Split2(s, g);
    Split3Same(s1, h);
    var s' := Split3(s1, h);
    forall m | first <= m < N2 && m * MB2 < b + MB2 && m * MB2 < end
      ensures s'.l1[m / N1].attr == TABLE && s'.l2[m].attr == TABLE
    {
      assert m <= h;
      if m < h {
        assert m * MB2 < b;
      }
    }
  }

  /** Splitting lists at most one more table, and none if the entry has one. */
  lemma SplitsGrow(s: Tables, g: nat, m: nat)
    requires Shape(s) && g < N1 && m < N2
    ensures |Split2(s, g).items| <= |s.items| + 512 && (s.l1[g].attr == TABLE ==> Split2(s, g) == s)
    ensures 512 * m + 512 <= N3 ==> |Split3(s, m).items| <= |s.items| + 512
  {
  }

  /** One turn of the allocation loop for 2M lists at most the tables counted. */
  lemma CountMore2(s: Tables, first: nat, b: nat)
    requires Shape(s) && first % GB1 == 0 && b % GB1 == 0 && first <= b < N1 * GB1
    ensures |Split2(s, b / GB1).items| + 512 * TablesBetween(M2, first, b)
         <= |s.items| + 512 * TablesBetween(M2, first, b + GB1)
  {
    SplitsGrow(s, b / GB1, 0);
    assert (b + GB1 - 1) / GB1 == b / GB1;
    assert b > first ==> (b - 1) / GB1 == b / GB1 - 1;
  }

  /** The same for 4K; a 1G range met before has its table already. */
  lemma CountMore3(s: Tables, first: nat, b: nat, end: int)
    requires Shape(s) && first % MB2 == 0 && b % MB2 == 0 && first <= b < end <= N3 * KB4
    requires Allocated(s, K4, first / MB2, b, end)
    ensures var s' := Split3(Split2(s, b / GB1), b / MB2);
            |s'.items| + 512 * TablesBetween(K4, first, b) <= |s.items| + 512 * TablesBetween(K4, first, b + MB2)
  {
    var g, m := b / GB1, b / MB2;
    SplitsGrow(s, g, m);
    SplitsGrow(Split2(s, g), g, m);
    assert (b + MB2 - 1) / MB2 == m && (b + MB2 - 1) / GB1 == g;
    if b > first {
      assert (b - 1) / MB2 == m - 1;
      if (b - 1) / GB1 == g {
        assert (m - 1) / N1 == g && first / MB2 <= m - 1 && (m - 1) * MB2 < b;
      }
    }
  }

  lemma SameTwoMeg(b: nat, e: nat)
    requires b % MB2 == 0 && b - MB2 <= e < b
    ensures (b - 1) / MB2 == e / MB2 && (b - 1) / GB1 == e / GB1
  {
    var m := b / MB2;
    assert b == m * MB2 && e / MB2 == m - 1;
    assert e / GB1 == (m - 1) / 512;
  }

  /** Counting up to the end of the last stride counts no table beyond the end. */
  lemma CountEnds(gran: Gran, first: nat, b: nat, end: int)
    requires gran != G1 && first % Stride(gran) == 0 && b % Stride(gran) == 0
    requires first < b && b - Stride(gran) < end <= b
    ensures TablesBetween(gran, first, b) == TablesBetween(gran, first, end)
  {
    var e := end - 1;
    if gran == K4 {
      SameTwoMeg(b, e);
    }
  }

  /** The allocation loop, started with n0 items, has n items at b: one table for each one counted at most. */
  ghost predicate Tallied(n0: nat, n: nat, gran: Gran, begin: nat, b: nat, end: int) {
    var first := FirstStride(gran, begin);
    && (gran != G1 ==> b % Stride(gran) == 0)
    && first <= b && (b > first ==> b - Stride(gran) < end)
    && n <= n0 + 512 * TablesBetween(gran, first, b)
  }

  /** The allocation loop, started in s0, has reached b. */
  ghost predicate Allocating(s0: Tables, s: Tables, gran: Gran, begin: nat, b: nat, end: int) {
    && Shape(s0) && Inv(s) && SameMeaning(s0, s)
    && Allocated(s, gran, begin / Stride(gran), b, end)
    && Tallied(|s0.items|, |s.items|, gran, begin, b, end)
  }

  lemma FirstStrideFacts(gran: Gran, begin: nat)
    requires gran != G1
    ensures var first := FirstStride(gran, begin);
            && first % Stride(gran) == 0 && first / Stride(gran) == begin / Stride(gran)
            && first == begin - begin % Stride(gran)
  {
    match gran {
      case M2 => assert begin == begin / GB1 * GB1 + begin % GB1;
      case K4 => assert begin == begin / MB2 * MB2 + begin % MB2;
    }
  }

  lemma StridePlace(gran: Gran, b: nat)
    ensures b % Stride(gran) == 0 ==> (b + Stride(gran)) % Stride(gran) == 0
  {
  }

  lemma AllocatingStart(s: Tables, gran: Gran, begin: nat, b: nat, end: int)
    requires Inv(s) && b == begin - if gran == G1 then 0 else begin % Stride(gran)
    ensures Allocating(s, s, gran, begin, b, end)
  {
    if gran != G1 {
      FirstStrideFacts(gran, begin);
    }
  }

  lemma SameMeaningTrans(s0: Tables, s: Tables, s': Tables)
    requires Shape(s0) && Shape(s) && Shape(s') && SameMeaning(s0, s) && SameMeaning(s, s')
    ensures SameMeaning(s0, s')
  {
  }

  lemma TalliedMore(n0: nat, n: nat, n': nat, gran: Gran, begin: nat, b: nat, end: int)
    requires Tallied(n0, n, gran, begin, b, end) && b < end
    requires var first := FirstStride(gran, begin);
             n' + 512 * TablesBetween(gran, first, b) <= n + 512 * TablesBetween(gran, first, b + Stride(gran))
    ensures Tallied(n0, n', gran, begin, b + Stride(gran), end)
  {
    StridePlace(gran, b);
  }

  lemma Tallied2(n0: nat, s: Tables, begin: nat, b: nat, end: int)
    requires Shape(s) && Tallied(n0, |s.items|, M2, begin, b, end) && b < end <= N1 * GB1
    ensures Tallied(n0, |Split2(s, b / GB1).items|, M2, begin, b + GB1, end)
  {
    FirstStrideFacts(M2, begin);
    CountMore2(s, FirstStride(M2, begin), b);
    TalliedMore(n0, |s.items|, |Split2(s, b / GB1).items|, M2, begin, b, end);
  }

  lemma Tallied3(n0: nat, s: Tables, begin: nat, b: nat, end: int)
    requires Shape(s) && Tallied(n0, |s.items|, K4, begin, b, end) && b < end <= N3 * KB4
    requires Allocated(s, K4, begin / MB2, b, end)
    ensures Tallied(n0, |Split3(Split2(s, b / GB1), b / MB2).items|, K4, begin, b + MB2, end)
  {
    var first := FirstStride(K4, begin);
    FirstStrideFacts(K4, begin);
    CountMore3(s, first, b, end);
    TalliedMore(n0, |s.items|, |Split3(Split2(s, b / GB1), b / MB2).items|, K4, begin, b, end);
  }

  lemma AllocatingMore2(s0: Tables, s: Tables, begin: nat, b: nat, end: int)
    requires Allocating(s0, s, M2, begin, b, end) && b < end <= N1 * GB1
    ensures Allocating(s0, Split2(s, b / GB1), M2, begin, b + GB1, end)
  {
    AllocatedMore2(s, begin / GB1, b, end);
    SameMeaningTrans(s0, s, Split2(s, b / GB1));
    Tallied2(|s0.items|, s, begin, b, end);
  }

  lemma AllocatingMore3(s0: Tables, s: Tables, begin: nat, b: nat, end: int)
    requires Allocating(s0, s, K4, begin, b, end) && b < end <= N3 * KB4
    ensures Allocating(s0, Split3(Split2(s, b / GB1), b / MB2), K4, begin, b + MB2, end)
  {
    AllocatedMore3(s, begin / MB2, b, end);
    SameMeaningTrans(s0, s, Split3(Split2(s, b / GB1), b / MB2));
    Tallied3(|s0.items|, s, begin, b, end);
  }

  lemma AllocatingDone(s0: Tables, s: Tables, gran: Gran, begin: nat, b: nat, end: int)
    requires Allocating(s0, s, gran, begin, b, end) && b >= end
    ensures Inv(s) && SameMeaning(s0, s) && Allocated(s, gran, begin / Stride(gran), end, end)
    ensures |s.items| <= |s0.items| + 512 * TablesBetween(gran, FirstStride(gran, begin), end)
  {
    if gran != G1 && b > FirstStride(gran, begin) {
      FirstStrideFacts(gran, begin);
      CountEnds(gran, FirstStride(gran, begin), b, end);
    }
  }

  /** Effect of writing granule g. */
  ghost function Put(s: Tables, gran: Gran, g: nat, pa: nat, a: nat): Tables
    requires Shape(s) && Live(s, gran, g)
  {
    match gran
    case G1 => Put1(s, g, pa, a)
    case M2 => Put2(s, g, pa, a)
    case K4 => Put3(s, g, pa, a)
  }

  /** Writing granule g redirects exactly its own pages. */
  ghost predicate Redirected(s: Tables, s': Tables, gran: Gran, g: nat, pa: nat, a: nat)
    requires Shape(s) && Shape(s')
  {
    forall page :: 0 <= page < PAGES ==>
      Xlate(s', page) == if page / UnitPages(gran) == g then Leaf(pa + page % UnitPages(gran) * KB4, a)
                         else Xlate(s, page)
  }

  lemma UnitPlace(gran: Gran, p: nat)
    ensures p * Unit(gran) % Unit(gran) == 0 && p * Unit(gran) + Unit(gran) == (p + 1) * Unit(gran)
  {
  }

  lemma PutKeeps(s: Tables, gran: Gran, g: nat, p: nat, a: nat)
    requires Inv(s) && Live(s, gran, g) && (p + 1) * Unit(gran) <= PA_END && AttrOk(a)
    ensures var s' := Put(s, gran, g, p * Unit(gran), a);
            Inv(s') && forall h :: Live(s, gran, h) ==> Live(s', gran, h)
  {
    var pa := p * Unit(gran);
    UnitPlace(gran, p);
    match gran {
      case G1 => Put1Keeps(s, g, pa, a);
      case M2 => Put2Keeps(s, g, pa, a);
      case K4 => Put3Keeps(s, g, pa, a);
    }
  }

  lemma PutRedirects(s: Tables, gran: Gran, g: nat, pa: nat, a: nat)
    requires Inv(s) && Live(s, gran, g)
    ensures Shape(Put(s, gran, g, pa, a)) && Redirected(s, Put(s, gran, g, pa, a), gran, g, pa, a)
  {
    var s' := Put(s, gran, g, pa, a);
    forall page | 0 <= page < PAGES
      ensures Xlate(s', page) == if page / UnitPages(gran) == g
                                 then Leaf(pa + page % UnitPages(gran) * KB4, a) else Xlate(s, page)
    {
      match gran {
        case G1 => Put1Redirects(s, g, pa, a, page);
        case M2 => Put2Redirects(s, g, pa, a, page);
        case K4 => Put3Redirects(s, g, pa, a, page);
      }
    }
  }

  class MmuTables {
    var l1: seq<Entry>
    var l2: seq<Entry>
    var l3: seq<Entry>
    var items: seq<Slot>
    var relAddr: nat

    function St(): Tables
      reads this
    {
      Tables(l1, l2, l3, items, relAddr)
    }

    constructor ()
      ensures St() == Start() && Inv(St())
    {
      l1 := seq(N1, i => Blank);
      l2 := seq(N2, i => Blank);
      l3 := seq(N3, i => Blank);
      items := [];
      relAddr := 0;
      new;
      for i := 0 to N1
        invariant l2 == Start().l2 && l3 == Start().l3
        invariant l1 == Start().l1[..i] + seq(N1 - i, j => Blank)
        invariant items == Children1()[..i] && relAddr == 8 * i
      {
        l1 := l1[i := l1[i].(relAddr := relAddr)];
        items := items + [Slot1(i)];
        relAddr := relAddr + 8;
      }
      StartOk();
    }

    /** Gives level-1 entry g a level-2 table, unless it has one. */
    method ReallocL2(g: nat, m: nat)
      requires Shape(St()) && g < N1 && m / N1 == g
      modifies this
      ensures St() == Split2(old(St()), g)
    {
      var first := m - m % 512;
      if l1[g].attr == FAULT || l1[g].attr == BLOCK {
        for i := 0 to 512
          invariant l1 == old(l1) && l3 == old(l3) && |l2| == N2
          invariant l2 == WithChildren(old(l2), first, i, l1[g], MB2, BLOCK, L2, old(relAddr))
          invariant items == old(items) + Children2(g)[..i]
          invariant relAddr == old(relAddr) + 8 * i
        {
          var e := l2[first + i];
          if l1[g].attr == BLOCK {
            e := e.(attr := BLOCK, memAttr := l1[g].memAttr, entryAddr := l1[g].entryAddr + i * MB2);
          } else {
            e := e.(attr := FAULT);
          }
          l2 := l2[first + i := e.(relAddr := relAddr, typ := L2)];
          items := items + [Slot2(first + i)];
          relAddr := relAddr + 8;
        }
        l1 := l1[g := l1[g].(entryAddr := l2[first].relAddr, entryIdx := first, attr := TABLE)];
      }
    }

    /** Gives level-2 entry m a level-3 table, unless it has one. */
    method ReallocL3(m: nat, k: nat)
      requires Shape(St()) && m < N2 && k == 512 * m && k + 512 <= N3
      modifies this
      ensures St() == Split3(old(St()), m)
    {
      if l2[m].attr == FAULT || l2[m].attr == BLOCK {
        for i := 0 to 512
          invariant l1 == old(l1) && l2 == old(l2) && |l3| == N3
          invariant l3 == WithChildren(old(l3), k, i, l2[m], KB4, PAGE, L3, old(relAddr))
          invariant items == old(items) + Children3(m)[..i]
          invariant relAddr == old(relAddr) + 8 * i
        {
          var e := l3[k + i];
          if l2[m].attr == BLOCK {
            e := e.(attr := PAGE, memAttr := l2[m].memAttr, entryAddr := l2[m].entryAddr + i * KB4);
          } else {
            e := e.(attr := FAULT);
          }
          l3 := l3[k + i := e.(relAddr := relAddr, typ := L3)];
          items := items + [Slot3(k + i)];
          relAddr := relAddr + 8;
        }
        l2 := l2[m := l2[m].(entryAddr := l3[k].relAddr, entryIdx := k, attr := TABLE)];
      }
    }

    /** Gives address b a level-2 and a level-3 table. */
    method ReallocL23(b: nat)
      requires Shape(St()) && b % MB2 == 0 && b < N3 * KB4
      modifies this
      ensures St() == Split3(Split2(old(St()), b / GB1), b / MB2)
    {
      var g, m, k := b / GB1, b / MB2, b / KB4;
      assert k == 512 * m && m / N1 == g;
      ReallocL2(g, m);
      ReallocL3(m, k);
    }

    /** One turn of the allocation loop. */
    method AllocTurn(begin: nat, b: nat, end: int, gran: Gran, ghost s0: Tables) returns (next: nat)
      requires Allocating(s0, St(), gran, begin, b, end) && b < end
      requires gran == M2 ==> end <= N1 * GB1
      requires gran == K4 ==> end <= N3 * KB4
      modifies this
      ensures Allocating(s0, St(), gran, begin, next, end) && next == b + Stride(gran)
    {
      match gran {
        case G1 =>
          next := b + GB1;
        case M2 =>
          AllocatingMore2(s0, St(), begin, b, end);
          ReallocL2(b / GB1, b / MB2);
          next := b + GB1;
        case K4 =>
          AllocatingMore3(s0, St(), begin, b, end);
          ReallocL23(b);
          next := b + MB2;
      }
    }

    /** Allocates every table that mapping [begin, end) needs; no translation changes. */
    method ReallocTb(begin: nat, end: int, gran: Gran)
      requires Inv(St())
      requires gran == M2 ==> end <= N1 * GB1
      requires gran == K4 ==> end <= N3 * KB4
      modifies this
      ensures Inv(St()) && SameMeaning(old(St()), St())
      ensures Allocated(St(), gran, begin / Stride(gran), end, end)
      ensures |items| <= |old(items)| + 512 * TablesBetween(gran, FirstStride(gran, begin), end)
    {
      var b := begin;
      if gran == M2 {
        b := b - b % GB1;
      }
      if gran == K4 {
        b := b - b % MB2;
      }
      AllocatingStart(St(), gran, begin, b, end);
      while b < end
        invariant Allocating(old(St()), St(), gran, begin, b, end)
        decreases end - b
      {
        b := AllocTurn(begin, b, end, gran, old(St()));
      }
      AllocatingDone(old(St()), St(), gran, begin, b, end);
    }

    /** Writes the block or page descriptor of the granule that holds `start`. */
    method PutGranule(gran: Gran, start: nat, phyAddr: nat, attr: nat)
      requires Shape(St()) && Live(St(), gran, start / Unit(gran))
      modifies this
      ensures St() == Put(old(St()), gran, start / Unit(gran), phyAddr / Unit(gran) * Unit(gran), attr)
    {
      match gran {
        case G1 =>
          var g := start / GB1;
          l1 := l1[g := l1[g].(entryAddr := phyAddr / GB1 * GB1, attr := BLOCK, memAttr := attr, use := true)];
        case M2 =>
          var m := start / MB2;
          l2 := l2[m := l2[m].(entryAddr := phyAddr / MB2 * MB2, attr := BLOCK, memAttr := attr, use := true)];
        case K4 =>
          var k := start / KB4;
          l3 := l3[k := l3[k].(entryAddr := phyAddr / KB4 * KB4, attr := PAGE, memAttr := attr, use := true)];
      }
    }

    /** One turn of the mapping loop. */
    method MapStep(r: Region, start: nat, phyAddr: nat, ghost s0: Tables, ghost j: nat)
      requires RegionOk(r) && Mapping(s0, St(), r, j) && j < Count(r) && AtStep(r, j, start, phyAddr)
      modifies this
      ensures Mapping(s0, St(), r, j + 1)
    {
      PutOverlays(s0, St(), r, j);
      PutGranule(r.gran, start, phyAddr, r.attr);
    }

    /** Maps one region: its pages get its addresses and attributes, every other page keeps its own. */
    method MmuMap(r: Region)
      requires Inv(St()) && RegionOk(r)
      modifies this
      ensures Inv(St())
      ensures Overlaid(old(St()), St(), r, Count(r))
      ensures |items| <= |old(items)| + 512 * TablesOf(r)
    {
      ReallocTb(r.virtBegin, VirtEnd(r), r.gran);
      ghost var s0 := St();
      ghost var j := 0;
      var u := Unit(r.gran);
      var start, end, phyAddr := r.virtBegin, VirtEnd(r), r.phyBegin;
      LiveAll(s0, r);
      while start < end
        invariant Mapping(s0, St(), r, j)
        invariant AtStep(r, j, start, phyAddr)
        decreases end - start
      {
        StepOnce(r, j, start, phyAddr);
        MapStep(r, start, phyAddr, s0, j);
        start := start + u;
        phyAddr := phyAddr + u;
        j := j + 1;
      }
    }

    /** Maps the regions of a fresh table set one after the other. */
    method MapAll(rs: seq<Region>)
      requires St() == Start() && forall i :: 0 <= i < |rs| ==> RegionOk(rs[i])
      modifies this
      ensures Inv(St()) && Means(St(), rs)
      ensures |items| <= 512 + 512 * TablesFor(rs)
    {
      StartOk();
      for i := 0 to |rs|
        invariant Inv(St()) && Means(St(), rs[..i])
        invariant |items| <= 512 + 512 * TablesFor(rs[..i])
      {
        ghost var s := St();
        MmuMap(rs[i]);
        MeansMore(s, St(), rs, i);
      }
      assert rs[..|rs|] == rs;
    }

    /** Serialises the items for a table that will sit at physical address base. */
    method Write2Bin(base: nat, mmuSize: nat) returns (b: Binary)
      requires Inv(St()) && base % 4096 == 0
      ensures b != AttrError
      ensures b.Image? ==> |b.bytes| == relAddr <= mmuSize
      ensures base + relAddr <= PA_END ==> (b.Image? <==> relAddr <= mmuSize) && b != PackError
      ensures b.Image? && base + mmuSize <= PA_END ==> Emitted(St(), base, b.bytes)
    {
      ItemsInRange(St());
      var bytes: seq<Byte> := [];
      for p := 0 to |items|
        invariant EncodesTo(St(), base, bytes, p)
      {
        ItemTyped(St(), p);
        var w := Word(Lookup(St(), items[p]), base);
        if w.None? {
          return AttrError;
        }
        if w.value >= 0x1_0000_0000_0000_0000 {
          if base + relAddr <= PA_END {
            ItemWord(St(), base, p);
          }
          return PackError;
        }
        AppendItem(St(), base, bytes, p, w.value);
        bytes := bytes + LeBytes(w.value, 8);
      }
      if |bytes| > mmuSize {
        return TooBig;
      }
      b := Image(bytes);
    }
  }

  /** The tables mean the regions, laid over each other in order. */
  ghost predicate Means(s: Tables, rs: seq<Region>)
    requires Shape(s)
  {
    forall page :: 0 <= page < PAGES ==> Xlate(s, page) == PageMeaning(rs, page)
  }

  lemma MeansMore(s: Tables, s': Tables, rs: seq<Region>, i: nat)
    requires Shape(s) && Shape(s') && i < |rs| && Means(s, rs[..i]) && Overlaid(s, s', rs[i], Count(rs[i]))
    ensures Means(s', rs[..i + 1]) && TablesFor(rs[..i + 1]) == TablesFor(rs[..i]) + TablesOf(rs[i])
  {
    assert rs[..i + 1][..i] == rs[..i];
  }

  lemma ItemsInRange(s: Tables)
    requires Inv(s)
    ensures forall p :: 0 <= p < |s.items| ==> InRange(s.items[p])
  {
    forall p | 0 <= p < |s.items| ensures InRange(s.items[p]) {
      assert ItemOk(s, p);
    }
  }

  /** A listed entry has one of the type codes that serialisation knows. */
  lemma ItemTyped(s: Tables, p: nat)
    requires Inv(s) && p < |s.items|
    ensures ItemOk(s, p)
    ensures forall base :: Word(Lookup(s, s.items[p]), base).Some?
  {
    assert ItemOk(s, p);
    match s.items[p] {
      case Slot1(i) => assert Ok1(s, i);
      case Slot2(i) => assert Ok2(s, i);
      case Slot3(i) => assert Ok3(s, i);
    }
  }

  /** Appending a packed word extends a correct serialisation by one item. */
  lemma AppendItem(s: Tables, base: nat, b: seq<Byte>, p: nat, w: nat)
    requires Shape(s) && p < |s.items| && forall q :: 0 <= q < |s.items| ==> InRange(s.items[q])
    requires EncodesTo(s, base, b, p) && w < 0x1_0000_0000_0000_0000
    requires Word(Lookup(s, s.items[p]), base) == Some(w)
    ensures EncodesTo(s, base, b + LeBytes(w, 8), p + 1)
  {
    var b' := b + LeBytes(w, 8);
    Pow64();
    LeRoundTrip(w, 8);
    assert b'[8 * p..8 * p + 8] == LeBytes(w, 8);
    forall q | 0 <= q < p ensures WordAt(b', q) == WordAt(b, q) {
      assert b'[8 * q..8 * q + 8] == b[8 * q..8 * q + 8];
    }
  }

  /** One line of a level's map in the configuration file. */
  datatype MapLine = MapLine(phyBegin: nat, phyEnd: nat, virtBegin: nat, gran: Gran, kind: Kind)

  function ToRegion(m: MapLine, el1: bool): Region {
    Region(m.phyBegin, m.phyEnd, m.virtBegin, m.gran, AttrBits(m.kind, el1))
  }

  function ToRegions(ms: seq<MapLine>, el1: bool): (rs: seq<Region>)
    ensures |rs| == |ms| && forall i :: 0 <= i < |ms| ==> rs[i] == ToRegion(ms[i], el1)
  {
    seq(|ms|, i requires 0 <= i < |ms| => ToRegion(ms[i], el1))
  }

  /** The generated image sends every virtual address where the last covering region says. */
  ghost predicate Implements(image: seq<Byte>, base: nat, rs: seq<Region>) {
    forall va :: 0 <= va < N1 * GB1 ==> Walk(image, base, va) == LastWins(rs, va)
  }

  lemma EmittedImplements(s: Tables, base: nat, image: seq<Byte>, rs: seq<Region>)
    requires Emitted(s, base, image)
    requires Means(s, rs)
    ensures Implements(image, base, SteppedAll(rs))
  {
    forall va | 0 <= va < N1 * GB1 ensures Walk(image, base, va) == LastWins(SteppedAll(rs), va) {
      WalkCorrect(s, base, image, va);
      PageMeaningIsLastWins(rs, va);
    }
  }

  /**
    Builds the tables of one exception level from its map and serialises them for address base.  The image
    takes at most one page for the first level and one for each sub-table that the map's regions span.
   */
  method GenElxBin(ms: seq<MapLine>, el1: bool, base: nat, mmuSize: nat) returns (b: Binary)
    requires forall i :: 0 <= i < |ms| ==>
      InRoom(Region(ms[i].phyBegin, ms[i].phyEnd, ms[i].virtBegin, ms[i].gran, 0))
    requires base % 4096 == 0 && base + mmuSize <= PA_END
    ensures b != AttrError
    ensures b.Image? ==> |b.bytes| <= mmuSize && |b.bytes| <= ImageBound(ToRegions(ms, el1))
    ensures b.Image? ==> Implements(b.bytes, base, SteppedAll(ToRegions(ms, el1)))
    ensures b.Image? && (forall i :: 0 <= i < |ms| ==> LineAligned(ms[i])) ==>
      forall va: nat :: va < 0x80_0000_0000 ==> DecidedByLast(ms, el1, va, Walk(b.bytes, base, va))
    ensures ImageBound(ToRegions(ms, el1)) <= mmuSize ==> b.Image?
  {
    var tables := new MmuTables();
    var rs := ToRegions(ms, el1);
    forall i | 0 <= i < |ms| ensures RegionOk(rs[i]) {
      AttrBitsOk(ms[i].kind, el1);
    }
    tables.MapAll(rs);
    b := tables.Write2Bin(base, mmuSize);
    if b.Image? {
      EmittedImplements(tables.St(), base, b.bytes, rs);
      if forall i :: 0 <= i < |ms| ==> LineAligned(ms[i]) {
        ImageObeys(b.bytes, base, ms, el1);
      }
    }
  }

  predicate LineAligned(m: MapLine) {
    var u := match m.gran case G1 => 0x4000_0000 case M2 => 0x20_0000 case K4 => 0x1000;
    m.phyBegin % u == 0 && m.phyEnd % u == 0 && m.virtBegin % u == 0 && m.phyBegin <= m.phyEnd
  }

  predicate LineCovers(m: MapLine, va: nat) {
    m.virtBegin <= va < m.virtBegin + (m.phyEnd - m.phyBegin)
  }

  /** va goes where the line says, with the attributes of its kind of memory. */
  ghost predicate Obeys(m: MapLine, el1: bool, va: nat, out: Outcome) {
    out.Mapped? && out.pa == m.phyBegin + (va - m.virtBegin) && out.upper == 0 && Says(out.lower, m.kind, el1)
  }

  /** The last line that covers va decides its outcome, in address and attributes; none means a fault. */
  ghost predicate DecidedByLast(ms: seq<MapLine>, el1: bool, va: nat, out: Outcome) {
    && (forall i :: 0 <= i < |ms| && LineCovers(ms[i], va) && (forall j :: i < j < |ms| ==> !LineCovers(ms[j], va)) ==>
          Obeys(ms[i], el1, va, out))
    && ((forall i :: 0 <= i < |ms| ==> !LineCovers(ms[i], va)) ==> out == Fault)
  }

  lemma LineIsRegion(m: MapLine, el1: bool, va: nat)
    ensures LineCovers(m, va) <==> Covers(ToRegion(m, el1), va)
    ensures LineAligned(m) <==> Aligned(ToRegion(m, el1))
    ensures LineCovers(m, va) ==>
      var r := ToRegion(m, el1); Obeys(m, el1, va, Mapped(r.phyBegin + (va - r.virtBegin), 0, r.attr))
  {
    AttrBitsOk(m.kind, el1);
  }

  /** An image that implements the lines' regions obeys the lines. */
  lemma LinesDecide(ms: seq<MapLine>, el1: bool, va: nat)
    ensures DecidedByLast(ms, el1, va, LastWins(ToRegions(ms, el1), va))
  {
    var rs := ToRegions(ms, el1);
    forall i | 0 <= i < |ms| ensures LineCovers(ms[i], va) <==> Covers(rs[i], va) {
      LineIsRegion(ms[i], el1, va);
    }
    forall i | 0 <= i < |ms| && LineCovers(ms[i], va) && (forall j :: i < j < |ms| ==> !LineCovers(ms[j], va))
      ensures Obeys(ms[i], el1, va, LastWins(rs, va))
    {
      LineIsRegion(ms[i], el1, va);
      LastIs(rs, va, i);
    }
    if forall i :: 0 <= i < |ms| ==> !LineCovers(ms[i], va) {
      NoneIs(rs, va);
    }
  }

  /** What aligned lines make of an image that implements their regions. */
  lemma ImageObeys(image: seq<Byte>, base: nat, ms: seq<MapLine>, el1: bool)
    requires Implements(image, base, SteppedAll(ToRegions(ms, el1)))
    requires forall i :: 0 <= i < |ms| ==> LineAligned(ms[i])
    ensures forall va: nat :: va < 0x80_0000_0000 ==> DecidedByLast(ms, el1, va, Walk(image, base, va))
  {
    var rs := ToRegions(ms, el1);
    forall i | 0 <= i < |rs| ensures Aligned(rs[i]) {
      LineIsRegion(ms[i], el1, 0);
    }
    AlignedAreExact(rs);
    forall va: nat | va < 0x80_0000_0000 ensures DecidedByLast(ms, el1, va, Walk(image, base, va)) {
      LinesDecide(ms, el1, va);
    }
  }

  /** The size an image of these regions has at most. */
  function ImageBound(rs: seq<Region>): nat {
    4096 + 4096 * TablesFor(rs)
  }

  ghost predicate AllLive(s: Tables, r: Region)
    requires Shape(s)
  {
    var first := r.virtBegin / Unit(r.gran);
    forall g :: first <= g < first + Count(r) ==> Live(s, r.gran, g)
  }

  /** s' is s with the first n granules of the region on top. */
  ghost predicate Overlaid(s: Tables, s': Tables, r: Region, n: nat)
    requires Shape(s) && Shape(s')
  {
    forall page :: 0 <= page < PAGES ==> Xlate(s', page) == Overlay(r, n, page, Xlate(s, page))
  }

  ghost predicate Mapping(s0: Tables, s: Tables, r: Region, j: nat) {
    Shape(s0) && Inv(s) && s.items == s0.items && AllLive(s, r) && Overlaid(s0, s, r, j)
  }

  lemma OverlayStep(s0: Tables, s: Tables, s': Tables, r: Region, j: nat)
    requires Shape(s0) && Shape(s) && Shape(s') && Overlaid(s0, s, r, j)
    requires var u := Unit(r.gran);
             Redirected(s, s', r.gran, r.virtBegin / u + j, (r.phyBegin / u + j) * u, r.attr)
    ensures Overlaid(s0, s', r, j + 1)
  {
    forall page | 0 <= page < PAGES ensures Xlate(s', page) == Overlay(r, j + 1, page, Xlate(s0, page)) {
      assert Xlate(s, page) == Overlay(r, j, page, Xlate(s0, page));
    }
  }

  /** Writing granule j on top of the first j. */
  lemma PutOverlays(s0: Tables, s: Tables, r: Region, j: nat)
    requires RegionOk(r) && j < Count(r) && Mapping(s0, s, r, j)
    ensures var u := Unit(r.gran);
            var s' := Put(s, r.gran, r.virtBegin / u + j, (r.phyBegin / u + j) * u, r.attr);
            Mapping(s0, s', r, j + 1)
  {
    var u := Unit(r.gran);
    var g, p := r.virtBegin / u + j, r.phyBegin / u + j;
    RoomFor(r, j);
    PutKeeps(s, r.gran, g, p, r.attr);
    PutRedirects(s, r.gran, g, p * u, r.attr);
    OverlayStep(s0, s, Put(s, r.gran, g, p * u, r.attr), r, j);
  }

  /** After ReallocTb every granule of the region is live. */
  lemma LiveAll(s: Tables, r: Region)
    requires Inv(s) && RegionOk(r)
    requires Allocated(s, r.gran, r.virtBegin / Stride(r.gran), VirtEnd(r), VirtEnd(r))
    ensures AllLive(s, r)
  {
    var first := r.virtBegin / Unit(r.gran);
    forall g | first <= g < first + Count(r) ensures Live(s, r.gran, g) {
      match r.gran {
        case G1 =>
        case M2 => Live2(s, r, g);
        case K4 => Live3(s, r, g);
      }
    }
  }

  lemma Live2(s: Tables, r: Region, g: nat)
    requires Inv(s) && RegionOk(r) && r.gran == M2 && r.virtBegin / MB2 <= g < r.virtBegin / MB2 + Count(r)
    requires Allocated(s, M2, r.virtBegin / GB1, VirtEnd(r), VirtEnd(r))
    ensures Live(s, M2, g)
  {
    StepIndex(r, g - r.virtBegin / MB2);
    assert g * MB2 < VirtEnd(r);
    var h := g / N1;
    assert r.virtBegin / GB1 <= h && h * GB1 <= g * MB2;
  }

  lemma Live3(s: Tables, r: Region, g: nat)
    requires Inv(s) && RegionOk(r) && r.gran == K4 && r.virtBegin / KB4 <= g < r.virtBegin / KB4 + Count(r)
    requires Allocated(s, K4, r.virtBegin / MB2, VirtEnd(r), VirtEnd(r))
    ensures Live(s, K4, g)
  {
    StepIndex(r, g - r.virtBegin / KB4);
    assert g * KB4 < VirtEnd(r);
    var h := g / N1;
    assert r.virtBegin / MB2 <= h && h * MB2 <= g * KB4;
    assert h / N1 == g / N2;
  }

  /** Step j of the mapping loop works on granule j of the region. */
  lemma StepIndex(r: Region, j: nat)
    ensures var u := Unit(r.gran);
            && (r.virtBegin + j * u) / u == r.virtBegin / u + j
            && (r.phyBegin + j * u) / u == r.phyBegin / u + j
            && (r.virtBegin + j * u < VirtEnd(r) <==> j < Count(r))
  {
  }

  /** The mapping loop has done j granules and stands at these addresses. */
  ghost predicate AtStep(r: Region, j: nat, start: nat, phyAddr: nat) {
    var u := Unit(r.gran);
    && start / u == r.virtBegin / u + j
    && phyAddr / u == r.phyBegin / u + j
    && Count(r) == j + Steps(VirtEnd(r) - start, r.gran)
  }

  lemma OneUnit(gran: Gran, x: nat)
    ensures (x + Unit(gran)) / Unit(gran) == x / Unit(gran) + 1
  {
  }

  lemma OneStep(gran: Gran, size: int)
    requires size > 0
    ensures Steps(size, gran) == 1 + Steps(size - Unit(gran), gran)
  {
  }

  lemma StepOnce(r: Region, j: nat, start: nat, phyAddr: nat)
    requires AtStep(r, j, start, phyAddr) && start < VirtEnd(r)
    ensures j < Count(r) && AtStep(r, j + 1, start + Unit(r.gran), phyAddr + Unit(r.gran))
  {
    OneUnit(r.gran, start);
    OneUnit(r.gran, phyAddr);
    OneStep(r.gran, VirtEnd(r) - start);
  }

  lemma RoomFor(r: Region, j: nat)
    requires RegionOk(r) && j < Count(r)
    ensures (r.phyBegin / Unit(r.gran) + j + 1) * Unit(r.gran) <= PA_END
  {
  }
}
