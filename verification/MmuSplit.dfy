/** Splitting an entry keeps the invariant and the meaning of every page. */
module MmuSplit {
  import opened MmuModel

  lemma StartOk()
    ensures Inv(Start())
    ensures forall page :: 0 <= page < PAGES ==> Xlate(Start(), page) == Unmapped
  {
    var s := Start();
    forall p | 0 <= p < |s.items| ensures ItemOk(s, p) {
      assert s.items[p] == Slot1(p);
    }
  }

  lemma NamesGrows(s: Tables, s': Tables, addr: nat, children: seq<Slot>)
    requires |children| == 512 && Names(s, addr, children) && s.items <= s'.items
    ensures Names(s', addr, children)
  {
    assert s'.items[addr / 8..addr / 8 + 512] == s.items[addr / 8..addr / 8 + 512];
  }

  lemma NamesNew(s: Tables, s': Tables, children: seq<Slot>)
    requires Layout(s) && |children| == 512 && s'.items == s.items + children
    ensures Names(s', s.relAddr, children)
  {
    assert s.relAddr % 4096 == 0;
    assert s'.items[|s.items|..|s.items| + 512] == children;
  }

  lemma LayoutGrows(s: Tables, s': Tables, children: seq<Slot>)
    requires Layout(s) && |children| == 512
    requires s'.items == s.items + children && s'.relAddr == s.relAddr + 4096
    ensures Layout(s')
  {
    assert s'.items[..512] == s.items[..512];
  }

  /** Items stay well placed when 512 slots are appended and take the addresses of their new places. */
  lemma ItemsGrow(s: Tables, s': Tables, children: seq<Slot>)
    requires Shape(s) && Shape(s') && Layout(s) && |children| == 512
    requires forall p :: 0 <= p < |s.items| ==> ItemOk(s, p)
    requires s'.items == s.items + children
    requires forall i :: 0 <= i < 512 ==>
      InRange(children[i]) && TypeMatches(children[i], Lookup(s', children[i])) &&
      Lookup(s', children[i]).relAddr == s.relAddr + 8 * i
    requires forall t :: InRange(t) && t !in children ==>
      Lookup(s', t).relAddr == Lookup(s, t).relAddr && Lookup(s', t).typ == Lookup(s, t).typ
    ensures forall p :: 0 <= p < |s'.items| ==> ItemOk(s', p)
  {
    forall p | 0 <= p < |s'.items| ensures ItemOk(s', p) {
      var t := s'.items[p];
      if t in children {
        var i :| 0 <= i < 512 && children[i] == t;
        if |s.items| <= p {
          assert t == children[p - |s.items|];
        }
        assert s'.items[|s.items| + i] == t;
      } else {
        assert p < |s.items|;
        assert ItemOk(s, p);
      }
    }
  }

  lemma Split2Items(s: Tables, g: nat)
    requires Inv(s) && g < N1 && s.l1[g].attr != TABLE
    ensures var s' := Split2(s, g); forall p :: 0 <= p < |s'.items| ==> ItemOk(s', p)
  {
    assert Ok1(s, g);
    var s' := Split2(s, g);
    var c := Children2(g);
    forall t | InRange(t)
      ensures t in c || (Lookup(s', t).relAddr == Lookup(s, t).relAddr && Lookup(s', t).typ == Lookup(s, t).typ)
    {
      if t.Slot2? && 512 * g <= t.i < 512 * g + 512 {
        assert c[t.i - 512 * g] == t;
      }
    }
    ItemsGrow(s, s', c);
  }

  /** The i-th 2M piece of an aligned 1G block is aligned and lies inside it. */
  lemma Piece(addr: nat, i: nat)
    requires addr % GB1 == 0 && i < 512
    ensures (addr + i * MB2) % MB2 == 0 && addr + i * MB2 + MB2 <= addr + GB1
  {
    assert addr == addr / GB1 * 512 * MB2;
    assert addr + i * MB2 == (addr / GB1 * 512 + i) * MB2;
  }

  lemma PieceAligned(addr: nat)
    requires addr % MB2 == 0
    ensures addr % KB4 == 0
  {
  }

  /** A level-2 entry outside the split keeps its state. */
  lemma Split2Others(s: Tables, g: nat, m: nat)
    requires Inv(s) && g < N1 && s.l1[g].attr != TABLE && m < N2 && !(512 * g <= m < 512 * g + 512)
    ensures Ok2(Split2(s, g), m)
  {
    assert Ok1(s, g) && Ok2(s, m);
    if s.l2[m].attr == TABLE {
      NamesGrows(s, Split2(s, g), s.l2[m].entryAddr, Children3(m));
    }
  }

  /** A level-2 entry of the new table is fine. */
  lemma Split2Children(s: Tables, g: nat, m: nat)
    requires Inv(s) && g < N1 && s.l1[g].attr != TABLE && m < N2 && 512 * g <= m < 512 * g + 512
    ensures Ok2(Split2(s, g), m)
  {
    assert Ok1(s, g) && Ok2(s, m);
    var e := s.l1[g];
    if e.attr == BLOCK {
      Piece(e.entryAddr, m - 512 * g);
      PieceAligned(e.entryAddr + (m - 512 * g) * MB2);
    }
  }

  lemma Split2Keeps(s: Tables, g: nat)
    requires Inv(s) && g < N1
    ensures Inv(Split2(s, g)) && Split2(s, g).l1[g].attr == TABLE
  {
    assert Ok1(s, g);
    if s.l1[g].attr != TABLE {
      var s' := Split2(s, g);
      LayoutGrows(s, s', Children2(g));
      NamesNew(s, s', Children2(g));
      forall h | 0 <= h < N1 ensures Ok1(s', h) {
        assert Ok1(s, h);
        if h != g && s.l1[h].attr == TABLE {
          NamesGrows(s, s', s.l1[h].entryAddr, Children2(h));
        }
      }
      forall m | 0 <= m < N2 ensures Ok2(s', m) {
        if 512 * g <= m < 512 * g + 512 {
          Split2Children(s, g, m);
        } else {
          Split2Others(s, g, m);
        }
      }
      forall k | 0 <= k < N3 ensures Ok3(s', k) {
        assert Ok3(s, k);
      }
      Split2Items(s, g);
    }
  }

  /** realloc_l2 changes no translation, whatever the level-1 entry was. */
  lemma Split2Preserves(s: Tables, g: nat, page: nat)
    requires Inv(s) && g < N1 && page < PAGES
    ensures Xlate(Split2(s, g), page) == Xlate(s, page)
  {
    assert Ok1(s, g);
    if page / N2 == g {
      assert page / N1 - 512 * g == page % N2 / N1;
      assert page % N2 == page % N2 / N1 * N1 + page % N1;
    } else {
      assert !(512 * g <= page / N1 < 512 * g + 512);
    }
  }

  lemma Split3Items(s: Tables, m: nat)
    requires Inv(s) && m < N2 && 512 * m + 512 <= N3 && s.l2[m].attr != TABLE
    ensures var s' := Split3(s, m); forall p :: 0 <= p < |s'.items| ==> ItemOk(s', p)
  {
    assert Ok2(s, m);
    var s' := Split3(s, m);
    var c := Children3(m);
    forall t | InRange(t)
      ensures t in c || (Lookup(s', t).relAddr == Lookup(s, t).relAddr && Lookup(s', t).typ == Lookup(s, t).typ)
    {
      if t.Slot3? && 512 * m <= t.i < 512 * m + 512 {
        assert c[t.i - 512 * m] == t;
      }
    }
    ItemsGrow(s, s', c);
  }

  lemma Split3Children(s: Tables, m: nat, k: nat)
    requires Inv(s) && m < N2 && 512 * m + 512 <= N3 && s.l2[m].attr != TABLE && k < N3
    ensures Ok3(Split3(s, m), k)
  {
    assert Ok2(s, m) && Ok3(s, k);
    if 512 * m <= k < 512 * m + 512 && s.l2[m].attr == BLOCK {
      PieceAligned(s.l2[m].entryAddr);
    }
  }

  lemma Split3Parents(s: Tables, m: nat)
    requires Inv(s) && m < N2 && 512 * m + 512 <= N3 && s.l2[m].attr != TABLE
    ensures var s' := Split3(s, m);
            && (forall h :: 0 <= h < N1 ==> Ok1(s', h))
            && (forall h :: 0 <= h < N2 ==> Ok2(s', h))
  {
    assert Ok2(s, m);
    var s' := Split3(s, m);
    NamesNew(s, s', Children3(m));
    forall h | 0 <= h < N1 ensures Ok1(s', h) {
      assert Ok1(s, h);
      if s.l1[h].attr == TABLE {
        NamesGrows(s, s', s.l1[h].entryAddr, Children2(h));
      }
    }
    forall h | 0 <= h < N2 ensures Ok2(s', h) {
      assert Ok2(s, h);
      if h != m && s.l2[h].attr == TABLE {
        NamesGrows(s, s', s.l2[h].entryAddr, Children3(h));
      }
    }
  }

  lemma Split3Keeps(s: Tables, m: nat)
    requires Inv(s) && m < N2 && 512 * m + 512 <= N3
    ensures Inv(Split3(s, m)) && Split3(s, m).l2[m].attr == TABLE
    ensures Split3(s, m).l1 == s.l1
  {
    assert Ok2(s, m);
    if s.l2[m].attr != TABLE {
      var s' := Split3(s, m);
      LayoutGrows(s, s', Children3(m));
      Split3Parents(s, m);
      forall k | 0 <= k < N3 ensures Ok3(s', k) {
        Split3Children(s, m, k);
      }
      Split3Items(s, m);
    }
  }

  /** realloc_l3 changes no translation, whatever the level-2 entry was. */
  lemma Split3Preserves(s: Tables, m: nat, page: nat)
    requires Inv(s) && m < N2 && 512 * m + 512 <= N3 && page < PAGES
    ensures Xlate(Split3(s, m), page) == Xlate(s, page)
  {
    assert Ok2(s, m);
    if page / N1 == m {
      assert page - 512 * m == page % N1;
    } else {
      assert !(512 * m <= page < 512 * m + 512);
    }
  }
}
