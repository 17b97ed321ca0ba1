/** Writing one block or page descriptor: what it keeps and which pages it redirects. */
module MmuPut {
  import opened MmuModel
  import opened MmuSplit

  lemma SameItems(s: Tables, s': Tables)
    requires Shape(s) && Shape(s') && s.items == s'.items
    requires forall p :: 0 <= p < |s.items| ==> ItemOk(s, p)
    requires forall t :: InRange(t) ==>
      Lookup(s', t).relAddr == Lookup(s, t).relAddr && Lookup(s', t).typ == Lookup(s, t).typ
    ensures forall p :: 0 <= p < |s'.items| ==> ItemOk(s', p)
  {
    forall p | 0 <= p < |s'.items| ensures ItemOk(s', p) {
      assert ItemOk(s, p);
    }
  }

  /** Entries that did not change stay fine while the item list stays the same. */
  lemma SameEntries(s: Tables, s': Tables)
    requires Inv(s) && Shape(s') && s'.items == s.items && s'.relAddr == s.relAddr
    ensures forall g :: 0 <= g < N1 && s'.l1[g] == s.l1[g] ==> Ok1(s', g)
    ensures forall m :: 0 <= m < N2 && s'.l2[m] == s.l2[m] ==> Ok2(s', m)
    ensures forall k :: 0 <= k < N3 && s'.l3[k] == s.l3[k] ==> Ok3(s', k)
  {
    forall g | 0 <= g < N1 && s'.l1[g] == s.l1[g] ensures Ok1(s', g) {
      assert Ok1(s, g);
    }
    forall m | 0 <= m < N2 && s'.l2[m] == s.l2[m] ensures Ok2(s', m) {
      assert Ok2(s, m);
    }
    forall k | 0 <= k < N3 && s'.l3[k] == s.l3[k] ensures Ok3(s', k) {
      assert Ok3(s, k);
    }
  }

  lemma Put1Keeps(s: Tables, g: nat, pa: nat, a: nat)
    requires Inv(s) && g < N1 && pa % GB1 == 0 && pa + GB1 <= PA_END && AttrOk(a)
    ensures Inv(Put1(s, g, pa, a))
  {
    var s' := Put1(s, g, pa, a);
    SameEntries(s, s');
    SameItems(s, s');
  }

  lemma Put1Redirects(s: Tables, g: nat, pa: nat, a: nat, page: nat)
    requires Inv(s) && g < N1 && page < PAGES
    ensures Xlate(Put1(s, g, pa, a), page)
         == if page / N2 == g then Leaf(pa + page % N2 * KB4, a) else Xlate(s, page)
  {
  }

  lemma Put2Keeps(s: Tables, m: nat, pa: nat, a: nat)
    requires Inv(s) && m < N2 && pa % MB2 == 0 && pa + MB2 <= PA_END && AttrOk(a)
    ensures Inv(Put2(s, m, pa, a))
  {
    var s' := Put2(s, m, pa, a);
    SameEntries(s, s');
    SameItems(s, s');
  }

  lemma Put2Redirects(s: Tables, m: nat, pa: nat, a: nat, page: nat)
    requires Inv(s) && m < N2 && page < PAGES && s.l1[m / N1].attr == TABLE
    ensures Xlate(Put2(s, m, pa, a), page)
         == if page / N1 == m then Leaf(pa + page % N1 * KB4, a) else Xlate(s, page)
  {
    assert page / N1 / N1 == page / N2;
  }

  lemma Put3Keeps(s: Tables, k: nat, pa: nat, a: nat)
    requires Inv(s) && k < N3 && pa % KB4 == 0 && pa + KB4 <= PA_END && AttrOk(a)
    ensures Inv(Put3(s, k, pa, a))
  {
    var s' := Put3(s, k, pa, a);
    SameEntries(s, s');
    SameItems(s, s');
  }

  lemma Put3Redirects(s: Tables, k: nat, pa: nat, a: nat, page: nat)
    requires Inv(s) && k < N3 && page < PAGES
    requires s.l1[k / N2].attr == TABLE && s.l2[k / N1].attr == TABLE
    ensures Xlate(Put3(s, k, pa, a), page) == if page == k then Leaf(pa, a) else Xlate(s, page)
  {
  }

  // ----- the naive layout

  /** Every listed entry's own address is that of the position it is listed at. */
  ghost predicate NaiveLayout(s: Tables)
    requires Inv(s)
  {
    forall p :: 0 <= p < |s.items| ==> ItemOk(s, p) && Lookup(s, s.items[p]).relAddr == 8 * p
  }

  ghost predicate NoneListedTwice(s: Tables) {
    forall p, q :: 0 <= p < q < |s.items| ==> s.items[p] != s.items[q]
  }

  /** The naive layout holds exactly while no entry has been listed twice. */
  lemma NaiveIff(s: Tables)
    requires Inv(s)
    ensures NaiveLayout(s) <==> NoneListedTwice(s)
  {
    if NaiveLayout(s) {
      forall p, q | 0 <= p < q < |s.items| ensures s.items[p] != s.items[q] {
        assert ItemOk(s, p) && ItemOk(s, q);
      }
    }
    if NoneListedTwice(s) {
      forall p | 0 <= p < |s.items| ensures ItemOk(s, p) && Lookup(s, s.items[p]).relAddr == 8 * p {
        assert ItemOk(s, p);
      }
    }
  }

  /** Appending 512 different slots lists none twice exactly if none was listed before. */
  lemma AppendedOnce(s: Tables, s': Tables, children: seq<Slot>)
    requires s'.items == s.items + children
    requires forall i, j :: 0 <= i < j < |children| ==> children[i] != children[j]
    ensures NoneListedTwice(s') <==> NoneListedTwice(s) && forall t :: t in children ==> t !in s.items
  {
    if NoneListedTwice(s') {
      forall p, q | 0 <= p < q < |s.items| ensures s.items[p] != s.items[q] {
        assert s'.items[p] != s'.items[q];
      }
      forall t | t in children ensures t !in s.items {
        var i :| 0 <= i < |children| && children[i] == t;
        assert s'.items[|s.items| + i] == t;
        forall p | 0 <= p < |s.items| ensures s.items[p] != t {
          assert s'.items[p] != s'.items[|s.items| + i];
        }
      }
    }
    if NoneListedTwice(s) && (forall t :: t in children ==> t !in s.items) {
      forall p, q | 0 <= p < q < |s'.items| ensures s'.items[p] != s'.items[q] {
        assert q >= |s.items| ==> s'.items[q] in children;
        assert p < |s.items| ==> s'.items[p] in s.items;
      }
    }
  }

  /** A level-1 split keeps the naive layout exactly if there is nothing to split or no child was ever listed. */
  lemma NaiveSplit2Iff(s: Tables, g: nat)
    requires Inv(s) && g < N1
    ensures Inv(Split2(s, g))
    ensures NaiveLayout(Split2(s, g)) <==>
      NaiveLayout(s) && (s.l1[g].attr == TABLE || forall t :: t in Children2(g) ==> t !in s.items)
  {
    assert Ok1(s, g);
    Split2Keeps(s, g);
    NaiveIff(s);
    NaiveIff(Split2(s, g));
    if s.l1[g].attr != TABLE {
      AppendedOnce(s, Split2(s, g), Children2(g));
    }
  }

  /** The same for a level-2 split. */
  lemma NaiveSplit3Iff(s: Tables, m: nat)
    requires Inv(s) && m < N2 && 512 * m + 512 <= N3
    ensures Inv(Split3(s, m))
    ensures NaiveLayout(Split3(s, m)) <==>
      NaiveLayout(s) && (s.l2[m].attr == TABLE || forall t :: t in Children3(m) ==> t !in s.items)
  {
    assert Ok2(s, m);
    Split3Keeps(s, m);
    NaiveIff(s);
    NaiveIff(Split3(s, m));
    if s.l2[m].attr != TABLE {
      AppendedOnce(s, Split3(s, m), Children3(m));
    }
  }

  /** Anything that leaves the item list alone, as writing a leaf does, keeps the naive layout or its absence. */
  lemma NaiveSameItems(s: Tables, s': Tables)
    requires Inv(s) && Inv(s') && s'.items == s.items
    ensures NaiveLayout(s') <==> NaiveLayout(s)
  {
    NaiveIff(s);
    NaiveIff(s');
  }

  /** Writing a 1G block, a 2M block or a page neither makes nor breaks the naive layout. */
  lemma NaivePuts(s: Tables, i: nat, pa: nat, a: nat)
    requires Inv(s) && AttrOk(a)
    ensures i < N1 && pa % GB1 == 0 && pa + GB1 <= PA_END ==>
      Inv(Put1(s, i, pa, a)) && (NaiveLayout(Put1(s, i, pa, a)) <==> NaiveLayout(s))
    ensures i < N2 && pa % MB2 == 0 && pa + MB2 <= PA_END ==>
      Inv(Put2(s, i, pa, a)) && (NaiveLayout(Put2(s, i, pa, a)) <==> NaiveLayout(s))
    ensures i < N3 && pa % KB4 == 0 && pa + KB4 <= PA_END ==>
      Inv(Put3(s, i, pa, a)) && (NaiveLayout(Put3(s, i, pa, a)) <==> NaiveLayout(s))
  {
    if i < N1 && pa % GB1 == 0 && pa + GB1 <= PA_END {
      Put1Keeps(s, i, pa, a);
      NaiveSameItems(s, Put1(s, i, pa, a));
    }
    if i < N2 && pa % MB2 == 0 && pa + MB2 <= PA_END {
      Put2Keeps(s, i, pa, a);
      NaiveSameItems(s, Put2(s, i, pa, a));
    }
    if i < N3 && pa % KB4 == 0 && pa + KB4 <= PA_END {
      Put3Keeps(s, i, pa, a);
      NaiveSameItems(s, Put3(s, i, pa, a));
    }
  }

  /** Split, coarsen back to 1G, split again: the naive layout is lost, the invariant is not. */
  lemma NaiveLost(a: nat)
    requires AttrOk(a)
    ensures var s := Split2(Put1(Split2(Start(), 0), 0, 0, a), 0);
            Inv(s) && !NaiveLayout(s)
  {
    StartOk();
    var s1 := Split2(Start(), 0);
    Split2Keeps(Start(), 0);
    var s2 := Put1(s1, 0, 0, a);
    Put1Keeps(s1, 0, 0, a);
    NaiveSplit2Iff(s2, 0);
    assert Children2(0)[0] == s2.items[512] && Children2(0)[0] in Children2(0);
  }
}
