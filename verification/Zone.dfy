/** One memory zone: page marks, free lists, counters, and the allocator code that updates them. */
module Zones {
  import opened Bits
  import opened Buddy
  import opened FreeLists

  datatype MaybePage = NoPage | Page(pfn: nat)

  /** The order in which other migratetypes are raided; the RESERVE entry ends each row. */
  function Fallbacks(t: nat): (r: seq<nat>)
    ensures |r| > 0 && r[|r| - 1] == RESERVE
    ensures forall i :: 0 <= i < |r| ==> r[i] < MIGRATE_TYPES
    ensures t < PCP_TYPES ==> |r| == PCP_TYPES && forall u: nat :: u < PCP_TYPES ==> (u in r <==> u != t)
    ensures t >= PCP_TYPES ==> |r| == 1
    ensures t == UNMOVABLE || t == RECLAIMABLE ==> r[1] == MOVABLE
    ensures t == MOVABLE ==> r[0] == RECLAIMABLE
  {
    if t == UNMOVABLE then [RECLAIMABLE, MOVABLE, RESERVE]
    else if t == RECLAIMABLE then [UNMOVABLE, MOVABLE, RESERVE]
    else if t == MOVABLE then [RECLAIMABLE, UNMOVABLE, RESERVE]
    else [RESERVE]
  }

  /** `s` is the first block on the list of order `o` and type `t`. */
  predicate Heads(a: Areas, o: nat, t: nat, s: nat)
    requires Sized(a)
  {
    o < MAX_ORDER && t < MIGRATE_TYPES && a[o].list[t] != [] && a[o].list[t][0] == s
  }

  /** `s` heads the smallest list of type `t` whose blocks suffice. */
  ghost predicate SmallestFit(a: Areas, order: nat, t: nat, o: nat, s: nat)
    requires Sized(a)
  {
    order <= o && Heads(a, o, t, s) && forall p :: order <= p < o ==> a[p].list[t] == []
  }

  /** None of the other types but the reserve has a block to offer. */
  ghost predicate NoneElse(a: Areas, order: nat, t: nat)
    requires Sized(a)
  {
    forall u :: u in Fallbacks(t) && u != RESERVE ==> NoneFrom(a, order, u)
  }

  /** Own lists first, cutting the smallest block; then other types, breaking the largest; then the reserve. */
  ghost predicate InTurn(a: Areas, order: nat, t: nat, o: nat, home: nat, s: nat)
    requires Sized(a) && t < MIGRATE_TYPES
  {
    if !NoneFrom(a, order, t) then SmallestFit(a, order, t, o, s)
    else if !NoneElse(a, order, t) then Offered(a, t, o, home, s) && home != RESERVE && NoneElse(a, o + 1, t)
    else SmallestFit(a, order, RESERVE, o, s)
  }

  /** The first block of the first list at order `o`, in the order the other types are raided. */
  ghost predicate Offered(a: Areas, start: nat, o: nat, t: nat, s: nat)
    requires Sized(a)
  {
    && Heads(a, o, t, s)
    && exists i :: 0 <= i < |Fallbacks(start)| && Fallbacks(start)[i] == t
                   && forall j :: 0 <= j < i ==> a[o].list[Fallbacks(start)[j]] == []
  }

  /** `s` has been put on the list of order `o` and type `t`, on one end; no other list has changed. */
  ghost predicate Inserted(a: Areas, b: Areas, o: nat, t: nat, s: nat, tail: bool)
    requires Sized(a) && Sized(b)
  {
    forall p: nat, u: nat :: p < MAX_ORDER && u < MIGRATE_TYPES ==>
      ListOf(b, p, u) == if p != o || u != t then ListOf(a, p, u)
                         else if tail then ListOf(a, p, u) + [s] else [s] + ListOf(a, p, u)
  }

  function ListOf(a: Areas, o: nat, t: nat): seq<nat>
    requires Sized(a) && o < MAX_ORDER && t < MIGRATE_TYPES
  {
    a[o].list[t]
  }

  /** The halves that cutting a block of order `high` down to `low` gives back head the lists of their order. */
  ghost predicate Halved(a: Areas, b: Areas, page: nat, low: nat, high: nat, t: nat)
    requires Sized(a) && Sized(b)
  {
    forall p: nat, u: nat :: p < MAX_ORDER && u < MIGRATE_TYPES ==>
      ListOf(b, p, u) == if low <= p < high && u == t then [page + Pow2(p)] + ListOf(a, p, u) else ListOf(a, p, u)
  }

  lemma AddInserts(a: Areas, o: nat, t: nat, s: nat, tail: bool, n: nat)
    requires Sized(a) && o < MAX_ORDER && t < MIGRATE_TYPES
    ensures Inserted(a, a[o := Add(a[o], t, s, tail).(nrFree := n)], o, t, s, tail)
  {
  }

  lemma InsertedAtEnd(a: Areas, b: Areas, o: nat, t: nat, s: nat, tail: bool)
    requires Sized(a) && Sized(b) && Inserted(a, b, o, t, s, tail) && o < MAX_ORDER && t < MIGRATE_TYPES
    ensures var l := ListOf(b, o, t); l != [] && s == if tail then l[|l| - 1] else l[0]
  {
  }

  lemma NothingHalved(a: Areas, page: nat, high: nat, t: nat)
    requires Sized(a)
    ensures Halved(a, a, page, high, high, t)
  {
  }

  lemma HalvedOnce(a: Areas, b: Areas, c: Areas, page: nat, low: nat, high: nat, t: nat)
    requires Sized(a) && Sized(b) && Sized(c) && low < high
    requires Halved(a, b, page, low + 1, high, t) && Inserted(b, c, low, t, page + Pow2(low), false)
    ensures Halved(a, c, page, low, high, t)
  {
    hide Pow2, ListOf, Sized;
  }

  /** The block that `s` and its buddy would make would find its own buddy free: the case for the tail of the
      list, so that the block is used late. */
  predicate MergesSoon(m: Blocks, s: nat, o: nat) {
    o < MAX_ORDER - 2 && HasBuddy(m, And(FindBuddyIndex(s, o), s), o + 1)
  }

  /** The case that `__free_one_page` recognises: it reckons the place of the higher buddy from the block itself. */
  predicate SeenToMerge(m: Blocks, s: nat, o: nat) {
    o < MAX_ORDER - 2 && Aligned(s, o + 1) && HasBuddy(m, s, o + 1)
  }

  lemma MergedHolds(page: nat, s: nat, o: nat)
    requires Aligned(s, o) && InBlock(page, s, o)
    ensures InBlock(page, And(FindBuddyIndex(s, o), s), o + 1)
  {
    BuddyPair(s, o);
  }

  /** From an upper half the place reckoned is a block too far, where no block of that order can start. */
  lemma HigherBuddy(m: Blocks, lo: nat, hi: nat, s: nat, o: nat, base: nat, idx: nat)
    requires Inv(m, lo, hi) && Aligned(s, o) && o < MAX_ORDER && s == base + idx && Aligned(base, MAX_ORDER)
    ensures var c := And(FindBuddyIndex(idx, o), idx);
            var h: int := s + (FindBuddyIndex(c, o + 1) - c);
            SeenToMerge(m, s, o) <==> o < MAX_ORDER - 2 && lo <= h < hi && h in m && m[h] == o + 1
  {
    hide Aligned, Xor, And, Bit, Pow2, Disjoint, Coalesced;
    if o < MAX_ORDER - 2 {
      AlignedDown(base, MAX_ORDER, o + 1);
      AlignedDown(base, MAX_ORDER, o + 2);
      BuddyMovesAlong(base, idx, o);
      var c := And(FindBuddyIndex(idx, o), idx);
      BuddyMovesAlong(base, c, o + 1);
      BuddyPair(s, o);
      BuddyPair(base + c, o + 1);
      HigherPlace(s, base + c, FindBuddyIndex(base + c, o + 1), o);
    }
  }

  lemma HigherPlace(s: nat, c: nat, h: nat, o: nat)
    requires Aligned(c, o + 1) && Aligned(h, o + 1) && (s == c || s == c + Pow2(o))
    ensures Aligned(s, o + 1) <==> s == c
    ensures s != c ==> !Aligned(h + Pow2(o), o + 1)
  {
    hide Aligned, Bit;
    AlignedDown(c, o + 1, o);
    AlignedDown(h, o + 1, o);
    AlignedNeighbours(c, o);
    AlignedNeighbours(h, o);
    AlignedNeighbours(c + Pow2(o), o);
    AlignedNeighbours(h + Pow2(o), o);
  }

  /** The end of the list is the promised one exactly when the block is a lower half, or the pair it would make
      is not about to merge. */
  lemma TailExactly(m: Blocks, s: nat, o: nat)
    requires Aligned(s, o)
    ensures (SeenToMerge(m, s, o) <==> MergesSoon(m, s, o)) <==> Aligned(s, o + 1) || !MergesSoon(m, s, o)
  {
    BuddyPair(s, o);
    var c := And(FindBuddyIndex(s, o), s);
    HigherPlace(s, c, c, o);
  }

  /** Page 1 comes back while page 0 is in use and pages 2 and 3 are free: its pair is one merge away from four
      pages, and the page still goes to the head of its list, to be handed out next. */
  lemma UpperHalfMissed()
    requires MAX_ORDER > 2
    ensures var m := map[2 := 1];
            Inv(m, 0, 4) && Placed(0, 4, 1, 0) && Clear(m, 1, 0) && Merge(m, 1, 0) == m[1 := 0]
            && MergesSoon(m, 1, 0) && !SeenToMerge(m, 1, 0)
  {
    var m := map[2 := 1];
    assert Aligned(2, 1) && !Aligned(1, 1);
    XorPow2(1, 0);
    XorPow2(0, 1);
    XorPow2(2, 1);
  }

  /** No list of type `t` holds a block of order `order` or more. */
  ghost predicate NoneFrom(a: Areas, order: nat, t: nat)
    requires Sized(a) && t < MIGRATE_TYPES
  {
    forall o :: order <= o < MAX_ORDER ==> a[o].list[t] == []
  }

  class Zone {
    const lo: nat
    const hi: nat
    const pageblockOrder: nat
    const freeArea: array<FreeArea>
    var marks: Blocks
    var nrFreePages: int
    /** The pageblock types that differ from the movable ones all start as, by pageblock number. */
    var blockTypes: map<nat, nat>
    ghost var home: map<nat, nat>

    ghost predicate Listed()
      reads this, freeArea
    {
      && freeArea.Length == MAX_ORDER
      && pageblockOrder < MAX_ORDER
      && Linked(marks, home, freeArea[..])
    }

    ghost predicate Valid()
      reads this, freeArea
    {
      && Listed()
      && Counted(freeArea[..])
      && Inv(marks, lo, hi)
    }

    function FreePages(): nat
      reads freeArea
    {
      PagesBelow(freeArea[..], freeArea.Length)
    }

    constructor (lo: nat, hi: nat, pageblockOrder: nat)
      requires pageblockOrder < MAX_ORDER
      ensures Valid() && fresh(freeArea)
      ensures this.lo == lo && this.hi == hi && this.pageblockOrder == pageblockOrder
      ensures marks == map[] && nrFreePages == 0 && FreePages() == 0
    {
      this.lo, this.hi, this.pageblockOrder := lo, hi, pageblockOrder;
      freeArea := new FreeArea[MAX_ORDER](i => FreeArea([[], [], [], []], 0));
      marks, home, nrFreePages, blockTypes := map[], map[], 0, map[];
      new;
      NothingFree(freeArea[..], freeArea.Length);
    }

    /** `set_page_order`, `list_add(_tail)` and `nr_free++`. */
    method LinkBlock(s: nat, o: nat, t: nat, tail: bool)
      requires Listed() && Counted(freeArea[..])
      requires s !in marks && o < MAX_ORDER && t < MIGRATE_TYPES
      modifies this`marks, this`home, freeArea
      ensures Listed() && Counted(freeArea[..])
      ensures marks == old(marks)[s := o] && home == old(home)[s := t]
      ensures FreePages() == old(FreePages()) + Pow2(o)
      ensures Inserted(old(freeArea[..]), freeArea[..], o, t, s, tail)
    {
      ghost var a := freeArea[..];
      AddKeeps(marks, home, a, o, t, s, tail, freeArea[o].nrFree + 1);
      AddTotal(freeArea[o], t, s, tail);
      AddInserts(a, o, t, s, tail, freeArea[o].nrFree + 1);
      hide Inserted;
      marks := marks[s := o];
      home := home[s := t];
      var f := Add(freeArea[o], t, s, tail);
      freeArea[o] := f.(nrFree := f.nrFree + 1);
      assert freeArea[..] == a[o := freeArea[o]];
      PagesPlusOne(a, o, freeArea[o], freeArea.Length);
    }

    /** `list_del` and `rmv_page_order`; the caller keeps the count. */
    method DelPage(s: nat)
      requires Listed() && s in marks
      modifies this`marks, this`home, freeArea
      ensures Listed()
      ensures marks == old(marks) - {s} && home == old(home) - {s}
      ensures freeArea[..] == old(freeArea[..])[old(marks)[s] := Del(old(freeArea[..])[old(marks)[s]], s)]
      ensures Total(freeArea[old(marks)[s]]) == Total(old(freeArea[..])[old(marks)[s]]) - 1
    {
      ghost var a := freeArea[..];
      var o := marks[s];
      DelKeeps(marks, home, a, s);
      DelTotal(marks, home, a, s);
      freeArea[o] := Del(freeArea[o], s);
      assert freeArea[..] == a[o := freeArea[o]];
      marks := marks - {s};
      home := home - {s};
    }

    method DecNrFree(o: nat)
      requires Listed() && o < MAX_ORDER && freeArea[o].nrFree > 0
      modifies freeArea
      ensures Listed()
      ensures freeArea[..] == old(freeArea[..])[o := old(freeArea[o]).(nrFree := old(freeArea[o]).nrFree - 1)]
      ensures FreePages() == old(FreePages()) - Pow2(o)
    {
      ghost var a := freeArea[..];
      freeArea[o] := freeArea[o].(nrFree := freeArea[o].nrFree - 1);
      assert freeArea[..] == a[o := freeArea[o]];
      PagesMinusOne(a, o, freeArea[o], freeArea.Length);
      SameLists(marks, home, a, freeArea[..]);
    }

    /** `list_del`, `nr_free--` and `rmv_page_order`. */
    method UnlinkBlock(s: nat)
      requires Listed() && Counted(freeArea[..]) && s in marks
      modifies this`marks, this`home, freeArea
      ensures Listed() && Counted(freeArea[..])
      ensures marks == old(marks) - {s} && home == old(home) - {s}
      ensures FreePages() == old(FreePages()) - Pow2(old(marks)[s])
    {
      var o := marks[s];
      ListedMeansCounted(marks, home, freeArea[..], s);
      DecNrFree(o);
      label counted:
      DelPage(s);
      PagesBelowSame(freeArea[..], old@counted(freeArea[..]), freeArea.Length);
    }

    function PageIsBuddy(buddy: int, order: nat): bool
      reads this`marks
    {
      lo <= buddy < hi && buddy in marks && marks[buddy] == order
    }

    /** The loop of `__free_one_page`: take free buddies off their lists and grow the block. */
    method Coalesce(page: nat, order: nat)
      returns (p: nat, o: nat, pageIdx: nat, buddyIdx: nat, ghost base: nat)
      requires Valid() && Placed(lo, hi, page, order) && Clear(marks, page, order)
      modifies this`marks, this`home, freeArea
      ensures Valid() && Placed(lo, hi, p, o) && Clear(marks, p, o)
      ensures o < MAX_ORDER - 1 ==> !HasBuddy(marks, p, o)
      ensures SamePages(old(marks), page, order, marks, p, o)
      ensures FreePages() + Pow2(o) == old(FreePages()) + Pow2(order)
      ensures Kept(old(home), home)
      ensures InBlock(page, p, o)
      ensures p == base + pageIdx && Aligned(base, MAX_ORDER)
      ensures o < MAX_ORDER - 1 ==> buddyIdx == FindBuddyIndex(pageIdx, o)
    {
      hide Linked, Counted, SamePages, Clear, Xor, And, Disjoint, Coalesced, Aligned;
      p, o, buddyIdx := page, order, 0;
      SamePagesReflexive(marks, p, o);
      pageIdx := And(page, Pow2(MAX_ORDER) - 1);
      MaskSplits(page, MAX_ORDER);
      base := page - pageIdx;
      while o < MAX_ORDER - 1
        invariant order <= o < MAX_ORDER
        invariant Valid() && Placed(lo, hi, p, o) && Clear(marks, p, o)
        invariant p == base + pageIdx
        invariant SamePages(old(marks), page, order, marks, p, o)
        invariant FreePages() + Pow2(o) == old(FreePages()) + Pow2(order)
        invariant Kept(old(home), home)
        invariant InBlock(page, p, o)
        decreases MAX_ORDER - o
      {
        AlignedDown(base, MAX_ORDER, o + 1);
        BuddyMovesAlong(base, pageIdx, o);
        buddyIdx := FindBuddyIndex(pageIdx, o);
        var buddy: int := p as int + (buddyIdx as int - pageIdx as int);
        if !PageIsBuddy(buddy, o) { break; }
        MergeRound(old(marks), page, order, marks, lo, hi, p, o);
        MergedHolds(page, p, o);
        UnlinkBlock(buddy);
        var combinedIdx := And(buddyIdx, pageIdx);
        p := p + combinedIdx - pageIdx;
        pageIdx := combinedIdx;
        o := o + 1;
      }
    }

    /** `__free_one_page`: put a block back, merging it with free buddies. */
    method FreeOnePage(page: nat, order: nat, migratetype: nat) returns (ghost head: nat)
      requires Valid() && Placed(lo, hi, page, order) && Clear(marks, page, order)
      requires migratetype < MIGRATE_TYPES
      modifies this`marks, this`home, freeArea
      ensures Valid()
      ensures marks == Merge(old(marks), page, order)
      ensures FreePages() == old(FreePages()) + Pow2(order)
      ensures head in marks && home[head] == migratetype && InBlock(page, head, marks[head])
      ensures forall s :: s in marks && s != head ==> s in old(marks) && home[s] == old(home)[s]
      ensures var l := ListOf(freeArea[..], marks[head], migratetype);
              l != [] && head == if SeenToMerge(marks, head, marks[head]) then l[|l| - 1] else l[0]
    {
      hide Linked, Inv, Merge, Clear, Aligned, Xor, And, SamePages, Pow2, Inserted, ListOf, Sized, Counted;
      LinkedKeys(marks, home, freeArea[..]);
      var p, o, pageIdx, buddyIdx;
      ghost var base;
      p, o, pageIdx, buddyIdx, base := Coalesce(page, order);
      var tail := false;
      HigherBuddy(marks, lo, hi, p, o, base, pageIdx);
      LinkedKeys(marks, home, freeArea[..]);
      if o < MAX_ORDER - 2 {
        var combinedIdx := And(buddyIdx, pageIdx);
        var higherBuddyIdx := FindBuddyIndex(combinedIdx, o + 1);
        tail := PageIsBuddy(p as int + (higherBuddyIdx as int - combinedIdx as int), o + 1);
      }
      MergeStops(marks, lo, hi, p, o);
      MergeIsTheOnlyResult(old(marks), lo, hi, page, order, marks, p, o);
      LinkedSized(marks, home, freeArea[..]);
      label merged:
      LinkBlock(p, o, migratetype, tail);
      LinkedSized(marks, home, freeArea[..]);
      InsertedAtEnd(old@merged(freeArea[..]), freeArea[..], o, migratetype, p, tail);
      head := p;
    }

    /** `expand`: give back the upper halves of a block taken off the lists. */
    method Expand(page: nat, low: nat, high0: nat, migratetype: nat)
      requires Valid() && Placed(lo, hi, page, high0) && Clear(marks, page, high0)
      requires low <= high0 && migratetype < MIGRATE_TYPES
      modifies this`marks, this`home, freeArea
      ensures Valid() && Clear(marks, page, low) && Placed(lo, hi, page, low)
      ensures marks == Split(old(marks), page, low, high0)
      ensures FreePages() + Pow2(low) == old(FreePages()) + Pow2(high0)
      ensures OnlyNewAs(old(home), home, migratetype)
      ensures Halved(old(freeArea[..]), freeArea[..], page, low, high0, migratetype)
    {
      hide Linked, Counted, SamePages, Inv, Clear, Split, OnlyNewAs, Halved, Inserted;
      var size, high := Pow2(high0), high0;
      LinkedSized(marks, home, freeArea[..]);
      SamePagesReflexive(marks, page, high);
      NothingNew(home, migratetype);
      NothingHalved(freeArea[..], page, high, migratetype);
      while high > low
        invariant low <= high <= high0 && size == Pow2(high)
        invariant Valid() && Sized(freeArea[..]) && Placed(lo, hi, page, high) && Clear(marks, page, high)
        invariant SamePages(old(marks), page, high0, marks, page, high)
        invariant FreePages() + size == old(FreePages()) + Pow2(high0)
        invariant OnlyNewAs(old(home), home, migratetype)
        invariant Halved(old(freeArea[..]), freeArea[..], page, high, high0, migratetype)
      {
        SplitRound(old(marks), high0, marks, lo, hi, page, high);
        high := high - 1;
        size := size / 2;
        NewAs(old(home), home, marks, freeArea[..], page + size, migratetype);
        label before:
        LinkBlock(page + size, high, migratetype, false);
        LinkedSized(marks, home, freeArea[..]);
        HalvedOnce(old(freeArea[..]), old@before(freeArea[..]), freeArea[..], page, high, high0, migratetype);
      }
      SplitIsTheOnlyResult(old(marks), lo, hi, page, low, high0, marks);
    }

    /** `__rmqueue_smallest`: cut the smallest sufficient block of one migratetype. */
    method RmqueueSmallest(order: nat, migratetype: nat) returns (r: MaybePage)
      requires Valid() && migratetype < MIGRATE_TYPES
      modifies this`marks, this`home, freeArea
      ensures Valid()
      ensures r.NoPage? <==> NoneFrom(old(freeArea[..]), order, migratetype)
      ensures r.NoPage? ==> marks == old(marks) && home == old(home) && freeArea[..] == old(freeArea[..])
      ensures r.Page? ==> Next(old(marks), lo, hi, Alloc(r.pfn, order), marks)
      ensures r.Page? ==> FreePages() == old(FreePages()) - Pow2(order)
      ensures r.Page? ==> old(home)[r.pfn] == migratetype
      ensures r.Page? ==> SmallestFit(old(freeArea[..]), order, migratetype, old(marks)[r.pfn], r.pfn)
      ensures r.Page? ==> OnlyNewAs(old(home) - {r.pfn}, home, migratetype)
    {
      hide Counted, Inv, Split;
      var current := order;
      while current < MAX_ORDER
        invariant order <= current
        invariant forall o :: order <= o < current && o < MAX_ORDER ==> freeArea[o].list[migratetype] == []
        decreases MAX_ORDER - current
      {
        if freeArea[current].list[migratetype] != [] {
          var page := freeArea[current].list[migratetype][0];
          assert Holds(freeArea[..], current, migratetype, page);
          TakeOff(marks, lo, hi, page);
          UnlinkBlock(page);
          Expand(page, order, current, migratetype);
          return Page(page);
        }
        current := current + 1;
      }
      return NoPage;
    }

    /** `list_move`: to the head of another list of the same order. */
    method ListMove(s: nat, t: nat)
      requires Listed() && s in marks && t < MIGRATE_TYPES
      modifies this`home, freeArea
      ensures Listed() && Sized(freeArea[..]) && home == old(home)[s := t]
      ensures SameCounts(old(freeArea[..]), freeArea[..])
      ensures freeArea[marks[s]].list[t] == [s] + Remove(old(freeArea[marks[s]].list[t]), s)
    {
      ghost var a := freeArea[..];
      var o := marks[s];
      freeArea[o] := Add(Del(freeArea[o], s), t, s, false);
      home := home[s := t];
      assert freeArea[..] == a[o := freeArea[o]];
      MoveKeeps(marks, old(home), a, s, t);
    }

    /** `move_freepages`: every free block that starts in `[start, end]` goes to one migratetype. */
    method MoveFreepages(start: nat, end: nat, t: nat) returns (moved: nat)
      requires Listed() && Disjoint(marks) && t < MIGRATE_TYPES
      modifies this`home, freeArea
      ensures Listed() && SameCounts(old(freeArea[..]), freeArea[..])
      ensures home.Keys == old(home).Keys
      ensures forall s :: s in marks ==> home[s] == if start <= s <= end then t else old(home)[s]
      ensures moved == PagesIn(marks, start, end + 1)
    {
      hide PagesIn, Linked, SameCounts, Sized, Disjoint, Pow2, MovedBelow;
      LinkedKeys(marks, home, freeArea[..]);
      LinkedSized(marks, home, freeArea[..]);
      SameCountsReflexive(freeArea[..]);
      MovedNone(marks, home, start, end, t);
      ghost var a, h := freeArea[..], home;
      var page := start;
      moved := 0;
      while page <= end
        invariant start <= page && MovedBelow(marks, h, home, start, end, page, t)
        invariant Listed() && Sized(freeArea[..]) && SameCounts(a, freeArea[..])
        invariant moved + PagesIn(marks, page, end + 1) == PagesIn(marks, start, end + 1)
        decreases end + 1 - page
      {
        PastPage(marks, h, home, start, end, page, t);
        if page !in marks {
          page := page + 1;
        } else {
          var size := Pow2(marks[page]);
          ghost var b := freeArea[..];
          ListMove(page, t);
          SameCountsChain(a, b, freeArea[..]);
          page := page + size;
          moved := moved + size;
        }
      }
      PagesNone(marks, page, end + 1);
      MovedAll(marks, h, home, start, end, page, t);
    }

    /** `move_freepages_block`: the pageblock around `page`, unless it leaves the zone at the end. */
    method MoveFreepagesBlock(page: nat, t: nat) returns (moved: nat)
      requires Listed() && Disjoint(marks) && t < MIGRATE_TYPES
      modifies this`home, freeArea
      ensures Listed() && SameCounts(old(freeArea[..]), freeArea[..])
      ensures home.Keys == old(home).Keys
      ensures forall s :: s in marks ==>
                home[s] == if InPageblock(lo, hi, pageblockOrder, s, page) then t else old(home)[s]
      ensures moved == Movable(marks, lo, hi, pageblockOrder, page)
    {
      SameCountsReflexive(freeArea[..]);
      PageblockRange(marks, lo, hi, pageblockOrder, page);
      hide InPageblock, Movable, PagesIn, Linked, Disjoint;
      var n := Pow2(pageblockOrder);
      var start := page - page % n;
      var end := start + n - 1;
      moved := 0;
      if start < lo { start := page; }
      hide Pow2;
      if end < hi { moved := MoveFreepages(start, end, t); }
    }

    /** `set_pageblock_migratetype`. */
    method SetPageblockType(b: nat, t: nat, groupingDisabled: bool)
      modifies this`blockTypes
      ensures blockTypes == old(blockTypes)[b := StoredType(t, groupingDisabled)]
    {
      blockTypes := blockTypes[b := if groupingDisabled then UNMOVABLE else t];
    }

    /** `change_pageblock_range`: all the pageblocks of a block that is at least one. */
    method ChangePageblockRange(page: nat, order: nat, t: nat, groupingDisabled: bool)
      requires order >= pageblockOrder
      modifies this`blockTypes
      ensures forall b: nat ::
                TypeOf(blockTypes, b)
                == if InRange(pageblockOrder, page, order, b) then StoredType(t, groupingDisabled)
                   else TypeOf(old(blockTypes), b)
    {
      var first, n := PageblockOf(pageblockOrder, page), Pow2(order - pageblockOrder);
      hide Pow2;
      for i := 0 to n
        invariant forall b: nat ::
                    TypeOf(blockTypes, b)
                    == if first <= b < first + i then StoredType(t, groupingDisabled)
                       else TypeOf(old(blockTypes), b)
      {
        SetPageblockType(first + i, t, groupingDisabled);
      }
    }

    /** How `__rmqueue_fallback` takes a block off: count first, then maybe move the whole pageblock to the
        new migratetype and claim it, then unlink. */
    method StealBlock(page: nat, start: nat, groupingDisabled: bool)
      requires Listed() && Counted(freeArea[..]) && Disjoint(marks) && page in marks && start < MIGRATE_TYPES
      modifies this`marks, this`home, this`blockTypes, freeArea
      ensures Listed() && Counted(freeArea[..]) && marks == old(marks) - {page}
      ensures FreePages() == old(FreePages()) - Pow2(old(marks)[page])
      ensures forall s :: s in marks ==>
                home[s] == if Steals(pageblockOrder, old(marks)[page], start, groupingDisabled)
                              && InPageblock(lo, hi, pageblockOrder, s, page)
                           then start else old(home)[s]
      ensures blockTypes == if Claims(old(marks), lo, hi, pageblockOrder, page, start, groupingDisabled)
                            then var b := PageblockOf(pageblockOrder, page);
                                 old(blockTypes)[b := StoredType(start, groupingDisabled)]
                            else old(blockTypes)
    {
      hide Linked, Disjoint, InPageblock, Movable, StoredType, PagesBelow, Sized, PageblockOf;
      var current := marks[page];
      LinkedSized(marks, home, freeArea[..]);
      LinkedKeys(marks, home, freeArea[..]);
      ListedMeansCounted(marks, home, freeArea[..], page);
      DecNrFree(current);
      label decremented:
      SameCountsReflexive(freeArea[..]);
      if current >= pageblockOrder / 2 || start == RECLAIMABLE || groupingDisabled {
        var pages := MoveFreepagesBlock(page, start);
        if pages >= Pow2(pageblockOrder) / 2 || groupingDisabled {
          SetPageblockType(PageblockOf(pageblockOrder, page), start, groupingDisabled);
        }
      }
      LinkedSized(marks, home, freeArea[..]);
      PagesBelowSame(old@decremented(freeArea[..]), freeArea[..], freeArea.Length);
      label moved:
      DelPage(page);
      LinkedSized(marks, home, freeArea[..]);
      PagesBelowSame(old@moved(freeArea[..]), freeArea[..], freeArea.Length);
      CountsRestored(old(freeArea[..]), old@moved(freeArea[..]), freeArea[..], current, page);
    }

    /** The search of `__rmqueue_fallback`: the first block of the largest order that any of the
        other migratetypes has. */
    method FindFallback(order: nat, start: nat) returns (r: MaybePage)
      requires Listed() && start < MIGRATE_TYPES
      ensures r.NoPage? <==> NoneElse(freeArea[..], order, start)
      ensures r.Page? ==> r.pfn in marks && order <= marks[r.pfn]
      ensures r.Page? ==> home[r.pfn] in Fallbacks(start) && home[r.pfn] != RESERVE
      ensures r.Page? ==> Offered(freeArea[..], start, marks[r.pfn], home[r.pfn], r.pfn)
      ensures r.Page? ==> NoneElse(freeArea[..], marks[r.pfn] + 1, start)
    {
      var row := Fallbacks(start);
      hide Fallbacks;
      var current: int := MAX_ORDER - 1;
      while current >= order
        invariant current < MAX_ORDER
        invariant forall o, t :: current < o < MAX_ORDER && o >= order && t in row && t != RESERVE
                                 ==> freeArea[o].list[t] == []
      {
        var i := 0;
        while row[i] != RESERVE
          invariant 0 <= i < |row|
          invariant forall j :: 0 <= j < i ==> freeArea[current].list[row[j]] == []
          invariant RESERVE !in row[..i]
          decreases |row| - i
        {
          if freeArea[current].list[row[i]] != [] {
            r := Page(freeArea[current].list[row[i]][0]);
            assert Holds(freeArea[..], current, row[i], r.pfn);
            assert !NoneFrom(freeArea[..], order, row[i]);
            assert row[i] == Fallbacks(start)[i];
            return;
          }
          i := i + 1;
        }
        OnlyLastIsReserve(start, i);
        current := current - 1;
      }
      return NoPage;
    }

    /** `__rmqueue_fallback`: take the largest block any other migratetype has to offer. */
    method RmqueueFallback(order: nat, start: nat, groupingDisabled: bool) returns (r: MaybePage)
      requires Valid() && start < MIGRATE_TYPES
      modifies this`marks, this`home, this`blockTypes, freeArea
      ensures Valid()
      ensures r.NoPage? <==> NoneElse(old(freeArea[..]), order, start)
      ensures r.NoPage? ==> marks == old(marks) && home == old(home) && freeArea[..] == old(freeArea[..])
      ensures r.Page? ==> Next(old(marks), lo, hi, Alloc(r.pfn, order), marks)
      ensures r.Page? ==> FreePages() == old(FreePages()) - Pow2(order)
      ensures r.Page? ==> old(home)[r.pfn] in Fallbacks(start) && old(home)[r.pfn] != RESERVE
      ensures r.Page? ==> Offered(old(freeArea[..]), start, old(marks)[r.pfn], old(home)[r.pfn], r.pfn)
      ensures r.Page? ==> NoneElse(old(freeArea[..]), old(marks)[r.pfn] + 1, start)
      ensures r.NoPage? ==> blockTypes == old(blockTypes)
      ensures r.Page? ==> forall s :: s in marks ==>
                home[s] == if s !in old(marks)
                              || (Steals(pageblockOrder, old(marks)[r.pfn], start, groupingDisabled)
                                  && InPageblock(lo, hi, pageblockOrder, s, r.pfn))
                           then start else old(home)[s]
      ensures r.Page? ==> forall b: nat ::
                TypeOf(blockTypes, b)
                == if Owns(old(marks), lo, hi, pageblockOrder, r.pfn, start, groupingDisabled, b)
                   then StoredType(start, groupingDisabled) else TypeOf(old(blockTypes), b)
    {
      hide Counted, Inv, Linked, Split, Fallbacks, NoneElse, InPageblock, Steals, Owns, TypeOf, StoredType, Next;
      r := FindFallback(order, start);
      if r.Page? { Capture(r.pfn, order, start, groupingDisabled); }
    }

    /** What `__rmqueue_fallback` does with the block it has found. */
    method Capture(page: nat, order: nat, start: nat, groupingDisabled: bool)
      requires Valid() && page in marks && order <= marks[page] && start < MIGRATE_TYPES
      modifies this`marks, this`home, this`blockTypes, freeArea
      ensures Valid() && Next(old(marks), lo, hi, Alloc(page, order), marks)
      ensures FreePages() == old(FreePages()) - Pow2(order)
      ensures forall s :: s in marks ==>
                home[s] == if s !in old(marks)
                              || (Steals(pageblockOrder, old(marks)[page], start, groupingDisabled)
                                  && InPageblock(lo, hi, pageblockOrder, s, page))
                           then start else old(home)[s]
      ensures forall b: nat ::
                TypeOf(blockTypes, b)
                == if Owns(old(marks), lo, hi, pageblockOrder, page, start, groupingDisabled, b)
                   then StoredType(start, groupingDisabled) else TypeOf(old(blockTypes), b)
    {
      hide Counted, Inv, Split, InPageblock, Steals, Claims, PageblockOf, StoredType;
      var current := marks[page];
      LinkedKeys(marks, home, freeArea[..]);
      hide Linked;
      TakeOff(marks, lo, hi, page);
      StealBlock(page, start, groupingDisabled);
      LinkedKeys(marks, home, freeArea[..]);
      if current >= pageblockOrder {
        ChangePageblockRange(page, current, start, groupingDisabled);
      }
      Expand(page, order, current, start);
      LinkedKeys(marks, home, freeArea[..]);
    }

    /** `__rmqueue`: own lists first, then other migratetypes, then the reserve. */
    method Rmqueue(order: nat, migratetype: nat, groupingDisabled: bool) returns (r: MaybePage)
      requires Valid() && migratetype < MIGRATE_TYPES
      modifies this`marks, this`home, this`blockTypes, freeArea
      ensures Valid()
      ensures migratetype != RESERVE ==>
                (r.NoPage? <==> forall s :: s in old(marks) ==> old(marks)[s] < order)
      ensures migratetype == RESERVE ==> (r.NoPage? <==> NoneFrom(old(freeArea[..]), order, RESERVE))
      ensures r.NoPage? ==> marks == old(marks) && FreePages() == old(FreePages())
      ensures r.Page? ==> Next(old(marks), lo, hi, Alloc(r.pfn, order), marks)
      ensures r.Page? ==> FreePages() == old(FreePages()) - Pow2(order)
      ensures r.Page? ==> InTurn(old(freeArea[..]), order, migratetype, old(marks)[r.pfn], old(home)[r.pfn], r.pfn)
    {
      hide Linked, Counted, Inv, Next, SmallestFit, Offered;
      LinkedSized(marks, home, freeArea[..]);
      NoListNoBlock(marks, home, freeArea[..], order);
      r := RmqueueSmallest(order, migratetype);
      if r.NoPage? && migratetype != RESERVE {
        r := RmqueueFallback(order, migratetype, groupingDisabled);
        if r.NoPage? {
          r := RmqueueSmallest(order, RESERVE);
        }
      }
    }

    /** `is_free_buddy_page`: is the page inside some free block? */
    method IsFreeBuddyPage(pfn: nat) returns (free: bool)
      requires Valid()
      ensures free <==> Covered(marks, pfn)
    {
      hide Linked, Counted, Disjoint, Coalesced, Aligned;
      var order := 0;
      while order < MAX_ORDER
        invariant order <= MAX_ORDER
        invariant forall o: nat :: o < order ==> !HeadAt(marks, pfn, o)
      {
        var head := pfn - pfn % Pow2(order);
        if head in marks && marks[head] >= order {
          Pow2Grows(order, marks[head]);
          assert InBlock(pfn, head, marks[head]);
          return true;
        }
        order := order + 1;
      }
      NoHeadNotCovered(marks, lo, hi, pfn);
      return false;
    }
  }

  /** A block whose head lies in the pageblock of `page`, all of which lies before the zone's end; from
      `page` on only, if the pageblock starts before the zone. */
  predicate InPageblock(lo: nat, hi: nat, pageblockOrder: nat, s: nat, page: nat) {
    var n := Pow2(pageblockOrder);
    s / n == page / n && (page / n + 1) * n <= hi && (page / n * n >= lo || s >= page)
  }

  /** `get_pageblock_migratetype` of pageblock `b`. */
  function TypeOf(types: map<nat, nat>, b: nat): nat {
    if b in types then types[b] else MOVABLE
  }

  /** The pages of the free blocks whose heads lie in `[a, b)`. */
  function PagesIn(m: Blocks, a: nat, b: nat): nat
    decreases b - a
  {
    if a >= b then 0 else (if a in m then Pow2(m[a]) else 0) + PagesIn(m, a + 1, b)
  }

  /** The heads of `[start, end]` below `page` have moved to type `t`, and no others. */
  ghost predicate MovedBelow(m: Blocks, was: map<nat, nat>, h: map<nat, nat>, start: nat, end: nat, page: nat, t: nat) {
    && h.Keys == was.Keys == m.Keys
    && forall s :: s in m ==> h[s] == if start <= s <= end && s < page then t else was[s]
  }

  lemma MovedNone(m: Blocks, h: map<nat, nat>, start: nat, end: nat, t: nat)
    requires h.Keys == m.Keys
    ensures MovedBelow(m, h, h, start, end, start, t)
  {
  }

  lemma MovedStep(m: Blocks, was: map<nat, nat>, h: map<nat, nat>, start: nat, end: nat, page: nat, next: nat, t: nat)
    requires MovedBelow(m, was, h, start, end, page, t) && start <= page <= end
    requires page < next && forall x :: page < x < next ==> x !in m
    ensures page !in m ==> MovedBelow(m, was, h, start, end, next, t)
    ensures page in m ==> MovedBelow(m, was, h[page := t], start, end, next, t)
  {
  }

  lemma PastPage(m: Blocks, was: map<nat, nat>, h: map<nat, nat>, start: nat, end: nat, page: nat, t: nat)
    requires Disjoint(m) && MovedBelow(m, was, h, start, end, page, t) && start <= page <= end
    ensures if page !in m
            then PagesIn(m, page, end + 1) == PagesIn(m, page + 1, end + 1)
                 && MovedBelow(m, was, h, start, end, page + 1, t)
            else var next := page + Pow2(m[page]);
                 PagesIn(m, page, end + 1) == Pow2(m[page]) + PagesIn(m, next, end + 1)
                 && MovedBelow(m, was, h[page := t], start, end, next, t)
  {
    if page !in m {
      MovedStep(m, was, h, start, end, page, page + 1, t);
    } else {
      PagesPast(m, page, end + 1);
      hide PagesIn, Disjoint;
      MovedStep(m, was, h, start, end, page, page + Pow2(m[page]), t);
    }
  }

  lemma MovedAll(m: Blocks, was: map<nat, nat>, h: map<nat, nat>, start: nat, end: nat, page: nat, t: nat)
    requires MovedBelow(m, was, h, start, end, page, t) && page > end
    ensures h.Keys == was.Keys && forall s :: s in m ==> h[s] == if start <= s <= end then t else was[s]
  {
  }

  lemma PagesNone(m: Blocks, a: nat, b: nat)
    requires a >= b
    ensures PagesIn(m, a, b) == 0
  {
  }

  lemma {:induction false} PagesSkip(m: Blocks, a: nat, c: nat, b: nat)
    requires a <= c && forall x :: a <= x < c ==> x !in m
    ensures PagesIn(m, a, b) == PagesIn(m, c, b)
    decreases c - a
  {
    if a < c && a < b { PagesSkip(m, a + 1, c, b); }
  }

  /** A free block holds no other head. */
  lemma PagesPast(m: Blocks, page: nat, b: nat)
    requires page in m && page < b && Disjoint(m)
    ensures PagesIn(m, page, b) == Pow2(m[page]) + PagesIn(m, page + Pow2(m[page]), b)
    ensures forall x :: page < x < page + Pow2(m[page]) ==> x !in m
  {
    assert forall x :: x in m && x != page ==> Apart(page, m[page], x, m[x]);
    PagesSkip(m, page + 1, page + Pow2(m[page]), b);
  }

  /** How many free pages of the pageblock of `page` would move. */
  function Movable(m: Blocks, lo: nat, hi: nat, pageblockOrder: nat, page: nat): nat {
    var n := Pow2(pageblockOrder);
    if (page / n + 1) * n > hi then 0
    else PagesIn(m, if page / n * n >= lo then page / n * n else page, (page / n + 1) * n)
  }

  /** The range that `move_freepages_block` computes is the pageblock. */
  lemma PageblockRange(m: Blocks, lo: nat, hi: nat, pageblockOrder: nat, page: nat)
    ensures page % Pow2(pageblockOrder) <= page
    ensures var n := Pow2(pageblockOrder);
            var first := page - page % n;
            var start, end := if first < lo then page else first, first + n - 1;
            && (forall s: nat :: InPageblock(lo, hi, pageblockOrder, s, page) <==> start <= s <= end && end < hi)
            && Movable(m, lo, hi, pageblockOrder, page) == if end < hi then PagesIn(m, start, end + 1) else 0
  {
    var n := Pow2(pageblockOrder);
    hide Pow2, PagesIn;
    RoundDown(page, n);
    var q, r := page / n, page % n;
    SameBlock(page, page, n);
    assert (q + 1) * n == q * n + n;
    forall s: nat
      ensures InPageblock(lo, hi, pageblockOrder, s, page)
              <==> (if q * n < lo then page else q * n) <= s <= q * n + n - 1 && q * n + n - 1 < hi
    {
      SameBlock(s, page, n);
    }
  }

  /** The number of the pageblock a page belongs to. */
  function PageblockOf(pageblockOrder: nat, page: nat): nat {
    ShiftRight(page, pageblockOrder)
  }

  /** It is the one whose pages the page is among; a large block consists of the pageblocks that lie inside it. */
  lemma PageblockMeans(pageblockOrder: nat, page: nat, order: nat, b: nat)
    ensures var n := Pow2(pageblockOrder);
            && (b == PageblockOf(pageblockOrder, page) <==> b * n <= page < b * n + n)
            && (order >= pageblockOrder && Aligned(page, order) ==>
                  (InRange(pageblockOrder, page, order, b) <==> page <= b * n && b * n + n <= page + Pow2(order)))
  {
    var n, f := Pow2(pageblockOrder), PageblockOf(pageblockOrder, page);
    ShiftIsQuotient(page, pageblockOrder);
    if order >= pageblockOrder && Aligned(page, order) {
      Pow2Adds(order - pageblockOrder, pageblockOrder);
      AlignedDown(page, order, pageblockOrder);
      AlignedIsMultiple(page, pageblockOrder);
      Multiples(f, b, Pow2(order - pageblockOrder), n);
    }
    hide ShiftRight, Pow2, Aligned;
    Quotient(page, n, f, b);
  }

  lemma Quotient(page: nat, n: nat, f: nat, b: nat)
    requires n > 0 && f == page / n
    ensures b == f <==> b * n <= page < b * n + n
    ensures page == f * n + page % n
  {
    if b * n <= page < b * n + n { DivModUnique(page, n, b, page - b * n); }
  }

  lemma Multiples(f: nat, b: nat, k: nat, n: nat)
    requires n > 0
    ensures f <= b <==> f * n <= b * n
    ensures b < f + k <==> b * n + n <= f * n + k * n
  {
    MultipleOrder(f, b, n);
    MultipleOrder(f + k, b, n);
    assert f * n + k * n == (f + k) * n;
  }

  lemma MultipleOrder(f: nat, b: nat, n: nat)
    requires n > 0
    ensures f <= b ==> f * n <= b * n
    ensures b < f ==> b * n + n <= f * n
  {
    if f <= b { OrderedProducts(f, b, n); } else { OrderedProducts(b + 1, f, n); }
  }

  lemma OrderedProducts(a: nat, b: nat, n: nat)
    requires a <= b
    ensures a * n <= b * n && (a + 1) * n == a * n + n
  {
    assert b * n == a * n + (b - a) * n;
  }

  /** What `set_pageblock_migratetype` stores. */
  function StoredType(t: nat, groupingDisabled: bool): nat {
    if groupingDisabled then UNMOVABLE else t
  }

  /** Whether the pageblock changes its type: half of it moved, or grouping is off. */
  predicate Claims(m: Blocks, lo: nat, hi: nat, pageblockOrder: nat, page: nat, start: nat, groupingDisabled: bool)
    requires page in m
  {
    Steals(pageblockOrder, m[page], start, groupingDisabled)
    && (Movable(m, lo, hi, pageblockOrder, page) >= Pow2(pageblockOrder) / 2 || groupingDisabled)
  }

  /** The pageblocks that a block of order `order` consists of. */
  predicate InRange(pageblockOrder: nat, page: nat, order: nat, b: nat) {
    order >= pageblockOrder
    && PageblockOf(pageblockOrder, page) <= b < PageblockOf(pageblockOrder, page) + Pow2(order - pageblockOrder)
  }

  /** The pageblocks that taking a block makes the requester's own. */
  predicate Owns(m: Blocks, lo: nat, hi: nat, pageblockOrder: nat, page: nat, start: nat,
                 groupingDisabled: bool, b: nat)
    requires page in m
  {
    InRange(pageblockOrder, page, m[page], b)
    || (b == PageblockOf(pageblockOrder, page) && Claims(m, lo, hi, pageblockOrder, page, start, groupingDisabled))
  }

  /** Whether breaking a block moves the rest of its pageblock too. */
  predicate Steals(pageblockOrder: nat, order: nat, start: nat, groupingDisabled: bool) {
    order >= pageblockOrder / 2 || start == RECLAIMABLE || groupingDisabled
  }

  lemma LinkedKeys(m: Blocks, home: map<nat, nat>, a: Areas)
    requires Linked(m, home, a)
    ensures home.Keys == m.Keys
  {
  }

  lemma NothingNew(h: map<nat, nat>, t: nat)
    ensures OnlyNewAs(h, h, t)
  {
  }

  lemma NewAs(was: map<nat, nat>, h: map<nat, nat>, m: Blocks, a: Areas, s: nat, t: nat)
    requires OnlyNewAs(was, h, t) && Linked(m, h, a) && s !in m
    ensures OnlyNewAs(was, h[s := t], t)
  {
  }

  /** Blocks that were there keep their list, new ones are on that of `t`. */
  ghost predicate OnlyNewAs(old_: map<nat, nat>, new_: map<nat, nat>, t: nat) {
    old_.Keys <= new_.Keys && forall s :: s in new_ ==> new_[s] == if s in old_ then old_[s] else t
  }

  lemma SameBlock(s: nat, page: nat, n: nat)
    requires n > 0
    ensures s / n == page / n <==> page - page % n <= s < page - page % n + n
    ensures page / n * n == page - page % n
  {
    var q := page / n;
    assert page == q * n + page % n;
    if q * n <= s < q * n + n { DivModUnique(s, n, q, s - q * n); }
    if s / n == q { assert s == q * n + s % n; }
  }

  lemma OnlyLastIsReserve(t: nat, i: nat)
    requires i < |Fallbacks(t)| && Fallbacks(t)[i] == RESERVE
    ensures forall u :: u in Fallbacks(t) && u != RESERVE ==> u in Fallbacks(t)[..i]
  {
  }

  /** Same `nr_free` and same list lengths at every order. */
  ghost predicate SameCounts(a: Areas, b: Areas)
    requires Sized(a) && Sized(b)
  {
    forall o :: 0 <= o < MAX_ORDER ==> a[o].nrFree == b[o].nrFree && Total(a[o]) == Total(b[o])
  }

  lemma SameCountsReflexive(a: Areas)
    requires Sized(a)
    ensures SameCounts(a, a)
  {
  }

  lemma SameCountsChain(a: Areas, b: Areas, c: Areas)
    requires Sized(a) && Sized(b) && Sized(c) && SameCounts(a, b) && SameCounts(b, c)
    ensures SameCounts(a, c)
  {
  }

  lemma LinkedSized(m: Blocks, home: map<nat, nat>, a: Areas)
    requires Linked(m, home, a)
    ensures Sized(a) && forall s :: s in m ==> m[s] < MAX_ORDER
  {
  }

  lemma MoveKeeps(m: Blocks, home: map<nat, nat>, a: Areas, s: nat, t: nat)
    requires Linked(m, home, a) && s in m && t < MIGRATE_TYPES
    ensures var b := a[m[s] := Add(Del(a[m[s]], s), t, s, false)];
            Linked(m, home[s := t], b) && SameCounts(a, b)
  {
    var o := m[s];
    var f := Del(a[o], s);
    DelKeeps(m, home, a, s);
    DelTotal(m, home, a, s);
    AddTotal(f, t, s, false);
    AddKeeps(m - {s}, home - {s}, a[o := f], o, t, s, false, f.nrFree);
    assert (m - {s})[s := o] == m;
    assert (home - {s})[s := t] == home[s := t];
    assert a[o := f][o := Add(f, t, s, false)] == a[o := Add(f, t, s, false)];
  }

  /** Taking a block off leaves the rest well-formed and clear of it. */
  lemma TakeOff(m: Blocks, lo: nat, hi: nat, s: nat)
    requires Inv(m, lo, hi) && s in m
    ensures Inv(m - {s}, lo, hi) && Placed(lo, hi, s, m[s]) && Clear(m - {s}, s, m[s]) && Disjoint(m)
  {
  }

  /** The count was taken down before the block left its list; then both agree again. */
  lemma CountsRestored(a: Areas, b: Areas, c: Areas, o: nat, s: nat)
    requires Sized(a) && Sized(b) && Sized(c) && Counted(a) && o < MAX_ORDER && a[o].nrFree > 0
    requires SameCounts(a[o := a[o].(nrFree := a[o].nrFree - 1)], b)
    requires c == b[o := Del(b[o], s)] && Total(c[o]) == Total(b[o]) - 1
    ensures Counted(c)
  {
    var a' := a[o := a[o].(nrFree := a[o].nrFree - 1)];
    forall k | 0 <= k < MAX_ORDER ensures c[k].nrFree == Total(c[k]) {
      assert a'[k].nrFree == b[k].nrFree && Total(a'[k]) == Total(b[k]);
      assert Total(a'[k]) == Total(a[k]);
    }
  }

  /** All four lists are empty from some order up exactly when no free block is that large. */
  lemma NoListNoBlock(m: Blocks, home: map<nat, nat>, a: Areas, order: nat)
    requires Linked(m, home, a)
    ensures (forall t: nat :: t < MIGRATE_TYPES ==> NoneFrom(a, order, t)) <==> forall s :: s in m ==> m[s] < order
  {
    if forall t: nat :: t < MIGRATE_TYPES ==> NoneFrom(a, order, t) {
      forall s | s in m ensures m[s] < order {
        assert NoneFrom(a, order, home[s]) && Holds(a, m[s], home[s], s);
      }
    }
    if forall s :: s in m ==> m[s] < order {
      forall t: nat, o | t < MIGRATE_TYPES && order <= o < MAX_ORDER ensures a[o].list[t] == [] {
        assert a[o].list[t] != [] ==> Holds(a, o, t, a[o].list[t][0]);
      }
    }
  }

  /** Blocks still on a list are on the list they were on. */
  ghost predicate Kept(home: map<nat, nat>, home': map<nat, nat>) {
    forall s :: s in home' ==> s in home && home'[s] == home[s]
  }

  lemma SamePagesReflexive(m: Blocks, s: nat, o: nat)
    ensures SamePages(m, s, o, m, s, o)
  {
  }

  predicate HeadAt(m: Blocks, pfn: nat, o: nat) {
    pfn - pfn % Pow2(o) in m && m[pfn - pfn % Pow2(o)] >= o
  }

  lemma NoHeadNotCovered(m: Blocks, lo: nat, hi: nat, pfn: nat)
    requires Inv(m, lo, hi) && forall o: nat :: o < MAX_ORDER ==> !HeadAt(m, pfn, o)
    ensures !Covered(m, pfn)
  {
    hide Disjoint, Coalesced, Aligned;
    forall s | s in m ensures !InBlock(pfn, s, m[s]) {
      assert Placed(lo, hi, s, m[s]) && !HeadAt(m, pfn, m[s]);
      HeadOfBlock(pfn, s, m[s]);
    }
  }

  lemma HeadOfBlock(pfn: nat, s: nat, o: nat)
    requires Aligned(s, o)
    ensures InBlock(pfn, s, o) ==> s == pfn - pfn % Pow2(o)
  {
    AlignedIsMultiple(s, o);
    if InBlock(pfn, s, o) {
      assert s == s / Pow2(o) * Pow2(o);
      DivModUnique(pfn, Pow2(o), s / Pow2(o), pfn - s);
    }
  }

  lemma {:induction false} NothingFree(a: Areas, k: nat)
    requires k <= |a| && forall o :: 0 <= o < |a| ==> a[o].nrFree == 0
    ensures PagesBelow(a, k) == 0
  {
    if k > 0 { NothingFree(a, k - 1); }
  }

  lemma SameLists(m: Blocks, home: map<nat, nat>, a: Areas, b: Areas)
    requires Linked(m, home, a) && |b| == |a| && forall o :: 0 <= o < |a| ==> a[o].list == b[o].list
    ensures Linked(m, home, b)
  {
    assert forall o: nat, t: nat, s :: o < MAX_ORDER && t < MIGRATE_TYPES ==>
             (Holds(b, o, t, s) <==> Holds(a, o, t, s));
  }

  lemma ListedMeansCounted(m: Blocks, home: map<nat, nat>, a: Areas, s: nat)
    requires Linked(m, home, a) && Counted(a) && s in m
    ensures a[m[s]].nrFree > 0
  {
    assert Holds(a, m[s], home[s], s);
  }
}
