/** The per-CPU page lists in front of a zone. */
module PageCaches {
  import opened Bits
  import opened Buddy
  import opened FreeLists
  import opened Zones

  type Lists = seq<seq<nat>>

  predicate Cached(lists: Lists, p: nat) {
    exists t :: 0 <= t < |lists| && p in lists[t]
  }

  /** Every page is on at most one list, once. */
  ghost predicate Distinct(lists: Lists) {
    forall t, u, i, j ::
      0 <= t < |lists| && 0 <= u < |lists| && 0 <= i < |lists[t]| && 0 <= j < |lists[u]| && lists[t][i] == lists[u][j]
      ==> t == u && i == j
  }

  /** A page of the zone that no free block covers and whose recorded migratetype is legal. */
  ghost predicate Idle(m: Blocks, lo: nat, hi: nat, pageType: map<nat, nat>, p: nat) {
    lo <= p < hi && !Covered(m, p) && p in pageType && pageType[p] < MIGRATE_TYPES
  }

  ghost predicate AllIdle(lists: Lists, m: Blocks, lo: nat, hi: nat, pageType: map<nat, nat>) {
    forall t, i :: 0 <= t < |lists| && 0 <= i < |lists[t]| ==> Idle(m, lo, hi, pageType, lists[t][i])
  }

  function Rotate(t: nat, k: nat): nat {
    (t + k) % PCP_TYPES
  }

  /** Three turns reach every list. */
  lemma HeldInTurn(lists: Lists, t: nat)
    requires |lists| == PCP_TYPES && t < PCP_TYPES
    ensures Held(lists) == |lists[Rotate(t, 1)]| + |lists[Rotate(t, 2)]| + |lists[Rotate(t, 3)]|
  {
  }

  function Held(lists: Lists): nat
    requires |lists| == PCP_TYPES
  {
    |lists[0]| + |lists[1]| + |lists[2]|
  }

  /** The lists with one page more: a cold page at the tail, a hot one at the head; types without a list
      of their own share the movable one. */
  function Parked(lists: Lists, page: nat, cold: bool, blockType: nat): (r: Lists)
    requires |lists| == PCP_TYPES
    ensures |r| == PCP_TYPES
  {
    var t := if blockType >= PCP_TYPES then MOVABLE else blockType;
    lists[t := if cold then lists[t] + [page] else [page] + lists[t]]
  }

  function Least(a: nat, b: nat, c: nat): nat {
    var d := if a < b then a else b;
    if c < d then c else d
  }

  /** The lists without the last `k` pages of list `t`. */
  function Cut(lists: Lists, t: nat, k: nat): Lists
    requires t < |lists| && k <= |lists[t]|
  {
    lists[t := lists[t][..|lists[t]| - k]]
  }

  lemma CutMeans(lists: Lists, t: nat, k: nat)
    requires |lists| == PCP_TYPES && t < PCP_TYPES && k <= |lists[t]|
    ensures var l := Cut(lists, t, k);
            && |l| == PCP_TYPES && |l[t]| == |lists[t]| - k && Held(l) == Held(lists) - k && Shrunk(lists, l)
            && (k == 0 ==> l == lists)
            && (k < |lists[t]| ==> l[t := DropLast(l[t])] == Cut(lists, t, k + 1))
  {
    var l := Cut(lists, t, k);
    assert k == 0 ==> l[t] == lists[t];
    assert k < |lists[t]| ==> DropLast(l[t]) == lists[t][..|lists[t]| - (k + 1)];
  }

  /** How many of `n` pages come off list `u` when they are taken in turn, list 1 first, then 2, then 0. */
  function Share(u: nat, n: nat): nat {
    if n == 0 then 0 else Share(u, n - 1) + if n % PCP_TYPES == u then 1 else 0
  }

  predicate EnoughForAll(lists: Lists, n: nat)
    requires |lists| == PCP_TYPES
  {
    forall u: nat :: u < PCP_TYPES ==> Share(u, n) <= |lists[u]|
  }

  predicate InRounds(old_: Lists, new_: Lists, n: nat)
    requires |old_| == |new_| == PCP_TYPES
  {
    forall u: nat :: u < PCP_TYPES ==> |new_[u]| == |old_[u]| - Share(u, n)
  }

  /** The shares are even, to one page. */
  lemma {:induction false} ShareIsEven(u: nat, n: nat)
    requires u < PCP_TYPES
    ensures Share(u, n) == (n + (if u == 1 then 2 else if u == 2 then 1 else 0)) / PCP_TYPES
  {
    if n > 0 { ShareIsEven(u, n - 1); }
  }

  lemma {:induction false} ShareGrows(u: nat, k: nat, n: nat)
    requires k <= n
    ensures Share(u, k) <= Share(u, n)
  {
    if k < n { ShareGrows(u, k, n - 1); }
  }

  /** The list whose turn it is still holds a page. */
  lemma TurnHasPage(was: Lists, lists: Lists, k: nat, n: nat)
    requires |was| == |lists| == PCP_TYPES && EnoughForAll(was, n) && InRounds(was, lists, k) && k < n
    ensures lists[(k + 1) % PCP_TYPES] != [] && Rotate(k % PCP_TYPES, 1) == (k + 1) % PCP_TYPES
  {
    ShareGrows((k + 1) % PCP_TYPES, k + 1, n);
  }

  lemma NoneTaken(lists: Lists)
    requires |lists| == PCP_TYPES
    ensures Shrunk(lists, lists) && InRounds(lists, lists, 0)
  {
  }

  lemma ShrunkChain(was: Lists, lists: Lists, lists': Lists)
    requires |was| == |lists| == |lists'| && Shrunk(was, lists) && Shrunk(lists, lists')
    ensures Shrunk(was, lists')
  {
    assert forall t :: 0 <= t < |lists'| ==> lists'[t] <= lists[t] <= was[t];
  }

  lemma TurnTaken(was: Lists, lists: Lists, k: nat, lists': Lists)
    requires |was| == |lists| == PCP_TYPES && InRounds(was, lists, k)
    requires var u := (k + 1) % PCP_TYPES; lists[u] != [] && lists' == Cut(lists, u, 1)
    ensures InRounds(was, lists', k + 1)
  {
  }

  /** Each list lost pages at its tail only. */
  predicate Shrunk(old_: Lists, new_: Lists)
    requires |old_| == |new_|
  {
    forall t :: 0 <= t < |new_| ==> new_[t] <= old_[t]
  }

  class PageCache {
    const zone: Zone
    var lists: Lists
    var count: int
    var high: nat
    var batch: nat
    var pageType: map<nat, nat>

    ghost predicate Sound()
      reads this, zone, zone.freeArea
    {
      && zone.Valid()
      && |lists| == PCP_TYPES
      && Distinct(lists)
      && AllIdle(lists, zone.marks, zone.lo, zone.hi, pageType)
    }

    ghost predicate Valid()
      reads this, zone, zone.freeArea
    {
      && Sound()
      && count == Held(lists)
      && zone.nrFreePages == zone.FreePages()
      && 1 <= batch && (batch <= high || batch == 1)
    }

    /** `setup_pageset`. */
    constructor (z: Zone, batch: nat)
      requires z.Valid() && z.nrFreePages == z.FreePages()
      ensures Valid() && zone == z && count == 0 && lists == [[], [], []]
      ensures high == 6 * batch && this.batch >= batch && (this.batch == batch || this.batch == 1)
    {
      zone, lists, count, pageType := z, [[], [], []], 0, map[];
      this.high := 6 * batch;
      this.batch := if batch > 1 then batch else 1;
    }

    /** `setup_pagelist_highmark`, with `PAGE_SHIFT * 8` as the cap. */
    method SetHighmark(high: nat, cap: nat)
      requires Valid() && cap >= 1
      modifies this`high, this`batch
      ensures Valid() && this.high == high
      ensures if high / 4 > cap then batch == cap else batch >= high / 4 && (batch == high / 4 || batch == 1)
    {
      this.high := high;
      batch := if high / 4 > 1 then high / 4 else 1;
      if high / 4 > cap { batch := cap; }
    }

    /** Give the coldest page of one list back to the zone. */
    method DrainOne(t: nat) returns (ghost head: nat)
      requires Sound() && t < PCP_TYPES && lists[t] != []
      modifies this`lists, zone`marks, zone`home, zone.freeArea
      ensures Sound() && lists == old(lists)[t := DropLast(old(lists[t]))]
      ensures zone.FreePages() == old(zone.FreePages()) + 1
      ensures SameAvailable(old(lists), old(zone.marks), lists, zone.marks)
      ensures var page := Last(old(lists[t]));
              && zone.marks == Merge(old(zone.marks), page, 0) && head in zone.marks
              && InBlock(page, head, zone.marks[head]) && zone.home[head] == pageType[page]
    {
      hide Linked, Counted, Inv, Merge;
      var page := Last(lists[t]);
      UncoveredIsClear(zone.marks, page);
      FreeingOne(zone.marks, zone.lo, zone.hi, page);
      LastLeaves(lists, t, zone.marks, Merge(zone.marks, page, 0), zone.lo, zone.hi, pageType);
      lists := lists[t := DropLast(lists[t])];
      head := zone.FreeOnePage(page, 0, pageType[page]);
    }

    /** The rotation of `free_pcppages_bulk`: on to the next list that is not empty. */
    method NextList(t0: nat, b0: nat) returns (t: nat, b: nat)
      requires |lists| == PCP_TYPES && Held(lists) > 0 && t0 < PCP_TYPES
      ensures t < PCP_TYPES && lists[t] != [] && b0 < b <= b0 + PCP_TYPES
      ensures t == Rotate(t0, b - b0) && forall k :: 1 <= k < b - b0 ==> lists[Rotate(t0, k)] == []
      ensures b == b0 + PCP_TYPES ==> forall u :: 0 <= u < PCP_TYPES && u != t ==> lists[u] == []
    {
      t, b := if t0 + 1 == PCP_TYPES then 0 else t0 + 1, b0 + 1;
      HeldInTurn(lists, t0);
      while lists[t] == []
        invariant t < PCP_TYPES && b0 < b <= b0 + PCP_TYPES
        invariant t == Rotate(t0, b - b0)
        invariant forall k :: 1 <= k < b - b0 ==> lists[Rotate(t0, k)] == []
        decreases b0 + PCP_TYPES - b
      {
        assert forall k :: 1 <= k <= b - b0 ==> lists[Rotate(t0, k)] == [];
        t, b := if t + 1 == PCP_TYPES then 0 else t + 1, b + 1;
      }
      assert b - b0 == 3 ==> lists[Rotate(t0, 1)] == [] && lists[Rotate(t0, 2)] == [];
    }

    /** The inner loop of `free_pcppages_bulk`: drain one list for at most `batchFree` pages. */
    method DrainList(t: nat, toFree0: nat, batchFree0: nat) returns (toFree: nat, batchFree: nat)
      requires Sound() && t < PCP_TYPES && lists[t] != []
      requires 0 < toFree0 <= Held(lists) && 0 < batchFree0
      modifies this`lists, zone`marks, zone`home, zone.freeArea
      ensures Sound() && toFree < toFree0
      ensures var k := Least(batchFree0, toFree0, |old(lists[t])|);
              && toFree == toFree0 - k && (toFree > 0 ==> batchFree == batchFree0 - k)
              && lists == Cut(old(lists), t, k)
      ensures Shrunk(old(lists), lists) && Held(lists) + toFree0 == old(Held(lists)) + toFree
      ensures zone.FreePages() + toFree == old(zone.FreePages()) + toFree0
      ensures SameAvailable(old(lists), old(zone.marks), lists, zone.marks)
    {
      hide SameAvailable, Distinct, AllIdle, Linked, Counted, Inv, Cut, Shrunk, DropLast, Merge;
      toFree, batchFree := toFree0, batchFree0;
      SameAvailableReflexive(lists, zone.marks);
      ghost var was, k := lists, 0;
      CutMeans(was, t, 0);
      while true
        invariant Sound() && k < |was[t]| && lists == Cut(was, t, k) && |lists[t]| == |was[t]| - k
        invariant k == toFree0 - toFree == batchFree0 - batchFree && 0 < toFree && 0 < batchFree
        invariant zone.FreePages() + toFree == old(zone.FreePages()) + toFree0
        invariant SameAvailable(old(lists), old(zone.marks), lists, zone.marks)
        decreases toFree
      {
        SameAvailableChain(old(lists), old(zone.marks), lists, zone.marks);
        CutMeans(was, t, k);
        CutMeans(was, t, k + 1);
        ghost var head := DrainOne(t);
        k := k + 1;
        toFree := toFree - 1;
        if toFree == 0 { break; }
        batchFree := batchFree - 1;
        if batchFree == 0 || lists[t] == [] { break; }
      }
    }

    /** `free_pcppages_bulk`: exactly `n` pages leave the lists, all from the tails, and all of
        them become free in the zone. */
    method FreePcppagesBulk(n: nat)
      requires Sound() && n <= Held(lists)
      modifies this`lists, zone`marks, zone`home, zone`nrFreePages, zone.freeArea
      ensures Sound() && Shrunk(old(lists), lists)
      ensures Held(lists) == old(Held(lists)) - n
      ensures EnoughForAll(old(lists), n) ==> InRounds(old(lists), lists, n)
      ensures zone.FreePages() == old(zone.FreePages()) + n
      ensures zone.nrFreePages == old(zone.nrFreePages) + n
      ensures SameAvailable(old(lists), old(zone.marks), lists, zone.marks)
    {
      hide SameAvailable, Distinct, AllIdle, Linked, Counted, Inv, Cut, EnoughForAll, InRounds, Shrunk, Rotate;
      var t: nat, batchFree: nat, toFree: nat := 0, 0, n;
      NoneTaken(lists);
      SameAvailableReflexive(lists, zone.marks);
      while toFree != 0
        invariant Sound() && Shrunk(old(lists), lists) && t < PCP_TYPES
        invariant toFree <= n && Held(lists) + n == old(Held(lists)) + toFree
        invariant EnoughForAll(old(lists), n) ==> InRounds(old(lists), lists, n - toFree)
        invariant EnoughForAll(old(lists), n) && toFree > 0 ==> t == (n - toFree) % PCP_TYPES && batchFree == 0
        invariant zone.FreePages() + toFree == old(zone.FreePages()) + n && zone.nrFreePages == old(zone.nrFreePages)
        invariant SameAvailable(old(lists), old(zone.marks), lists, zone.marks)
        decreases toFree
      {
        ghost var k, l := n - toFree, lists;
        if EnoughForAll(old(lists), n) { TurnHasPage(old(lists), l, k, n); }
        t, batchFree := NextList(t, batchFree);
        if batchFree == PCP_TYPES { batchFree := toFree; }
        SameAvailableChain(old(lists), old(zone.marks), lists, zone.marks);
        toFree, batchFree := DrainList(t, toFree, batchFree);
        ShrunkChain(old(lists), l, lists);
        if EnoughForAll(old(lists), n) { TurnTaken(old(lists), l, k, lists); }
      }
      zone.nrFreePages := zone.nrFreePages + n;
    }

    /** `free_hot_cold_page`: park an order-0 page, and drain a batch when the lists are full. */
    method FreeHotColdPage(page: nat, cold: bool, blockType: nat)
      requires Valid() && blockType < MIGRATE_TYPES
      requires zone.lo <= page < zone.hi && !Covered(zone.marks, page) && !Cached(lists, page)
      modifies this`lists, this`count, this`pageType, zone`marks, zone`home, zone`nrFreePages,
               zone.freeArea
      ensures Valid()
      ensures forall p :: Covered(zone.marks, p) || Cached(lists, p)
                     <==> old(Covered(zone.marks, p) || Cached(lists, p)) || p == page
      ensures pageType == old(pageType)[page := blockType]
      ensures old(count) + 1 < high ==>
                zone.marks == old(zone.marks) && lists == Parked(old(lists), page, cold, blockType)
      ensures old(count) + 1 >= high ==>
                count == old(count) + 1 - batch && Shrunk(Parked(old(lists), page, cold, blockType), lists)
    {
      hide Distinct, AllIdle, Linked, Counted, Inv, Covered, Cached;
      var t := if blockType >= PCP_TYPES then MOVABLE else blockType;
      ParkKeeps(lists, t, page, cold, zone.marks, zone.lo, zone.hi, pageType, blockType);
      pageType := pageType[page := blockType];
      lists := lists[t := if cold then lists[t] + [page] else [page] + lists[t]];
      count := count + 1;
      label parked:
      if count >= high {
        FreePcppagesBulk(batch);
        count := count - batch;
        assert SameAvailable(old@parked(lists), old@parked(zone.marks), lists, zone.marks);
      }
    }

    /** `rmqueue_bulk`: refill one list with up to `n` order-0 pages. */
    method RmqueueBulk(n: nat, t: nat, cold: bool, groupingDisabled: bool)
      returns (got: nat, ghost pages: seq<nat>)
      requires Sound() && t < PCP_TYPES
      modifies this`lists, this`pageType, zone`marks, zone`home, zone`nrFreePages,
               zone`blockTypes, zone.freeArea
      ensures Sound() && got <= n && Held(lists) == old(Held(lists)) + got
      ensures |pages| == got && lists == old(lists)[t := Refilled(old(lists[t]), pages, cold)]
      ensures n > 0 ==> (got == 0 <==> old(zone.marks) == map[])
      ensures got < n ==> zone.marks == map[]
      ensures zone.FreePages() == old(zone.FreePages()) - got && zone.nrFreePages == old(zone.nrFreePages) - got
      ensures SameAvailable(old(lists), old(zone.marks), lists, zone.marks)
      ensures Recorded(old(pageType), pageType, pages, t)
    {
      hide SameAvailable, Distinct, AllIdle, Linked, Counted, Inv, Covered, Cached, Next, InsertAt, Refilled,
           Recorded, InTurn;
      RecordedNone(pageType, t);
      got, pages := 0, [];
      var at := if cold then |lists[t]| else 0;
      SameAvailableReflexive(lists, zone.marks);
      ghost var l := lists[t];
      RefilledNone(l, cold);
      while got < n
        invariant Sound() && got <= n && Held(lists) == old(Held(lists)) + got
        invariant |pages| == got && lists == old(lists)[t := Refilled(l, pages, cold)]
        invariant if got == 0 then zone.marks == old(zone.marks) else old(zone.marks) != map[]
        invariant at == if cold then |old(lists[t])| else got
        invariant zone.FreePages() == old(zone.FreePages()) - got && zone.nrFreePages == old(zone.nrFreePages)
        invariant SameAvailable(old(lists), old(zone.marks), lists, zone.marks)
        invariant Recorded(old(pageType), pageType, pages, t)
      {
        label before:
        var r := zone.Rmqueue(0, t, groupingDisabled);
        if r.NoPage? {
          NothingBelowZero(zone.marks);
          break;
        }
        SameAvailableChain(old(lists), old(zone.marks), lists, old@before(zone.marks));
        RefillKeeps(lists, t, at, r.pfn, old@before(zone.marks), zone.marks, zone.lo, zone.hi, pageType);
        RefilledMore(l, pages, cold, r.pfn);
        RecordedMore(old(pageType), pageType, pages, t, r.pfn);
        pageType := pageType[r.pfn := t];
        lists := lists[t := InsertAt(lists[t], at, r.pfn)];
        pages := pages + [r.pfn];
        if !cold { at := at + 1; }
        got := got + 1;
      }
      zone.nrFreePages := zone.nrFreePages - got;
    }

    /** `buffered_rmqueue` for order 0: from the list, refilled from the zone when empty. */
    method BufferedRmqueue(t: nat, cold: bool, groupingDisabled: bool) returns (r: MaybePage)
      requires Valid() && t < PCP_TYPES
      modifies this`lists, this`count, this`pageType, zone`marks, zone`home, zone`nrFreePages,
               zone`blockTypes, zone.freeArea
      ensures Valid()
      ensures r.NoPage? <==> old(lists[t]) == [] && old(zone.marks) == map[]
      ensures r.NoPage? ==> SameAvailable(old(lists), old(zone.marks), lists, zone.marks)
      ensures r.Page? ==> forall p :: Covered(zone.marks, p) || Cached(lists, p)
                                 <==> old(Covered(zone.marks, p) || Cached(lists, p)) && p != r.pfn
      ensures r.Page? ==> old(Covered(zone.marks, r.pfn) || Cached(lists, r.pfn))
      ensures old(lists[t]) == [] ==> |lists[t]| == batch - 1 || (|lists[t]| < batch && zone.marks == map[])
      ensures old(lists[t]) != [] ==>
                var l := old(lists[t]);
                && zone.marks == old(zone.marks) && r == Page(if cold then Last(l) else l[0])
                && lists == old(lists)[t := if cold then DropLast(l) else l[1..]]
    {
      hide Distinct, AllIdle, Linked, Counted, Inv, Covered, Cached, Refilled;
      SameAvailableReflexive(lists, zone.marks);
      if lists[t] == [] {
        var got;
        ghost var pages;
        got, pages := RmqueueBulk(batch, t, cold, groupingDisabled);
        RefilledSize([], pages, cold);
        count := count + got;
        if lists[t] == [] { return NoPage; }
      }
      var page := TakeEnd(t, cold);
      return Page(page);
    }

    /** One page off a list: the tail for a cold request, the head otherwise. */
    method TakeEnd(t: nat, cold: bool) returns (page: nat)
      requires Valid() && t < PCP_TYPES && lists[t] != []
      modifies this`lists, this`count
      ensures Valid()
      ensures var l := old(lists[t]);
              page == (if cold then Last(l) else l[0])
              && lists == old(lists)[t := if cold then DropLast(l) else l[1..]]
      ensures forall p :: Cached(lists, p) <==> Cached(old(lists), p) && p != page
      ensures Cached(old(lists), page) && !Covered(zone.marks, page)
    {
      hide Distinct, AllIdle, Linked, Counted, Inv, Covered, Cached, RemoveAt, DropLast;
      var i := if cold then |lists[t]| - 1 else 0;
      page := lists[t][i];
      TakeKeeps(lists, t, i, zone.marks, zone.lo, zone.hi, pageType);
      EndRemoved(lists[t]);
      lists := lists[t := RemoveAt(lists[t], i)];
      count := count - 1;
    }

    /** `buffered_rmqueue` for higher orders: straight from the zone. */
    method RmqueueOrder(order: nat, migratetype: nat, groupingDisabled: bool) returns (r: MaybePage)
      requires Valid() && migratetype < PCP_TYPES
      modifies zone`marks, zone`home, zone`nrFreePages, zone`blockTypes, zone.freeArea
      ensures Valid()
      ensures r.NoPage? <==> forall s :: s in old(zone.marks) ==> old(zone.marks)[s] < order
      ensures r.Page? ==> Next(old(zone.marks), zone.lo, zone.hi, Alloc(r.pfn, order), zone.marks)
      ensures r.Page? ==> InTurn(old(zone.freeArea[..]), order, migratetype, old(zone.marks)[r.pfn],
                                 old(zone.home)[r.pfn], r.pfn)
    {
      hide Distinct, Linked, Counted, Inv, Covered, Cached, Next, InTurn;
      r := zone.Rmqueue(order, migratetype, groupingDisabled);
      if r.Page? {
        zone.nrFreePages := zone.nrFreePages - Pow2(order);
        AllocUncovers(old(zone.marks), zone.lo, zone.hi, r.pfn, order, zone.marks);
        StillIdle(lists, old(zone.marks), zone.marks, zone.lo, zone.hi, pageType);
      }
    }

    /** `free_one_page`, as `__free_pages_ok` calls it for a block the caller owns. */
    method FreeOrder(page: nat, order: nat, migratetype: nat) returns (ghost head: nat)
      requires Valid() && migratetype < MIGRATE_TYPES
      requires Placed(zone.lo, zone.hi, page, order) && Clear(zone.marks, page, order)
      requires forall p :: InBlock(p, page, order) ==> !Cached(lists, p)
      modifies zone`marks, zone`home, zone`nrFreePages, zone.freeArea
      ensures Valid()
      ensures zone.marks == Merge(old(zone.marks), page, order)
      ensures head in zone.marks && InBlock(page, head, zone.marks[head]) && zone.home[head] == migratetype
    {
      hide Distinct, Linked, Counted, Inv, Covered, Merge;
      MergeKeeps(zone.marks, zone.lo, zone.hi, page, order);
      OthersStayIdle(lists, zone.marks, Merge(zone.marks, page, order), zone.lo, zone.hi, pageType, page, order);
      head := zone.FreeOnePage(page, order, migratetype);
      zone.nrFreePages := zone.nrFreePages + Pow2(order);
    }
  }

  lemma ParkKeeps(lists: Lists, t: nat, page: nat, cold: bool, m: Blocks, lo: nat, hi: nat,
                  pageType: map<nat, nat>, bt: nat)
    requires |lists| == PCP_TYPES && t < PCP_TYPES && Distinct(lists) && AllIdle(lists, m, lo, hi, pageType)
    requires lo <= page < hi && !Covered(m, page) && !Cached(lists, page) && bt < MIGRATE_TYPES
    ensures var l := lists[t := if cold then lists[t] + [page] else [page] + lists[t]];
            && Distinct(l) && AllIdle(l, m, lo, hi, pageType[page := bt]) && Held(l) == Held(lists) + 1
            && forall p :: Cached(l, p) <==> Cached(lists, p) || p == page
  {
    InsertKeeps(lists, t, if cold then |lists[t]| else 0, page, m, m, lo, hi, pageType, bt);
    var at := if cold then |lists[t]| else 0;
    assert InsertAt(lists[t], at, page) == if cold then lists[t] + [page] else [page] + lists[t];
  }

  function InsertAt(l: seq<nat>, at: nat, p: nat): seq<nat>
    requires at <= |l|
  {
    l[..at] + [p] + l[at..]
  }

  function Reverse(s: seq<nat>): seq<nat> {
    if s == [] then [] else [s[|s| - 1]] + Reverse(s[..|s| - 1])
  }

  /** A list with new pages, in the order they came: hot ones in front one after the other, cold ones at the
      end each before the one that came before it. */
  function Refilled(l: seq<nat>, pages: seq<nat>, cold: bool): seq<nat> {
    if cold then l + Reverse(pages) else pages + l
  }

  /** The new pages, and no others, have `t` recorded. */
  ghost predicate Recorded(was: map<nat, nat>, now: map<nat, nat>, pages: seq<nat>, t: nat) {
    && (forall p :: p in pages ==> p in now && now[p] == t)
    && (forall p :: p !in pages ==> (p in now <==> p in was) && (p in was ==> now[p] == was[p]))
  }

  lemma RecordedMore(was: map<nat, nat>, now: map<nat, nat>, pages: seq<nat>, t: nat, page: nat)
    requires Recorded(was, now, pages, t)
    ensures Recorded(was, now[page := t], pages + [page], t)
  {
  }

  lemma RecordedNone(was: map<nat, nat>, t: nat)
    ensures Recorded(was, was, [], t)
  {
  }

  lemma {:induction false} ReverseSize(s: seq<nat>)
    ensures |Reverse(s)| == |s|
  {
    if s != [] { ReverseSize(s[..|s| - 1]); }
  }

  lemma RefilledSize(l: seq<nat>, pages: seq<nat>, cold: bool)
    ensures |Refilled(l, pages, cold)| == |l| + |pages|
  {
    ReverseSize(pages);
  }

  lemma RefilledNone(l: seq<nat>, cold: bool)
    ensures Refilled(l, [], cold) == l
  {
  }

  lemma RefilledMore(l: seq<nat>, pages: seq<nat>, cold: bool, page: nat)
    ensures var at := if cold then |l| else |pages|;
            at <= |Refilled(l, pages, cold)|
            && InsertAt(Refilled(l, pages, cold), at, page) == Refilled(l, pages + [page], cold)
  {
    RefilledSize(l, pages, cold);
    assert (pages + [page])[..|pages|] == pages;
  }

  lemma EndRemoved(l: seq<nat>)
    requires l != []
    ensures RemoveAt(l, |l| - 1) == DropLast(l) && RemoveAt(l, 0) == l[1..]
  {
  }

  function RemoveAt(l: seq<nat>, i: nat): seq<nat>
    requires i < |l|
  {
    l[..i] + l[i + 1..]
  }

  lemma InsertDistinct(lists: Lists, t: nat, at: nat, page: nat)
    requires t < |lists| && at <= |lists[t]| && Distinct(lists) && !Cached(lists, page)
    ensures Distinct(lists[t := InsertAt(lists[t], at, page)])
  {
    var l := lists[t := InsertAt(lists[t], at, page)];
    forall u, i, v, j | 0 <= u < |l| && 0 <= v < |l| && 0 <= i < |l[u]| && 0 <= j < |l[v]| && l[u][i] == l[v][j]
      ensures u == v && i == j
    {
      InsertedAt(lists, t, at, page, u, i);
      InsertedAt(lists, t, at, page, v, j);
    }
  }

  /** Where the element at `(u, i)` came from. */
  lemma InsertedAt(lists: Lists, t: nat, at: nat, page: nat, u: nat, i: nat)
    requires t < |lists| && at <= |lists[t]| && !Cached(lists, page)
    requires u < |lists| && i < |lists[t := InsertAt(lists[t], at, page)][u]|
    ensures var l := lists[t := InsertAt(lists[t], at, page)];
            if u == t && i == at then l[u][i] == page
            else var i' := if u == t && i > at then i - 1 else i;
                 i' < |lists[u]| && l[u][i] == lists[u][i'] && l[u][i] != page
  {
    var i' := if u == t && i > at then i - 1 else i;
    assert !(u == t && i == at) ==> lists[u][i'] in lists[u];
  }

  lemma InsertCached(lists: Lists, t: nat, at: nat, page: nat)
    requires t < |lists| && at <= |lists[t]|
    ensures forall p :: Cached(lists[t := InsertAt(lists[t], at, page)], p) <==> Cached(lists, p) || p == page
  {
    var l := lists[t := InsertAt(lists[t], at, page)];
    assert lists[t] == lists[t][..at] + lists[t][at..];
    forall p ensures Cached(l, p) <==> Cached(lists, p) || p == page {
      assert p in l[t] <==> p in lists[t] || p == page;
      assert forall u :: 0 <= u < |l| && u != t ==> l[u] == lists[u];
    }
  }

  lemma RemoveCached(lists: Lists, t: nat, i: nat)
    requires t < |lists| && i < |lists[t]| && Distinct(lists)
    ensures forall p :: Cached(lists[t := RemoveAt(lists[t], i)], p) <==> Cached(lists, p) && p != lists[t][i]
  {
    var l := lists[t := RemoveAt(lists[t], i)];
    var page := lists[t][i];
    assert lists[t] == lists[t][..i] + [page] + lists[t][i + 1..];
    assert forall u, k :: 0 <= u < |lists| && 0 <= k < |lists[u]| && lists[u][k] == page ==> u == t && k == i;
    forall p ensures Cached(l, p) <==> Cached(lists, p) && p != page {
      assert p in l[t] <==> p in lists[t] && p != page;
      assert forall u :: 0 <= u < |l| && u != t ==> l[u] == lists[u] && page !in l[u];
    }
  }

  lemma RemoveDistinct(lists: Lists, t: nat, i: nat)
    requires t < |lists| && i < |lists[t]| && Distinct(lists)
    ensures Distinct(lists[t := RemoveAt(lists[t], i)])
  {
    var l := lists[t := RemoveAt(lists[t], i)];
    assert forall u, k :: 0 <= u < |l| && 0 <= k < |l[u]| ==>
             l[u][k] == lists[u][if u == t && k >= i then k + 1 else k];
  }

  /** A page fresh from the zone, or given back, goes onto a list. */
  lemma InsertKeeps(lists: Lists, t: nat, at: nat, page: nat, m: Blocks, m': Blocks, lo: nat, hi: nat,
                    pageType: map<nat, nat>, bt: nat)
    requires |lists| == PCP_TYPES && t < PCP_TYPES && at <= |lists[t]|
    requires Distinct(lists) && AllIdle(lists, m, lo, hi, pageType)
    requires forall p :: Covered(m', p) ==> Covered(m, p)
    requires lo <= page < hi && !Covered(m', page) && !Cached(lists, page) && bt < MIGRATE_TYPES
    ensures var l := lists[t := InsertAt(lists[t], at, page)];
            && Distinct(l) && AllIdle(l, m', lo, hi, pageType[page := bt]) && Held(l) == Held(lists) + 1
            && forall p :: Cached(l, p) <==> Cached(lists, p) || p == page
  {
    var l := lists[t := InsertAt(lists[t], at, page)];
    InsertDistinct(lists, t, at, page);
    InsertCached(lists, t, at, page);
    forall u, i | 0 <= u < |l| && 0 <= i < |l[u]| ensures Idle(m', lo, hi, pageType[page := bt], l[u][i]) {
      InsertedAt(lists, t, at, page, u, i);
    }
  }

  lemma NothingBelowZero(m: Blocks)
    requires forall s :: s in m ==> m[s] < 0
    ensures m == map[]
  {
  }

  lemma AllocUncovers(m: Blocks, lo: nat, hi: nat, page: nat, order: nat, m': Blocks)
    requires Inv(m, lo, hi) && Next(m, lo, hi, Alloc(page, order), m')
    ensures forall p :: Covered(m', p) <==> Covered(m, p) && !InBlock(p, page, order)
    ensures Placed(lo, hi, page, order) && forall p :: InBlock(p, page, order) ==> Covered(m, p)
  {
    AllocKeeps(m, lo, hi, page, order);
    Pow2Grows(order, m[page]);
    assert forall p :: InBlock(p, page, order) ==> InBlock(p, page, m[page]);
  }

  /** A page fresh from the zone goes onto a list. */
  lemma RefillKeeps(lists: Lists, t: nat, at: nat, page: nat, m: Blocks, m': Blocks, lo: nat, hi: nat,
                    pageType: map<nat, nat>)
    requires |lists| == PCP_TYPES && t < PCP_TYPES && at <= |lists[t]|
    requires Distinct(lists) && AllIdle(lists, m, lo, hi, pageType)
    requires Inv(m, lo, hi) && Next(m, lo, hi, Alloc(page, 0), m')
    ensures var l := lists[t := InsertAt(lists[t], at, page)];
            && Distinct(l) && AllIdle(l, m', lo, hi, pageType[page := t]) && Held(l) == Held(lists) + 1
            && SameAvailable(lists, m, l, m')
    ensures page in m
  {
    AllocUncovers(m, lo, hi, page, 0, m');
    assert forall p: nat :: InBlock(p, page, 0) <==> p == page;
    assert !Cached(lists, page);
    InsertKeeps(lists, t, at, page, m, m', lo, hi, pageType, t);
  }

  /** A page leaves a list for its new owner. */
  lemma TakeKeeps(lists: Lists, t: nat, i: nat, m: Blocks, lo: nat, hi: nat, pageType: map<nat, nat>)
    requires |lists| == PCP_TYPES && t < PCP_TYPES && i < |lists[t]|
    requires Distinct(lists) && AllIdle(lists, m, lo, hi, pageType)
    ensures var l := lists[t := RemoveAt(lists[t], i)];
            && Distinct(l) && AllIdle(l, m, lo, hi, pageType) && Held(l) == Held(lists) - 1
            && forall p :: Cached(l, p) <==> Cached(lists, p) && p != lists[t][i]
    ensures Cached(lists, lists[t][i]) && !Covered(m, lists[t][i])
  {
    RemoveDistinct(lists, t, i);
    RemoveCached(lists, t, i);
    assert lists[t][i] in lists[t];
  }

  lemma StillIdle(lists: Lists, m: Blocks, m': Blocks, lo: nat, hi: nat, pageType: map<nat, nat>)
    requires AllIdle(lists, m, lo, hi, pageType) && forall p :: Covered(m', p) ==> Covered(m, p)
    ensures AllIdle(lists, m', lo, hi, pageType)
  {
    forall t, i | 0 <= t < |lists| && 0 <= i < |lists[t]| ensures Idle(m', lo, hi, pageType, lists[t][i]) {
      assert Idle(m, lo, hi, pageType, lists[t][i]);
    }
  }

  lemma OthersStayIdle(lists: Lists, m: Blocks, m': Blocks, lo: nat, hi: nat, pageType: map<nat, nat>,
                       page: nat, order: nat)
    requires AllIdle(lists, m, lo, hi, pageType)
    requires forall p :: InBlock(p, page, order) ==> !Cached(lists, p)
    requires forall p :: Covered(m', p) <==> Covered(m, p) || InBlock(p, page, order)
    ensures AllIdle(lists, m', lo, hi, pageType)
  {
    forall t, i | 0 <= t < |lists| && 0 <= i < |lists[t]| ensures Idle(m', lo, hi, pageType, lists[t][i]) {
      assert Idle(m, lo, hi, pageType, lists[t][i]) && lists[t][i] in lists[t];
      assert Cached(lists, lists[t][i]);
    }
  }

  /** The same pages are free in the zone or parked on a list, and so in nobody's hands. */
  ghost predicate SameAvailable(l: Lists, m: Blocks, l': Lists, m': Blocks) {
    forall p :: Covered(m, p) || Cached(l, p) <==> Covered(m', p) || Cached(l', p)
  }

  lemma SameAvailableReflexive(l: Lists, m: Blocks)
    ensures SameAvailable(l, m, l, m)
  {
  }

  lemma SameAvailableChain(l: Lists, m: Blocks, l': Lists, m': Blocks)
    requires SameAvailable(l, m, l', m')
    ensures forall l'', m'' :: SameAvailable(l', m', l'', m'') ==> SameAvailable(l, m, l'', m'')
  {
    forall l'', m'' | SameAvailable(l', m', l'', m'') ensures SameAvailable(l, m, l'', m'') {
      forall p ensures Covered(m, p) || Cached(l, p) <==> Covered(m'', p) || Cached(l'', p) {
        assert Covered(m, p) || Cached(l, p) <==> Covered(m', p) || Cached(l', p);
      }
    }
  }

  function Last(l: seq<nat>): nat requires l != [] { l[|l| - 1] }

  function DropLast(l: seq<nat>): seq<nat> requires l != [] { l[..|l| - 1] }

  /** The pages covered by `m'` are those covered by `m` and those in `ps`. */
  ghost predicate CoverGrows(m: Blocks, m': Blocks, ps: set<nat>) {
    forall p :: Covered(m', p) <==> Covered(m, p) || p in ps
  }

  lemma FreeingOne(m: Blocks, lo: nat, hi: nat, p: nat)
    requires Inv(m, lo, hi) && Placed(lo, hi, p, 0) && Clear(m, p, 0)
    ensures CoverGrows(m, Merge(m, p, 0), {p})
  {
    MergeKeeps(m, lo, hi, p, 0);
    assert forall q: nat :: InBlock(q, p, 0) <==> q == p;
  }

  lemma LastLeaves(lists: Lists, t: nat, m: Blocks, m': Blocks, lo: nat, hi: nat, pageType: map<nat, nat>)
    requires t < |lists| && lists[t] != [] && Distinct(lists) && AllIdle(lists, m, lo, hi, pageType)
    requires CoverGrows(m, m', {Last(lists[t])})
    ensures var l := lists[t := DropLast(lists[t])]; Distinct(l) && AllIdle(l, m', lo, hi, pageType)
    ensures SameAvailable(lists, m, lists[t := DropLast(lists[t])], m')
  {
    var l := lists[t := DropLast(lists[t])];
    forall u, i | 0 <= u < |l| && 0 <= i < |l[u]|
      ensures l[u][i] == lists[u][i] && l[u][i] != Last(lists[t])
    {
    }
    CachedAfterDrop(lists, t);
  }

  lemma CachedAfterDrop(lists: Lists, t: nat)
    requires t < |lists| && lists[t] != []
    ensures forall p :: Cached(lists, p) <==> Cached(lists[t := DropLast(lists[t])], p) || p == Last(lists[t])
  {
    var l := lists[t := DropLast(lists[t])];
    assert lists[t] == DropLast(lists[t]) + [Last(lists[t])];
    forall p ensures Cached(lists, p) <==> Cached(l, p) || p == Last(lists[t]) {
      if Cached(lists, p) {
        var u :| 0 <= u < |lists| && p in lists[u];
        assert p in l[u] || p == Last(lists[t]);
      }
      if Cached(l, p) {
        var u :| 0 <= u < |l| && p in l[u];
        assert p in lists[u];
      }
    }
  }

  lemma UncoveredIsClear(m: Blocks, p: nat)
    requires !Covered(m, p)
    ensures Aligned(p, 0) && Clear(m, p, 0)
  {
    forall t | t in m ensures Apart(p, 0, t, m[t]) { assert !InBlock(p, t, m[t]); }
  }
}
