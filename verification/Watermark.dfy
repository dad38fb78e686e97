/** The watermark test before an allocation, and what passing it guarantees. */
module Watermarks {
  import opened Bits
  import opened Buddy
  import opened FreeLists
  import opened Zones

  /** `min` after `k` rounds of `min >>= min_free_order_shift`. */
  function Shifted(min: nat, shift: nat, k: nat): nat {
    if k == 0 then min else ShiftRight(Shifted(min, shift, k - 1), shift)
  }

  /** The mark after the ALLOC_HIGH and ALLOC_HARDER discounts. */
  function Discounted(mark: nat, allocHigh: bool, allocHarder: bool): nat {
    var half: nat := if allocHigh then mark - mark / 2 else mark;
    if allocHarder then half - half / 4 else half
  }

  /** Enough pages remain at every order up to the requested one. */
  ghost predicate AboveMark(a: Areas, order: nat, min: nat, lowmemReserve: nat, shift: nat, freePages: int)
    requires order <= |a|
  {
    var left := freePages - (Pow2(order) - 1);
    && left > min + lowmemReserve
    && forall o :: 1 <= o <= order ==> left - PagesBelow(a, o) > Shifted(min, shift, o)
  }

  lemma NothingBelow(a: Areas, shift: nat)
    ensures PagesBelow(a, 0) == 0 && forall min :: Shifted(min, shift, 0) == min
  {
  }

  lemma OneOrderMore(a: Areas, o: nat, min: nat, shift: nat)
    requires o < |a|
    ensures PagesBelow(a, o + 1) == PagesBelow(a, o) + a[o].nrFree * Pow2(o)
    ensures Shifted(min, shift, o + 1) == ShiftRight(Shifted(min, shift, o), shift)
  {
  }

  /** `__zone_watermark_ok`. */
  method ZoneWatermarkOk(z: Zone, order: nat, mark: nat, lowmemReserve: nat, allocHigh: bool, allocHarder: bool,
                         shift: nat, freePages: int) returns (ok: bool)
    requires z.Valid() && order < MAX_ORDER
    ensures ok <==> AboveMark(z.freeArea[..], order, Discounted(mark, allocHigh, allocHarder), lowmemReserve, shift,
                              freePages)
  {
    hide Linked, Counted, Inv, Pow2, ShiftRight, PagesBelow, Shifted;
    NothingBelow(z.freeArea[..], shift);
    var min: nat := mark;
    var left := freePages - (Pow2(order) - 1);
    if allocHigh { min := min - min / 2; }
    if allocHarder { min := min - min / 4; }
    ghost var min0 := min;
    if left <= min + lowmemReserve { return false; }
    var o := 0;
    while o < order
      invariant o <= order && min == Shifted(min0, shift, o)
      invariant left == freePages - (Pow2(order) - 1) - PagesBelow(z.freeArea[..], o)
      invariant forall k :: 1 <= k <= o ==>
        freePages - (Pow2(order) - 1) - PagesBelow(z.freeArea[..], k) > Shifted(min0, shift, k)
    {
      OneOrderMore(z.freeArea[..], o, min0, shift);
      left := left - z.freeArea[o].nrFree * Pow2(o);
      min := ShiftRight(min, shift);
      o := o + 1;
      assert left == freePages - (Pow2(order) - 1) - PagesBelow(z.freeArea[..], o) && min == Shifted(min0, shift, o);
      if left <= min { return false; }
    }
    return true;
  }

  /** With an exact page counter, passing the test means a block of the requested order or
      larger is free. */
  lemma AboveMarkHasBlock(m: Blocks, home: map<nat, nat>, a: Areas, order: nat, min: nat, lowmemReserve: nat,
                          shift: nat)
    requires Linked(m, home, a) && Counted(a) && order < MAX_ORDER
    requires AboveMark(a, order, min, lowmemReserve, shift, PagesBelow(a, |a|))
    ensures exists s :: s in m && m[s] >= order
  {
    assert PagesBelow(a, |a|) > PagesBelow(a, order) by {
      assert order >= 1 ==> PagesBelow(a, |a|) - (Pow2(order) - 1) - PagesBelow(a, order) > Shifted(min, shift, order);
    }
    PagesNeedABlock(a, order, MAX_ORDER);
    var o: nat, t: nat :| order <= o < MAX_ORDER && t < MIGRATE_TYPES && a[o].list[t] != [];
    assert Holds(a, o, t, a[o].list[t][0]);
  }

  /** Test, then allocate: after the test passed, the allocation does not fail. */
  method CheckedRmqueue(z: Zone, order: nat, migratetype: nat, groupingDisabled: bool, mark: nat, lowmemReserve: nat,
                        allocHigh: bool, allocHarder: bool, shift: nat) returns (ok: bool, r: MaybePage)
    requires z.Valid() && z.nrFreePages == z.FreePages() && order < MAX_ORDER && migratetype < PCP_TYPES
    modifies z`marks, z`home, z`blockTypes, z.freeArea
    ensures z.Valid() && (ok ==> r.Page?)
    ensures !ok ==> r.NoPage? && z.marks == old(z.marks)
  {
    ok := ZoneWatermarkOk(z, order, mark, lowmemReserve, allocHigh, allocHarder, shift, z.nrFreePages);
    r := NoPage;
    if ok {
      AboveMarkHasBlock(z.marks, z.home, z.freeArea[..], order, Discounted(mark, allocHigh, allocHarder),
                        lowmemReserve, shift);
      r := z.Rmqueue(order, migratetype, groupingDisabled);
    }
  }
}
