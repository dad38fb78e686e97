/** The free blocks of one zone as a value: how freeing coalesces them, how allocation splits
    them, and why the set of free pages alone decides which blocks there are. */
module Buddy {
  import opened Bits

  /** The number of orders is a build-time choice of the kernel configuration (11 by default). */
  type OrderCount = n: nat | n > 0 witness 11
  const MAX_ORDER: OrderCount

  /** Head page frame number of every free block, with its recorded order. */
  type Blocks = map<nat, nat>

  function FindBuddyIndex(pageIdx: nat, order: nat): nat {
    Xor(pageIdx, Pow2(order))
  }

  predicate InBlock(p: nat, s: nat, o: nat) {
    s <= p < s + Pow2(o)
  }

  ghost predicate Covered(m: Blocks, p: nat) {
    exists s :: s in m && InBlock(p, s, m[s])
  }

  predicate Apart(s: nat, o: nat, t: nat, p: nat) {
    s + Pow2(o) <= t || t + Pow2(p) <= s
  }

  /** An aligned block of a legal order inside the zone `[lo, hi)`. */
  predicate Placed(lo: nat, hi: nat, s: nat, o: nat) {
    o < MAX_ORDER && Aligned(s, o) && lo <= s && s + Pow2(o) <= hi
  }

  ghost predicate Clear(m: Blocks, s: nat, o: nat) {
    forall t :: t in m ==> Apart(s, o, t, m[t])
  }

  ghost predicate Disjoint(m: Blocks) {
    forall s, t :: s in m && t in m && s != t ==> Apart(s, m[s], t, m[t])
  }

  predicate HasBuddy(m: Blocks, s: nat, o: nat) {
    FindBuddyIndex(s, o) in m && m[FindBuddyIndex(s, o)] == o
  }

  ghost predicate Coalesced(m: Blocks) {
    forall s, t :: s in m && t in m && m[s] == m[t] < MAX_ORDER - 1 ==> FindBuddyIndex(s, m[s]) != t
  }

  ghost predicate Inv(m: Blocks, lo: nat, hi: nat) {
    && (forall s :: s in m ==> Placed(lo, hi, s, m[s]))
    && Disjoint(m)
    && Coalesced(m)
  }

  /** Free blocks after giving back `(s, o)`: merge upwards while the buddy is free. */
  function Merge(m: Blocks, s: nat, o: nat): Blocks
    decreases MAX_ORDER - o
  {
    if o < MAX_ORDER - 1 && HasBuddy(m, s, o)
    then Merge(m - {FindBuddyIndex(s, o)}, And(FindBuddyIndex(s, o), s), o + 1)
    else m[s := o]
  }

  /** Free blocks after cutting `(s, high)` down to `(s, low)`: the upper halves become free. */
  function Split(m: Blocks, s: nat, low: nat, high: nat): Blocks
    decreases high
  {
    if high <= low then m else Split(m[s + Pow2(high - 1) := high - 1], s, low, high - 1)
  }

  // ---------- geometry of aligned blocks

  predicate Pair(s: nat, b: nat, c: nat, o: nat) {
    && Aligned(b, o) && Aligned(c, o + 1) && FindBuddyIndex(b, o) == s
    && ((c == s && b == s + Pow2(o)) || (c == b && s == b + Pow2(o)))
  }

  /** A block and its buddy are the two halves of the aligned block one order up. */
  lemma {:induction false} BuddyPair(s: nat, o: nat)
    requires Aligned(s, o)
    ensures Pair(s, FindBuddyIndex(s, o), And(FindBuddyIndex(s, o), s), o)
    decreases o
  {
    XorPow2(s, o);
    AlignedNeighbours(s, o);
    if Bit(s, o) == 1 { AlignedDown(s - Pow2(o), o + 1, o); }
    XorPow2(FindBuddyIndex(s, o), o);
  }

  lemma AlignedNeighbours(s: nat, o: nat)
    requires Aligned(s, o)
    ensures Bit(s, o) == 0 <==> Aligned(s, o + 1)
    ensures Aligned(s + Pow2(o), o) && Bit(s + Pow2(o), o) == 1 - Bit(s, o)
    ensures Bit(s, o) == 1 ==> s >= Pow2(o) && Aligned(s - Pow2(o), o + 1) && Bit(s - Pow2(o), o) == 0
  {
    hide Aligned, Bit, Pow2;
    EvenAbove(s, o);
    NeighbourAbove(s, o);
    NeighbourBelow(s, o);
  }

  lemma {:induction false} EvenAbove(s: nat, o: nat)
    requires Aligned(s, o)
    ensures Bit(s, o) == 0 <==> Aligned(s, o + 1)
    decreases o
  {
    if o > 0 { EvenAbove(s / 2, o - 1); }
  }

  lemma {:induction false} NeighbourAbove(s: nat, o: nat)
    requires Aligned(s, o)
    ensures Aligned(s + Pow2(o), o) && Bit(s + Pow2(o), o) == 1 - Bit(s, o)
    decreases o
  {
    if o > 0 {
      NeighbourAbove(s / 2, o - 1);
      assert (s + Pow2(o)) / 2 == s / 2 + Pow2(o - 1);
    }
  }

  lemma {:induction false} NeighbourBelow(s: nat, o: nat)
    requires Aligned(s, o)
    ensures Bit(s, o) == 1 ==> s >= Pow2(o) && Aligned(s - Pow2(o), o + 1) && Bit(s - Pow2(o), o) == 0
    decreases o
  {
    if o > 0 {
      NeighbourBelow(s / 2, o - 1);
      assert Bit(s, o) == 1 ==> (s - Pow2(o)) / 2 == s / 2 - Pow2(o - 1);
    }
  }

  /** An aligned block is the union of two aligned halves that are each other's buddy. */
  lemma HalvesPair(s: nat, o: nat)
    requires o > 0 && Aligned(s, o)
    ensures Aligned(s, o - 1) && Aligned(s + Pow2(o - 1), o - 1)
    ensures FindBuddyIndex(s, o - 1) == s + Pow2(o - 1)
    ensures FindBuddyIndex(s + Pow2(o - 1), o - 1) == s
  {
    hide Aligned, Xor, Pow2;
    AlignedDown(s, o, o - 1);
    AlignedNeighbours(s, o - 1);
    XorPow2(s, o - 1);
    XorPow2(s + Pow2(o - 1), o - 1);
  }

  /** Aligned blocks that meet are nested. */
  lemma {:induction false} Nested(s: nat, o: nat, t: nat, p: nat)
    requires Aligned(s, o) && Aligned(t, p) && o <= p && !Apart(s, o, t, p)
    ensures t <= s && s + Pow2(o) <= t + Pow2(p)
    decreases o
  {
    if o == 0 {
    } else {
      Nested(s / 2, o - 1, t / 2, p - 1);
    }
  }

  // ---------- coalescing

  lemma MergeStep(m: Blocks, lo: nat, hi: nat, s: nat, o: nat)
    requires Inv(m, lo, hi) && Placed(lo, hi, s, o) && Clear(m, s, o)
    requires o < MAX_ORDER - 1 && HasBuddy(m, s, o)
    ensures var b := FindBuddyIndex(s, o); var c := And(b, s); var m' := m - {b};
            Inv(m', lo, hi) && Placed(lo, hi, c, o + 1) && Clear(m', c, o + 1)
  {
    BuddyPair(s, o);
    var b := FindBuddyIndex(s, o);
    var c := And(b, s);
    var m' := m - {b};
    assert Placed(lo, hi, b, m[b]);
    forall t | t in m' ensures Apart(c, o + 1, t, m'[t]) {
      assert Apart(s, o, t, m[t]) && Apart(b, o, t, m[t]);
      assert Placed(lo, hi, t, m[t]);
      ApartFromBoth(c, o, t, m[t]);
    }
  }

  lemma MergeCover(m: Blocks, s: nat, o: nat)
    requires Aligned(s, o) && HasBuddy(m, s, o)
    ensures var b := FindBuddyIndex(s, o);
            forall p :: Covered(m - {b}, p) || InBlock(p, And(b, s), o + 1) <==> Covered(m, p) || InBlock(p, s, o)
  {
    BuddyPair(s, o);
    CoverMinus(m, FindBuddyIndex(s, o));
  }

  /** An aligned block that meets neither half of an aligned block does not meet the block. */
  lemma {:induction false} ApartFromBoth(c: nat, o: nat, t: nat, p: nat)
    requires Aligned(c, o + 1) && Aligned(t, p)
    requires Apart(c, o, t, p) && Apart(c + Pow2(o), o, t, p)
    ensures Apart(c, o + 1, t, p)
  {
  }

  lemma CoverMinus(m: Blocks, b: nat)
    requires b in m
    ensures forall p :: Covered(m, p) <==> Covered(m - {b}, p) || InBlock(p, b, m[b])
  {
    var m' := m - {b};
    forall p ensures Covered(m, p) <==> Covered(m', p) || InBlock(p, b, m[b]) {
      if Covered(m, p) {
        var s :| s in m && InBlock(p, s, m[s]);
        assert s == b || (s in m' && InBlock(p, s, m'[s]));
      }
      if Covered(m', p) {
        var s :| s in m' && InBlock(p, s, m'[s]);
        assert s in m && InBlock(p, s, m[s]);
      }
    }
  }

  lemma CoverPlus(m: Blocks, b: nat, o: nat)
    requires b !in m
    ensures forall p :: Covered(m[b := o], p) <==> Covered(m, p) || InBlock(p, b, o)
  {
    var m' := m[b := o];
    assert m' - {b} == m;
    CoverMinus(m', b);
  }

  /** Freeing a block keeps the blocks aligned, disjoint and fully merged, and makes exactly
      its pages free. */
  lemma {:induction false} MergeKeeps(m: Blocks, lo: nat, hi: nat, s: nat, o: nat)
    requires Inv(m, lo, hi) && Placed(lo, hi, s, o) && Clear(m, s, o)
    ensures Inv(Merge(m, s, o), lo, hi)
    ensures forall p :: Covered(Merge(m, s, o), p) <==> Covered(m, p) || InBlock(p, s, o)
    decreases MAX_ORDER - o
  {
    var b := FindBuddyIndex(s, o);
    if o < MAX_ORDER - 1 && HasBuddy(m, s, o) {
      MergeStep(m, lo, hi, s, o);
      MergeCover(m, s, o);
      MergeKeeps(m - {b}, lo, hi, And(b, s), o + 1);
    } else {
      MergeStops(m, lo, hi, s, o);
      CoverPlus(m, s, o);
    }
  }

  lemma MergeStops(m: Blocks, lo: nat, hi: nat, s: nat, o: nat)
    requires Inv(m, lo, hi) && Placed(lo, hi, s, o) && Clear(m, s, o)
    requires o < MAX_ORDER - 1 ==> !HasBuddy(m, s, o)
    ensures s !in m && Inv(m[s := o], lo, hi)
  {
    var m' := m[s := o];
    assert s !in m;
    BuddyPair(s, o);
    forall t, u | t in m' && u in m' && m'[t] == m'[u] < MAX_ORDER - 1 ensures FindBuddyIndex(t, m'[t]) != u {
      assert Placed(lo, hi, t, m'[t]);
      BuddyPair(t, m'[t]);
    }
  }

  // ---------- splitting

  lemma SplitStep(m: Blocks, lo: nat, hi: nat, s: nat, high: nat)
    requires Inv(m, lo, hi) && Placed(lo, hi, s, high) && Clear(m, s, high) && high > 0
    ensures var t := s + Pow2(high - 1); var m' := m[t := high - 1];
            t !in m && Inv(m', lo, hi) && Placed(lo, hi, s, high - 1) && Clear(m', s, high - 1)
  {
    HalvesPair(s, high);
    var t := s + Pow2(high - 1);
    assert Pow2(high) == 2 * Pow2(high - 1);
    hide Aligned, Pow2, Xor;
    assert s !in m;
    assert Clear(m, t, high - 1) && !HasBuddy(m, t, high - 1);
    MergeStops(m, lo, hi, t, high - 1);
  }

  /** Cutting a block down keeps the blocks aligned, disjoint and fully merged, and leaves the
      block handed out untouched. */
  lemma {:induction false} SplitKeeps(m: Blocks, lo: nat, hi: nat, s: nat, low: nat, high: nat)
    requires Inv(m, lo, hi) && Placed(lo, hi, s, high) && Clear(m, s, high) && low <= high
    ensures Inv(Split(m, s, low, high), lo, hi) && Clear(Split(m, s, low, high), s, low)
    ensures Placed(lo, hi, s, low)
    decreases high
  {
    hide Disjoint, Coalesced, Apart, Aligned;
    if low < high {
      SplitStep(m, lo, hi, s, high);
      SplitKeeps(m[s + Pow2(high - 1) := high - 1], lo, hi, s, low, high - 1);
    }
  }

  /** The pages it frees are those of the larger block outside the one handed out. */
  lemma {:induction false} SplitCover(m: Blocks, lo: nat, hi: nat, s: nat, low: nat, high: nat)
    requires Inv(m, lo, hi) && Placed(lo, hi, s, high) && Clear(m, s, high) && low <= high
    ensures forall p :: Covered(Split(m, s, low, high), p)
                   <==> Covered(m, p) || (InBlock(p, s, high) && !InBlock(p, s, low))
    decreases high
  {
    if low < high {
      var m' := m[s + Pow2(high - 1) := high - 1];
      SplitStep(m, lo, hi, s, high);
      SplitCover(m', lo, hi, s, low, high - 1);
      SplitCoverStep(m, s, low, high);
    }
  }

  lemma SplitCoverStep(m: Blocks, s: nat, low: nat, high: nat)
    requires low < high && s + Pow2(high - 1) !in m
    ensures forall p ::
              Covered(m[s + Pow2(high - 1) := high - 1], p) || (InBlock(p, s, high - 1) && !InBlock(p, s, low))
              <==> Covered(m, p) || (InBlock(p, s, high) && !InBlock(p, s, low))
  {
    var t := s + Pow2(high - 1);
    CoverPlus(m, t, high - 1);
    Pow2Grows(low, high - 1);
    forall p ensures InBlock(p, s, high) && !InBlock(p, s, low)
                     <==> InBlock(p, t, high - 1) || (InBlock(p, s, high - 1) && !InBlock(p, s, low)) {}
  }

  // ---------- the free pages decide the free blocks

  /** A fully free aligned region lies inside one free block. */
  lemma {:induction false} FreeRegionInOneBlock(m: Blocks, lo: nat, hi: nat, s: nat, o: nat) returns (t: nat)
    requires Inv(m, lo, hi) && Aligned(s, o) && o < MAX_ORDER
    requires forall p :: InBlock(p, s, o) ==> Covered(m, p)
    ensures t in m && m[t] >= o && t <= s && s + Pow2(o) <= t + Pow2(m[t])
    decreases o
  {
    if o == 0 {
      assert InBlock(s, s, o);
      t :| t in m && InBlock(s, t, m[t]);
    } else {
      HalvesPair(s, o);
      var s' := s + Pow2(o - 1);
      assert Pow2(o) == 2 * Pow2(o - 1);
      hide Aligned, Xor;
      assert forall p :: InBlock(p, s, o - 1) || InBlock(p, s', o - 1) ==> InBlock(p, s, o);
      t := FreeRegionInOneBlock(m, lo, hi, s, o - 1);
      var u := FreeRegionInOneBlock(m, lo, hi, s', o - 1);
      assert Placed(lo, hi, t, m[t]) && Placed(lo, hi, u, m[u]);
      if m[t] >= o {
        Nested(s, o, t, m[t]);
      } else if m[u] >= o {
        t := u;
        Nested(s, o, t, m[t]);
      } else {
        assert false;
      }
    }
  }

  /** Two fully merged block sets with the same free pages are the same block set. */
  lemma Canonical(m: Blocks, n: Blocks, lo: nat, hi: nat)
    requires Inv(m, lo, hi) && Inv(n, lo, hi)
    requires forall p :: Covered(m, p) <==> Covered(n, p)
    ensures m == n
  {
    forall s | s in m ensures s in n && n[s] == m[s] { BlockOfOther(m, n, lo, hi, s); }
    forall s | s in n ensures s in m && m[s] == n[s] { BlockOfOther(n, m, lo, hi, s); }
  }

  lemma BlockOfOther(m: Blocks, n: Blocks, lo: nat, hi: nat, s: nat)
    requires Inv(m, lo, hi) && Inv(n, lo, hi) && s in m
    requires forall p :: Covered(m, p) <==> Covered(n, p)
    ensures s in n && n[s] == m[s]
  {
    assert Placed(lo, hi, s, m[s]);
    var t := FreeRegionInOneBlock(n, lo, hi, s, m[s]);
    assert Placed(lo, hi, t, n[t]);
    var u := FreeRegionInOneBlock(m, lo, hi, t, n[t]);
    assert u == s;
    Pow2Injective(m[s], n[t]);
  }

  lemma Pow2Injective(a: nat, b: nat)
    requires a <= b && Pow2(b) <= Pow2(a)
    ensures a == b
  {
    Pow2Grows(a, b);
  }

  /** The pages free in `m` or inside `(s, o)` are those free in `m'` or inside `(s', o')`. */
  ghost predicate SamePages(m: Blocks, s: nat, o: nat, m': Blocks, s': nat, o': nat) {
    forall p :: Covered(m, p) || InBlock(p, s, o) <==> Covered(m', p) || InBlock(p, s', o')
  }

  /** One round of the merge loop. */
  lemma MergeRound(m0: Blocks, s0: nat, o0: nat, m: Blocks, lo: nat, hi: nat, s: nat, o: nat)
    requires Inv(m, lo, hi) && Placed(lo, hi, s, o) && Clear(m, s, o)
    requires o < MAX_ORDER - 1 && HasBuddy(m, s, o)
    requires SamePages(m0, s0, o0, m, s, o)
    ensures var b := FindBuddyIndex(s, o); var c := And(b, s); var m' := m - {b};
            Inv(m', lo, hi) && Placed(lo, hi, c, o + 1) && Clear(m', c, o + 1) && SamePages(m0, s0, o0, m', c, o + 1)
  {
    MergeStep(m, lo, hi, s, o);
    MergeCover(m, s, o);
  }

  /** Any fully merged block set with the right free pages is the one freeing should give. */
  lemma MergeIsTheOnlyResult(m: Blocks, lo: nat, hi: nat, s: nat, o: nat, n: Blocks, t: nat, q: nat)
    requires Inv(m, lo, hi) && Placed(lo, hi, s, o) && Clear(m, s, o)
    requires t !in n && Inv(n[t := q], lo, hi) && SamePages(m, s, o, n, t, q)
    ensures n[t := q] == Merge(m, s, o)
  {
    MergeKeeps(m, lo, hi, s, o);
    CoverPlus(n, t, q);
    forall p ensures Covered(n[t := q], p) <==> Covered(Merge(m, s, o), p) {
      assert Covered(m, p) || InBlock(p, s, o) <==> Covered(n, p) || InBlock(p, t, q);
    }
    Canonical(n[t := q], Merge(m, s, o), lo, hi);
  }

  /** Likewise for cutting a block down. */
  lemma SplitIsTheOnlyResult(m: Blocks, lo: nat, hi: nat, s: nat, low: nat, high: nat, n: Blocks)
    requires Inv(m, lo, hi) && Placed(lo, hi, s, high) && Clear(m, s, high) && low <= high
    requires Inv(n, lo, hi) && Clear(n, s, low) && SamePages(m, s, high, n, s, low)
    ensures n == Split(m, s, low, high)
  {
    SplitKeeps(m, lo, hi, s, low, high);
    SplitCover(m, lo, hi, s, low, high);
    Pow2Grows(low, high);
    ClearIsUncovered(n, s, low);
    ClearIsUncovered(m, s, high);
    forall p ensures Covered(n, p) <==> Covered(Split(m, s, low, high), p) {
      assert Covered(m, p) || InBlock(p, s, high) <==> Covered(n, p) || InBlock(p, s, low);
      assert InBlock(p, s, low) ==> InBlock(p, s, high);
    }
    Canonical(n, Split(m, s, low, high), lo, hi);
  }

  lemma ClearIsUncovered(m: Blocks, s: nat, o: nat)
    requires Clear(m, s, o)
    ensures forall p :: InBlock(p, s, o) ==> !Covered(m, p)
  {
  }

  /** One round of the split loop. */
  lemma SplitRound(m0: Blocks, high0: nat, m: Blocks, lo: nat, hi: nat, s: nat, high: nat)
    requires Inv(m, lo, hi) && Placed(lo, hi, s, high) && Clear(m, s, high) && high > 0
    requires SamePages(m0, s, high0, m, s, high)
    ensures var t := s + Pow2(high - 1); var m' := m[t := high - 1];
            && t !in m && Inv(m', lo, hi) && Placed(lo, hi, s, high - 1) && Clear(m', s, high - 1)
            && SamePages(m0, s, high0, m', s, high - 1)
  {
    SplitStep(m, lo, hi, s, high);
    var t := s + Pow2(high - 1);
    CoverPlus(m, t, high - 1);
    forall p ensures InBlock(p, s, high) <==> InBlock(p, t, high - 1) || InBlock(p, s, high - 1) {}
  }

  // ---------- runs of allocations and frees

  datatype Op = Alloc(s: nat, low: nat) | Free(s: nat, o: nat)

  /** One allocator call: any free block of sufficient order may be cut, and any block that
      is wholly allocated may be given back. */
  ghost predicate Next(m: Blocks, lo: nat, hi: nat, op: Op, m': Blocks) {
    match op
    case Alloc(s, low) => s in m && low <= m[s] && m' == Split(m - {s}, s, low, m[s])
    case Free(s, o) => Placed(lo, hi, s, o) && Clear(m, s, o) && m' == Merge(m, s, o)
  }

  ghost predicate IsRun(run: seq<Blocks>, ops: seq<Op>, lo: nat, hi: nat) {
    && |run| == |ops| + 1
    && run[0] == map[]
    && forall i :: 0 <= i < |ops| ==> Next(run[i], lo, hi, ops[i], run[i + 1])
  }

  lemma AllocKeeps(m: Blocks, lo: nat, hi: nat, s: nat, low: nat)
    requires Inv(m, lo, hi) && s in m && low <= m[s]
    ensures var m' := Split(m - {s}, s, low, m[s]);
            && Inv(m', lo, hi) && Clear(m', s, low) && Placed(lo, hi, s, low)
            && forall p :: Covered(m', p) <==> Covered(m, p) && !InBlock(p, s, low)
  {
    var n := m - {s};
    assert Placed(lo, hi, s, m[s]);
    CoverMinus(m, s);
    SplitKeeps(n, lo, hi, s, low, m[s]);
    SplitCover(n, lo, hi, s, low, m[s]);
    Pow2Grows(low, m[s]);
    assert forall p :: InBlock(p, s, m[s]) ==> !Covered(n, p);
  }

  lemma {:induction false} RunKeeps(run: seq<Blocks>, ops: seq<Op>, lo: nat, hi: nat, i: nat)
    requires IsRun(run, ops, lo, hi) && i < |run|
    ensures Inv(run[i], lo, hi)
  {
    if i > 0 {
      RunKeeps(run, ops, lo, hi, i - 1);
      assert Next(run[i - 1], lo, hi, ops[i - 1], run[i]);
      match ops[i - 1]
      case Alloc(s, low) => AllocKeeps(run[i - 1], lo, hi, s, low);
      case Free(s, o) => MergeKeeps(run[i - 1], lo, hi, s, o);
    }
  }

  /** Any two histories that leave the same pages free leave the same blocks. */
  lemma HistoriesAgree(run: seq<Blocks>, ops: seq<Op>, run': seq<Blocks>, ops': seq<Op>, lo: nat, hi: nat)
    requires IsRun(run, ops, lo, hi) && IsRun(run', ops', lo, hi)
    requires forall p :: Covered(run[|ops|], p) <==> Covered(run'[|ops'|], p)
    ensures run[|ops|] == run'[|ops'|]
  {
    RunKeeps(run, ops, lo, hi, |ops|);
    RunKeeps(run', ops', lo, hi, |ops'|);
    Canonical(run[|ops|], run'[|ops'|], lo, hi);
  }

  /** Freeing a block right after allocating it restores every free block exactly. */
  lemma AllocFreeRestores(m: Blocks, lo: nat, hi: nat, s: nat, low: nat)
    requires Inv(m, lo, hi) && s in m && low <= m[s]
    ensures Merge(Split(m - {s}, s, low, m[s]), s, low) == m
  {
    var n := Split(m - {s}, s, low, m[s]);
    AllocKeeps(m, lo, hi, s, low);
    MergeKeeps(n, lo, hi, s, low);
    Pow2Grows(low, m[s]);
    forall p ensures Covered(Merge(n, s, low), p) <==> Covered(m, p) {
      if InBlock(p, s, low) { assert s in m && InBlock(p, s, m[s]); }
    }
    Canonical(Merge(n, s, low), m, lo, hi);
  }

  /** Allocating the block just freed undoes the free. It can be handed out at once exactly when it is still
      the head of the block it was merged into, since heads are what is handed out. */
  lemma FreeAllocRestores(m: Blocks, lo: nat, hi: nat, s: nat, o: nat, m': Blocks)
    requires Inv(m, lo, hi) && Placed(lo, hi, s, o) && Clear(m, s, o)
    ensures Next(Merge(m, s, o), lo, hi, Alloc(s, o), m') <==> s in Merge(m, s, o) && m' == m
  {
    MergeKeeps(m, lo, hi, s, o);
    if s in Merge(m, s, o) {
      HeadCutRestores(m, lo, hi, s, o);
      hide Merge, Split;
    }
  }

  lemma HeadCutRestores(m: Blocks, lo: nat, hi: nat, s: nat, o: nat)
    requires Inv(m, lo, hi) && Placed(lo, hi, s, o) && Clear(m, s, o)
    requires s in Merge(m, s, o)
    ensures var n := Merge(m, s, o); o <= n[s] && Split(n - {s}, s, o, n[s]) == m
  {
    var n := Merge(m, s, o);
    MergeKeeps(m, lo, hi, s, o);
    var t := FreeRegionInOneBlock(n, lo, hi, s, o);
    assert t == s by {
      assert Placed(lo, hi, t, n[t]) && Placed(lo, hi, s, n[s]);
    }
    AllocKeeps(n, lo, hi, s, o);
    assert forall p :: InBlock(p, s, o) ==> !Covered(m, p);
    Canonical(Split(n - {s}, s, o, n[s]), m, lo, hi);
  }

  lemma {:induction false} SameBit(base: nat, i: nat, o: nat)
    requires Aligned(base, o + 1)
    ensures Bit(base + i, o) == Bit(i, o)
    decreases o
  {
    if o > 0 {
      assert (base + i) / 2 == base / 2 + i / 2;
      SameBit(base / 2, i / 2, o - 1);
    }
  }

  /** Adding a multiple of `2^(o+1)` to an index moves its buddy and their merged block along. */
  lemma BuddyMovesAlong(base: nat, i: nat, o: nat)
    requires Aligned(base, o + 1)
    ensures FindBuddyIndex(base + i, o) == base + FindBuddyIndex(i, o)
    ensures And(FindBuddyIndex(base + i, o), base + i) == base + And(FindBuddyIndex(i, o), i)
  {
    SameBit(base, i, o);
    XorPow2(i, o);
    XorPow2(base + i, o);
  }

  lemma {:induction false} AlignedDown(s: nat, k: nat, o: nat)
    requires Aligned(s, k) && o <= k
    ensures Aligned(s, o)
    decreases o
  {
    if o > 0 { AlignedDown(s / 2, k - 1, o - 1); }
  }

  lemma RoundDown(a: nat, n: nat)
    requires n > 0
    ensures a % n <= a && (a - a % n) % n == 0
  {
    assert a - a % n == a / n * n;
    assert a / n * n >= 0;
    DivModUnique(a - a % n, n, a / n, 0);
  }

  lemma MaskSplits(pfn: nat, k: nat)
    ensures And(pfn, Pow2(k) - 1) <= pfn && Aligned(pfn - And(pfn, Pow2(k) - 1), k)
  {
    MaskLow(pfn, k);
    RoundDown(pfn, Pow2(k));
    AlignedIsMultiple(pfn - pfn % Pow2(k), k);
  }

  /** `__free_one_page` works on the low MAX_ORDER bits of the frame number only. Below that
      order this is harmless: what is masked off moves the buddy and the merged block along. */
  lemma MaskingIsHarmless(pfn: nat, o: nat, k: nat)
    requires o < k
    ensures var i := And(pfn, Pow2(k) - 1);
            && FindBuddyIndex(pfn, o) - pfn == FindBuddyIndex(i, o) - i
            && And(FindBuddyIndex(pfn, o), pfn) - pfn == And(FindBuddyIndex(i, o), i) - i
  {
    var i := And(pfn, Pow2(k) - 1);
    MaskSplits(pfn, k);
    AlignedDown(pfn - i, k, o + 1);
    BuddyMovesAlong(pfn - i, i, o);
  }
}
