/** Admission control for the real-time bandwidth of task groups. */
module RtAdmission {
  import opened GroupTree
  import opened Bits

  const U64: nat := 0x1_0000_0000_0000_0000

  type WordSize = n: nat | n == 0x1_0000_0000 || n == 0x1_0000_0000_0000_0000 witness 0x1_0000_0000

  /** One more than the largest `unsigned long`. */
  const ULONG: WordSize

  const RUNTIME_INF: nat := U64 - 1
  const UNIT: nat := 0x10_0000
  const EINVAL: int := 22
  const EBUSY: int := 16

  /** A period and the real-time runtime granted in it, in nanoseconds. */
  datatype Bandwidth = Bandwidth(period: nat, runtime: nat)

  ghost predicate Sound(b: Bandwidth) {
    0 < b.period < U64 && b.runtime < U64
  }

  /** `runtime << 20` on 64 bits. */
  function Shifted(runtime: nat): nat {
    runtime * UNIT % U64
  }

  /** What an `unsigned long` keeps of a value. */
  function Word(x: nat): nat {
    x % ULONG
  }

  /** `div64_u64`. */
  function Quotient(x: nat, p: nat): nat
    requires p > 0
  {
    x / p
  }

  /** `to_ratio`: the share of the period in units of 2^-20; the shift is done on 64 bits and the
      result is stored in an `unsigned long`. */
  function ToRatio(b: Bandwidth): nat
    requires b.period > 0
  {
    if b.runtime == RUNTIME_INF then UNIT else Word(Quotient(Shifted(b.runtime), b.period))
  }

  lemma ModAtMost(x: nat, m: nat)
    requires m > 0
    ensures x % m <= x && (x < m ==> x % m == x)
  {
    if x < m { DivModUnique(x, m, 0, x); }
  }

  lemma WordAtMost(x: nat)
    ensures Word(x) <= x && (x < ULONG ==> Word(x) == x)
  {
    ModAtMost(x, ULONG);
  }

  lemma ShiftedAtMost(r: nat)
    ensures Shifted(r) <= r * UNIT && (r < 0x1000_0000_0000 ==> Shifted(r) == r * UNIT)
  {
    ModAtMost(r * UNIT, U64);
  }

  lemma TimesMonotone(r: nat, p: nat, u: nat)
    requires r <= p
    ensures r * u <= p * u
  {
    assert (p - r) * u >= 0;
  }

  lemma DivBelow(a: nat, p: nat, u: nat)
    requires p > 0 && a <= p * u
    ensures a / p <= u
  {
    var d, m := a / p, a % p;
    assert a == p * d + m;
    assert p * (d - u) == p * d - p * u;
    assert d - u >= 1 ==> p * (d - u) >= p;
  }

  /** Part of a period, scaled by `u` and divided by the period. */
  lemma PartOfPeriod(x: nat, r: nat, p: nat, u: nat)
    requires x <= r * u && r <= p && p > 0
    ensures Quotient(x, p) <= u
  {
    TimesMonotone(r, p, u);
    DivBelow(x, p, u);
  }

  lemma PartFits(r: nat, p: nat)
    requires r <= p && p > 0
    ensures Word(Quotient(Shifted(r), p)) <= UNIT
  {
    hide Shifted, Word, Quotient;
    ShiftedAtMost(r);
    PartOfPeriod(Shifted(r), r, p, UNIT);
    WordAtMost(Quotient(Shifted(r), p));
  }

  /** No share that passes the check on runtime and period exceeds the whole period. */
  lemma RatioAtMostUnit(b: Bandwidth)
    requires Sound(b) && (b.runtime <= b.period || b.runtime == RUNTIME_INF)
    ensures ToRatio(b) <= UNIT
  {
    if b.runtime != RUNTIME_INF {
      hide Shifted, Word, Quotient;
      PartFits(b.runtime, b.period);
    }
  }

  /** The shift drops all but the low 44 bits of the runtime. */
  lemma ShiftedDrops(r: nat)
    ensures Shifted(r) == r % 0x1000_0000_0000 * UNIT
    ensures r * UNIT == Shifted(r) + r / 0x1000_0000_0000 * U64
  {
    DivModUnique(r * UNIT, U64, r / 0x1000_0000_0000, r % 0x1000_0000_0000 * UNIT);
  }

  lemma MoreDivides(x: nat, y: nat, p: nat)
    requires p > 0 && x + p <= y
    ensures x / p < y / p
  {
    var d, e := x / p, y / p;
    assert x == p * d + x % p && y == p * e + y % p;
    assert p * (d - e) == p * d - p * e;
    assert d - e >= 0 ==> p * (d - e) >= 0;
  }

  lemma WholePeriod(p: nat, u: nat)
    requires p > 0
    ensures p * u / p == u
  {
    DivModUnique(p * u, p, u, 0);
  }

  /** The share is the runtime's part of the period, rounded down, exactly below 2^44 nanoseconds and for a runtime
      without limit; from there on high bits of the runtime are lost. */
  lemma RatioExact(b: Bandwidth)
    requires Sound(b) && b.runtime <= b.period
    ensures ToRatio(b) == b.runtime * UNIT / b.period
            <==> b.runtime < 0x1000_0000_0000 || b.runtime == RUNTIME_INF
    ensures b.runtime != RUNTIME_INF ==> ToRatio(b) == b.runtime % 0x1000_0000_0000 * UNIT / b.period
  {
    var r, p := b.runtime, b.period;
    ShiftedDrops(r);
    WholePeriod(p, UNIT);
    if r >= 0x1000_0000_0000 { MoreDivides(Shifted(r), r * UNIT, p); }
    hide Shifted, Word;
    ShiftedAtMost(r);
    PartOfPeriod(Shifted(r), r, p, UNIT);
    WordAtMost(Quotient(Shifted(r), p));
  }

  // ---------- the check

  ghost predicate AllSound(t: Tree, s: seq<Bandwidth>) {
    Valid(t) && |s| == |t.parent| && forall g :: 0 <= g < |s| ==> Sound(s[g])
  }

  /** The shares of a list of groups, added up without wrap-around. */
  function SumRatios(kids: seq<nat>, s: seq<Bandwidth>): nat {
    if kids == [] then 0
    else SumRatios(kids[..|kids| - 1], s) + Share(s, kids[|kids| - 1])
  }

  function Share(s: seq<Bandwidth>, g: nat): nat {
    if g < |s| && s[g].period > 0 then ToRatio(s[g]) else 0
  }

  /** `tg_rt_schedulable` for group `g` with the settings `s`, in which the change is already made. */
  function Check(t: Tree, s: seq<Bandwidth>, limit: Bandwidth, busy: seq<bool>, g: nat): int {
    if |t.children| != |s| || |busy| != |s| || g >= |s| || limit.period == 0 then 0
    else if s[g].runtime > s[g].period && s[g].runtime != RUNTIME_INF then -EINVAL
    else if limit.runtime != RUNTIME_INF && s[g].runtime == 0 && busy[g] then -EBUSY
    else if Share(s, g) > ToRatio(limit) then -EINVAL
    else if Word(SumRatios(t.children[g], s)) > Share(s, g) then -EINVAL
    else 0
  }

  lemma AddOnWords(a: nat, b: nat)
    ensures Word(Word(a) + b) == Word(a + b)
  {
    var u := a % ULONG + b;
    var d, q := a / ULONG, u / ULONG;
    assert a + b == (d + q) * ULONG + u % ULONG;
    DivModUnique(a + b, ULONG, d + q, u % ULONG);
  }

  /** The loop over the children adds in an `unsigned long`. */
  method SumOfChildren(kids: seq<nat>, s: seq<Bandwidth>, changed: nat, want: Bandwidth) returns (sum: nat)
    requires changed < |s| && want.period > 0
    requires forall i :: 0 <= i < |kids| ==> kids[i] < |s| && s[kids[i]].period > 0
    ensures sum == Word(SumRatios(kids, s[changed := want]))
  {
    hide ToRatio, Word;
    sum := 0;
    WordAtMost(0);
    for i := 0 to |kids|
      invariant sum == Word(SumRatios(kids[..i], s[changed := want]))
    {
      var child := kids[i];
      var b := if child == changed then want else s[child];
      assert kids[..i + 1][..i] == kids[..i];
      assert Share(s[changed := want], child) == ToRatio(b);
      AddOnWords(SumRatios(kids[..i], s[changed := want]), ToRatio(b));
      sum := Word(sum + ToRatio(b));
    }
    assert kids[..|kids|] == kids;
  }

  /** The check of one group, with the new setting standing in for the
      stored one of the group that is to be changed. */
  method TgRtSchedulable(t: Tree, s: seq<Bandwidth>, changed: nat, want: Bandwidth, limit: Bandwidth,
                         busy: seq<bool>, g: nat) returns (ret: int)
    requires AllSound(t, s) && Sound(limit) && Sound(want) && g < |s| == |busy| && changed < |s|
    ensures ret == Check(t, s[changed := want], limit, busy, g)
  {
    hide ToRatio, Word;
    ghost var s' := s[changed := want];
    var own := if g == changed then want else s[g];
    if own.runtime > own.period && own.runtime != RUNTIME_INF { return -EINVAL; }
    if limit.runtime != RUNTIME_INF && own.runtime == 0 && busy[g] { return -EBUSY; }
    var total := ToRatio(own);
    if total > ToRatio(limit) { return -EINVAL; }
    var sum := SumOfChildren(t.children[g], s, changed, want);
    if sum > total { return -EINVAL; }
    return 0;
  }

  // ---------- the walk over the whole tree

  function Visiting(t: Tree, s: seq<Bandwidth>, limit: Bandwidth, busy: seq<bool>): Visitor<()> {
    (g: nat, d: ()) => Visit(Check(t, s, limit, busy, g), ())
  }

  function Nop(): Visitor<()> {
    (g: nat, d: ()) => Visit(0, ())
  }

  /** Every group passes. */
  ghost predicate Schedulable(t: Tree, s: seq<Bandwidth>, limit: Bandwidth, busy: seq<bool>) {
    forall g :: 0 <= g < |s| ==> Check(t, s, limit, busy, g) == 0
  }

  lemma {:induction false} ReplayChecksAll(t: Tree, s: seq<Bandwidth>, limit: Bandwidth, busy: seq<bool>,
                                           tr: seq<Event>)
    ensures Replay(tr, Visiting(t, s, limit, busy), Nop(), ()).ret == 0
            <==> forall i :: 0 <= i < |tr| && tr[i].Down? ==> Check(t, s, limit, busy, tr[i].g) == 0
  {
    if tr != [] {
      ReplayChecksAll(t, s, limit, busy, tr[1..]);
      hide Check;
      assert forall i :: 0 < i < |tr| ==> tr[i] == tr[1..][i - 1];
      assert forall i :: 0 <= i < |tr| - 1 ==> tr[1..][i] == tr[i + 1];
    }
  }

  /** The walk answers 0 exactly when every group passes. */
  lemma WalkChecksAll(t: Tree, s: seq<Bandwidth>, limit: Bandwidth, busy: seq<bool>)
    requires Valid(t) && |s| == |t.parent|
    ensures Walk(t, 0, Visiting(t, s, limit, busy), Nop(), ()).ret == 0 <==> Schedulable(t, s, limit, busy)
  {
    var tr := Trace(t, 0);
    WalkIsReplay(t, 0, Visiting(t, s, limit, busy), Nop(), ());
    ReplayChecksAll(t, s, limit, busy, tr);
    TraceEnters(t, 0);
    TraceInTree(t, 0, 0);
    assert forall e :: e in tr ==> e.g < |t.parent|;
    forall x | 0 <= x < |t.parent| ensures Down(x) in tr { UnderRoot(t, x); }
    hide Check, Trace, Under, Valid;
    assert forall i :: 0 <= i < |tr| ==> tr[i] in tr;
    if Replay(tr, Visiting(t, s, limit, busy), Nop(), ()).ret == 0 {
      forall x | 0 <= x < |s| ensures Check(t, s, limit, busy, x) == 0 {
        var i :| 0 <= i < |tr| && tr[i] == Down(x);
      }
    }
  }

  // ---------- what acceptance means

  ghost predicate Sane(b: Bandwidth) {
    Sound(b) && (b.runtime <= b.period || b.runtime == RUNTIME_INF)
  }

  /** No group's children exceed it, and no group exceeds the whole. */
  ghost predicate Lawful(t: Tree, s: seq<Bandwidth>) {
    && AllSound(t, s)
    && (forall x :: 0 <= x < |s| ==> SumRatios(t.children[x], s) <= Share(s, x))
    && (forall x :: 0 <= x < |s| ==> Share(s, x) <= UNIT)
  }

  /** The part of the check of one group that does not depend on the global limit. */
  ghost predicate Passes(t: Tree, s: seq<Bandwidth>, x: nat)
    requires |s| == |t.children| && x < |s|
  {
    && (s[x].runtime <= s[x].period || s[x].runtime == RUNTIME_INF)
    && Word(SumRatios(t.children[x], s)) <= Share(s, x)
  }

  ghost predicate AllPass(t: Tree, s: seq<Bandwidth>)
    requires |s| == |t.children|
  {
    forall x :: 0 <= x < |s| ==> Passes(t, s, x)
  }

  /** The check of one group with a sum that cannot wrap. */
  ghost predicate Fits(t: Tree, s: seq<Bandwidth>, limit: Bandwidth, busy: seq<bool>, g: nat)
    requires |s| == |t.children| == |busy| && g < |s| && limit.period > 0
  {
    && (s[g].runtime <= s[g].period || s[g].runtime == RUNTIME_INF)
    && (limit.runtime != RUNTIME_INF && busy[g] ==> s[g].runtime != 0)
    && SumRatios(t.children[g], s) <= Share(s, g) <= ToRatio(limit)
  }

  ghost predicate AllFit(t: Tree, s: seq<Bandwidth>, limit: Bandwidth, busy: seq<bool>)
    requires |s| == |t.children| == |busy| && limit.period > 0
  {
    forall g :: 0 <= g < |s| ==> Fits(t, s, limit, busy, g)
  }

  lemma {:induction false} SumChanges(kids: seq<nat>, s: seq<Bandwidth>, g: nat, want: Bandwidth)
    requires g < |s| && forall i, j :: 0 <= i < j < |kids| ==> kids[i] != kids[j]
    ensures var s' := s[g := want];
            SumRatios(kids, s') == SumRatios(kids, s) + if g in kids then Share(s', g) - Share(s, g) else 0
  {
    hide ToRatio;
    if kids != [] {
      var n := |kids| - 1;
      SumChanges(kids[..n], s, g, want);
      assert kids == kids[..n] + [kids[n]];
    }
  }

  /** One change moves a sum of children by one share at most, so it stays far below a word. */
  lemma SumStaysSmall(t: Tree, s: seq<Bandwidth>, g: nat, want: Bandwidth, x: nat)
    requires Lawful(t, s) && g < |s| && x < |s| && Share(s[g := want], g) <= UNIT
    ensures SumRatios(t.children[x], s[g := want]) <= 2 * UNIT < ULONG
  {
    hide ToRatio, SumRatios, Share;
    SumChanges(t.children[x], s, g, want);
  }

  /** A change of one group that every group passes keeps the settings lawful, whatever the global limit is,
      however many children a group has and whatever the word size. */
  lemma PassedIsLawful(t: Tree, s: seq<Bandwidth>, g: nat, want: Bandwidth)
    requires Lawful(t, s) && g < |s| && Sound(want)
    requires AllPass(t, s[g := want])
    ensures Lawful(t, s[g := want])
  {
    var s' := s[g := want];
    hide ToRatio, SumRatios, Word;
    assert Passes(t, s', g);
    RatioAtMostUnit(want);
    forall x | 0 <= x < |s'| ensures SumRatios(t.children[x], s') <= Share(s', x) <= UNIT {
      assert Passes(t, s', x);
      SumStaysSmall(t, s, g, want, x);
      WordAtMost(SumRatios(t.children[x], s'));
      RatioAtMostUnit(s'[x]);
    }
  }

  /** From lawful settings the machine's verdict on a change is the exact one. */
  lemma VerdictIsExact(t: Tree, s: seq<Bandwidth>, g: nat, want: Bandwidth, limit: Bandwidth, busy: seq<bool>)
    requires Lawful(t, s) && g < |s| == |busy| && Sound(want) && Sound(limit)
    ensures var s' := s[g := want];
            Schedulable(t, s', limit, busy) <==> AllFit(t, s', limit, busy)
  {
    var s' := s[g := want];
    hide ToRatio, SumRatios, Word;
    if Schedulable(t, s', limit, busy) || AllFit(t, s', limit, busy) {
      assert Check(t, s', limit, busy, g) == 0 || Fits(t, s', limit, busy, g);
      RatioAtMostUnit(want);
      forall x | 0 <= x < |s'| ensures Check(t, s', limit, busy, x) == 0 <==> Fits(t, s', limit, busy, x) {
        SumStaysSmall(t, s, g, want, x);
        WordAtMost(SumRatios(t.children[x], s'));
      }
    }
  }

  /** A check that succeeds, against whatever limit, is passed. */
  lemma CheckedPasses(t: Tree, s: seq<Bandwidth>, limit: Bandwidth, busy: seq<bool>, x: nat)
    requires |s| == |t.children| == |busy| && x < |s| && limit.period > 0
    requires Check(t, s, limit, busy, x) == 0
    ensures Passes(t, s, x) && Share(s, x) <= ToRatio(limit)
  {
    hide ToRatio, SumRatios, Word;
  }

  /** The root group starts with the global bandwidth, every other group with none. */
  ghost predicate Initial(t: Tree, s: seq<Bandwidth>, limit: Bandwidth) {
    && Valid(t) && |s| == |t.parent| && Sane(limit)
    && forall g :: 0 <= g < |s| ==> s[g] == if g == 0 then limit else Bandwidth(limit.period, 0)
  }

  lemma {:induction false} NoShares(kids: seq<nat>, s: seq<Bandwidth>)
    requires forall i :: 0 <= i < |kids| ==> Share(s, kids[i]) == 0
    ensures SumRatios(kids, s) == 0
  {
    if kids != [] { NoShares(kids[..|kids| - 1], s); }
  }

  lemma InitialIsLawful(t: Tree, s: seq<Bandwidth>, limit: Bandwidth)
    requires Initial(t, s, limit)
    ensures Lawful(t, s) && forall x :: 0 <= x < |s| ==> Share(s, x) <= ToRatio(limit)
  {
    RatioAtMostUnit(limit);
    ShiftedAtMost(0);
    WordAtMost(0);
    assert ToRatio(Bandwidth(limit.period, 0)) == 0;
    hide ToRatio;
    forall x | 0 <= x < |s| ensures SumRatios(t.children[x], s) == 0 { NoShares(t.children[x], s); }
  }

  /** No group of `a` lies under another. */
  ghost predicate Antichain(t: Tree, a: set<nat>) {
    Valid(t) && (forall x :: x in a ==> x < |t.parent|)
    && forall x, y :: x in a && y in a && Under(t, x, y) ==> x == y
  }

  /** The shares of the groups in `a`, zero elsewhere. */
  ghost function Masked(s: seq<Bandwidth>, a: set<nat>): (r: seq<nat>)
    ensures |r| == |s| && forall x :: 0 <= x < |s| ==> r[x] == if x in a then Share(s, x) else 0
  {
    seq(|s|, x requires 0 <= x < |s| => if x in a then Share(s, x) else 0)
  }

  lemma {:induction false} TraceFits(t: Tree, s: seq<Bandwidth>, a: set<nat>, g: nat)
    requires AllSound(t, s) && Antichain(t, a) && g < |s|
    requires forall x :: 0 <= x < |s| ==> SumRatios(t.children[x], s) <= Share(s, x)
    ensures TraceSum(Masked(s, a), Trace(t, g)) <= Share(s, g)
    decreases |t.parent| - g, 1, 0
  {
    assert Trace(t, g)[1..] == TraceFrom(t, g, 0);
    if g in a {
      assert Under(t, g, g);
      NothingBelow(t, s, a, g, g, 0);
    } else {
      TraceFitsFrom(t, s, a, g, 0);
      assert t.children[g][..0] == [];
    }
  }

  lemma OneMoreShare(kids: seq<nat>, i: nat, s: seq<Bandwidth>)
    requires i < |kids|
    ensures SumRatios(kids[..i + 1], s) == SumRatios(kids[..i], s) + Share(s, kids[i])
  {
    assert kids[..i + 1][..i] == kids[..i];
  }

  lemma NoneLeft(t: Tree, s: seq<Bandwidth>, a: set<nat>, g: nat)
    requires AllSound(t, s) && g < |s|
    ensures TraceSum(Masked(s, a), TraceFrom(t, g, |t.children[g]|)) == 0
  {
  }

  lemma {:induction false} TraceFitsFrom(t: Tree, s: seq<Bandwidth>, a: set<nat>, g: nat, i: nat)
    requires AllSound(t, s) && Antichain(t, a) && g < |s| && i <= |t.children[g]|
    requires forall x :: 0 <= x < |s| ==> SumRatios(t.children[x], s) <= Share(s, x)
    ensures TraceSum(Masked(s, a), TraceFrom(t, g, i)) + SumRatios(t.children[g][..i], s) <= SumRatios(t.children[g], s)
    decreases |t.parent| - g, 0, |t.children[g]| - i
  {
    hide Share, Under, SumRatios, TraceSum, Trace;
    if i < |t.children[g]| {
      var c := t.children[g][i];
      TraceFits(t, s, a, c);
      TraceFitsFrom(t, s, a, g, i + 1);
      TraceSumConcat(Masked(s, a), Trace(t, c), TraceFrom(t, g, i + 1));
      OneMoreShare(t.children[g], i, s);
    } else {
      NoneLeft(t, s, a, g);
      assert t.children[g][..i] == t.children[g];
    }
  }

  /** Below a group of the antichain there is nothing more to add. */
  lemma {:induction false} NothingBelow(t: Tree, s: seq<Bandwidth>, a: set<nat>, top: nat, g: nat, i: nat)
    requires AllSound(t, s) && Antichain(t, a) && top in a && g < |s| && Under(t, top, g) && i <= |t.children[g]|
    ensures TraceSum(Masked(s, a), TraceFrom(t, g, i)) == 0
    decreases |t.parent| - g, |t.children[g]| - i
  {
    hide Share;
    if i < |t.children[g]| {
      var c := t.children[g][i];
      assert Under(t, top, c);
      UnderIsAbove(t, top, g);
      NothingBelow(t, s, a, top, c, 0);
      NothingBelow(t, s, a, top, g, i + 1);
      assert Trace(t, c)[1..] == TraceFrom(t, c, 0);
      TraceSumConcat(Masked(s, a), Trace(t, c), TraceFrom(t, g, i + 1));
    }
  }

  /** The shares of the groups of `a` numbered below `k`. */
  function SumIn(s: seq<Bandwidth>, a: set<nat>, k: nat): nat {
    if k == 0 then 0 else SumIn(s, a, k - 1) + if k - 1 in a then Share(s, k - 1) else 0
  }

  lemma {:induction false} SumInIsUnder(t: Tree, s: seq<Bandwidth>, a: set<nat>, g: nat, k: nat)
    requires AllSound(t, s) && k <= |s| && (forall x :: x in a ==> x < |s| && Under(t, g, x))
    ensures SumUnder(t, g, Masked(s, a), k) == SumIn(s, a, k)
  {
    if k > 0 { SumInIsUnder(t, s, a, g, k - 1); }
  }

  /** Under lawful settings, groups below `g` none of which lies under another have together no more than
      `g`'s share. */
  lemma LawfulMeansFair(t: Tree, s: seq<Bandwidth>, g: nat, a: set<nat>)
    requires Lawful(t, s) && g < |s|
    requires Antichain(t, a) && forall x :: x in a ==> Under(t, g, x)
    ensures SumIn(s, a, |s|) <= Share(s, g) <= UNIT
  {
    hide ToRatio, SumRatios;
    TraceFits(t, s, a, g);
    TraceSumIsSum(t, g, Masked(s, a));
    SumInIsUnder(t, s, a, g, |s|);
  }
}
