/** The per-order, per-migratetype free lists of a zone as values, and what linking, unlinking
    and moving a block does to them. */
module FreeLists {
  import opened Sequences
  import opened Bits
  import opened Buddy

  const UNMOVABLE: nat := 0
  const RECLAIMABLE: nat := 1
  const MOVABLE: nat := 2
  const PCP_TYPES: nat := 3
  const RESERVE: nat := 3
  const MIGRATE_TYPES: nat := 4

  /** One entry of `zone->free_area`. */
  datatype FreeArea = FreeArea(list: seq<seq<nat>>, nrFree: nat)

  type Areas = seq<FreeArea>

  /** `list_del`: unlink `s` from the list. */
  function Remove(l: seq<nat>, s: nat): seq<nat> {
    if l == [] then [] else if l[0] == s then l[1..] else [l[0]] + Remove(l[1..], s)
  }

  /** `list_del` does not know the list head: `s` leaves whichever list of the order holds it. */
  function Del(f: FreeArea, s: nat): FreeArea
    requires |f.list| == MIGRATE_TYPES
  {
    f.(list := [Remove(f.list[0], s), Remove(f.list[1], s), Remove(f.list[2], s), Remove(f.list[3], s)])
  }

  /** `list_add` or `list_add_tail`. */
  function Add(f: FreeArea, t: nat, s: nat, tail: bool): FreeArea
    requires t < |f.list|
  {
    f.(list := f.list[t := if tail then f.list[t] + [s] else [s] + f.list[t]])
  }

  function Total(f: FreeArea): nat
    requires |f.list| == MIGRATE_TYPES
  {
    |f.list[0]| + |f.list[1]| + |f.list[2]| + |f.list[3]|
  }

  predicate Sized(a: Areas) {
    |a| == MAX_ORDER && forall o :: 0 <= o < |a| ==> |a[o].list| == MIGRATE_TYPES
  }

  predicate Holds(a: Areas, o: nat, t: nat, s: nat)
    requires Sized(a) && o < MAX_ORDER && t < MIGRATE_TYPES
  {
    s in a[o].list[t]
  }

  /** The lists hold exactly the marked heads, each once, on the list of its recorded order and
      of the migratetype `home` says. */
  ghost predicate Linked(m: Blocks, home: map<nat, nat>, a: Areas) {
    && Sized(a)
    && home.Keys == m.Keys
    && (forall s :: s in m ==> m[s] < MAX_ORDER && home[s] < MIGRATE_TYPES)
    && (forall o: nat, t: nat, s :: o < MAX_ORDER && t < MIGRATE_TYPES ==>
          (Holds(a, o, t, s) <==> s in m && m[s] == o && home[s] == t))
    && (forall o: nat, t: nat :: o < MAX_ORDER && t < MIGRATE_TYPES ==> NoDup(a[o].list[t]))
  }

  ghost predicate Counted(a: Areas)
    requires Sized(a)
  {
    forall o :: 0 <= o < MAX_ORDER ==> a[o].nrFree == Total(a[o])
  }

  /** `nr_free << order`, summed over the orders below `k`. */
  function PagesBelow(a: Areas, k: nat): (n: nat)
    requires k <= |a|
  {
    if k == 0 then 0 else PagesBelow(a, k - 1) + a[k - 1].nrFree * Pow2(k - 1)
  }

  lemma {:induction false} RemoveElements(l: seq<nat>, s: nat)
    requires NoDup(l)
    ensures NoDup(Remove(l, s))
    ensures forall x :: x in Remove(l, s) <==> x in l && x != s
    ensures |Remove(l, s)| == if s in l then |l| - 1 else |l|
  {
    if l == [] {
    } else {
      var r := l[1..];
      assert l == [l[0]] + r;
      assert l[0] !in r;
      RemoveElements(r, s);
    }
  }

  lemma {:induction false} PagesBelowUpdate(a: Areas, o: nat, f: FreeArea, k: nat)
    requires o < |a| && k <= |a|
    ensures PagesBelow(a[o := f], k)
         == PagesBelow(a, k) + if o < k then f.nrFree * Pow2(o) - a[o].nrFree * Pow2(o) else 0
  {
    if k > 0 { PagesBelowUpdate(a, o, f, k - 1); }
  }

  lemma {:induction false} PagesBelowSame(a: Areas, b: Areas, k: nat)
    requires k <= |a| == |b| && forall o :: 0 <= o < |a| ==> a[o].nrFree == b[o].nrFree
    ensures PagesBelow(a, k) == PagesBelow(b, k)
  {
    if k > 0 { PagesBelowSame(a, b, k - 1); }
  }

  lemma OneMore(n: nat, p: nat)
    ensures (n + 1) * p == n * p + p
  {
  }

  /** Taking one block of order `o` off the count. */
  lemma PagesMinusOne(a: Areas, o: nat, f: FreeArea, k: nat)
    requires o < k <= |a| && a[o].nrFree == f.nrFree + 1
    ensures PagesBelow(a[o := f], k) == PagesBelow(a, k) - Pow2(o)
  {
    PagesBelowUpdate(a, o, f, k);
    OneMore(f.nrFree, Pow2(o));
  }

  /** Putting one block of order `o` on the count. */
  lemma PagesPlusOne(a: Areas, o: nat, f: FreeArea, k: nat)
    requires o < k <= |a| && f.nrFree == a[o].nrFree + 1
    ensures PagesBelow(a[o := f], k) == PagesBelow(a, k) + Pow2(o)
  {
    PagesBelowUpdate(a, o, f, k);
    OneMore(a[o].nrFree, Pow2(o));
  }

  lemma DelKeeps(m: Blocks, home: map<nat, nat>, a: Areas, s: nat)
    requires Linked(m, home, a) && s in m
    ensures Linked(m - {s}, home - {s}, a[m[s] := Del(a[m[s]], s)])
  {
    var o := m[s];
    var a' := a[o := Del(a[o], s)];
    forall t: nat | t < MIGRATE_TYPES
      ensures NoDup(a'[o].list[t])
      ensures forall x :: x in a'[o].list[t] <==> x in a[o].list[t] && x != s
    {
      RemoveElements(a[o].list[t], s);
    }
    forall o': nat, t: nat, x | o' < MAX_ORDER && t < MIGRATE_TYPES
      ensures Holds(a', o', t, x) <==> Holds(a, o', t, x) && x != s
    {
      assert o' != o && Holds(a, o', t, x) ==> x != s;
    }
  }

  lemma DelTotal(m: Blocks, home: map<nat, nat>, a: Areas, s: nat)
    requires Linked(m, home, a) && s in m
    ensures Total(Del(a[m[s]], s)) == Total(a[m[s]]) - 1
  {
    var f := a[m[s]];
    forall t: nat | t < MIGRATE_TYPES
      ensures |Remove(f.list[t], s)| == if t == home[s] then |f.list[t]| - 1 else |f.list[t]|
    {
      RemoveElements(f.list[t], s);
      assert Holds(a, m[s], t, s) <==> t == home[s];
    }
  }

  lemma AddKeeps(m: Blocks, home: map<nat, nat>, a: Areas, o: nat, t: nat, s: nat, tail: bool, n: nat)
    requires Linked(m, home, a) && s !in m && o < MAX_ORDER && t < MIGRATE_TYPES
    ensures Linked(m[s := o], home[s := t], a[o := Add(a[o], t, s, tail).(nrFree := n)])
  {
    hide NoDup;
    assert !Holds(a, o, t, s);
    var l := a[o].list[t];
    var l' := if tail then l + [s] else [s] + l;
    AddElement(l, s, tail);
    var a' := a[o := Add(a[o], t, s, tail).(nrFree := n)];
    forall o': nat, t': nat | o' < MAX_ORDER && t' < MIGRATE_TYPES
      ensures a'[o'].list[t'] == if o' == o && t' == t then l' else a[o'].list[t']
    {
    }
    forall o': nat, t': nat, x | o' < MAX_ORDER && t' < MIGRATE_TYPES
      ensures Holds(a', o', t', x) <==> Holds(a, o', t', x) || (o' == o && t' == t && x == s)
    {
    }
  }

  lemma AddElement(l: seq<nat>, s: nat, tail: bool)
    requires NoDup(l) && s !in l
    ensures var l' := if tail then l + [s] else [s] + l;
            NoDup(l') && forall x :: x in l' <==> x in l || x == s
  {
  }

  lemma AddTotal(f: FreeArea, t: nat, s: nat, tail: bool)
    requires |f.list| == MIGRATE_TYPES && t < MIGRATE_TYPES
    ensures Total(Add(f, t, s, tail)) == Total(f) + 1
  {
  }

  /** Counts name the lists: pages remain at some order in `[k, j)` only if a list there is not empty. */
  lemma {:induction false} PagesNeedABlock(a: Areas, k: nat, j: nat)
    requires Sized(a) && Counted(a) && k <= j <= MAX_ORDER
    requires PagesBelow(a, j) > PagesBelow(a, k)
    ensures exists o: nat, t: nat :: k <= o < j && t < MIGRATE_TYPES && a[o].list[t] != []
  {
    if j == k {
    } else if a[j - 1].nrFree > 0 {
      assert Total(a[j - 1]) > 0;
      assert a[j - 1].list[0] != [] || a[j - 1].list[1] != [] || a[j - 1].list[2] != [] || a[j - 1].list[3] != [];
    } else {
      PagesNeedABlock(a, k, j - 1);
    }
  }
}
