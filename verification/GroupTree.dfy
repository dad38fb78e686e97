/** The tree of task groups and its stackless traversal. */
module GroupTree {

  /** Groups are numbered in creation order, so a parent has a smaller number than its children; 0
      is the root. `slot[g]` is where `g`'s list node sits in its parent's list of children. */
  datatype Tree = Tree(parent: seq<int>, children: seq<seq<nat>>, slot: seq<nat>)

  ghost predicate Valid(t: Tree) {
    && |t.parent| == |t.children| == |t.slot|
    && |t.parent| > 0
    && t.parent[0] == -1
    && (forall g :: 0 < g < |t.parent| ==> 0 <= t.parent[g] < g)
    && (forall g :: 0 < g < |t.parent| ==> t.slot[g] < |t.children[t.parent[g]]|)
    && (forall g :: 0 < g < |t.parent| ==> t.children[t.parent[g]][t.slot[g]] == g)
    && (forall g, i :: 0 <= g < |t.parent| && 0 <= i < |t.children[g]| ==> g < t.children[g][i] < |t.parent|)
    && (forall g, i :: 0 <= g < |t.parent| && 0 <= i < |t.children[g]| ==> t.parent[t.children[g][i]] == g)
    && (forall g, i :: 0 <= g < |t.parent| && 0 <= i < |t.children[g]| ==> t.slot[t.children[g][i]] == i)
  }

  /** `x` is `g` or lies below it. */
  ghost predicate Under(t: Tree, g: nat, x: nat)
    requires Valid(t) && x < |t.parent|
    decreases x
  {
    x == g || (x > 0 && Under(t, g, t.parent[x]))
  }

  lemma {:induction false} UnderIsAbove(t: Tree, g: nat, x: nat)
    requires Valid(t) && x < |t.parent| && Under(t, g, x)
    ensures g <= x
    decreases x
  {
    if x != g { UnderIsAbove(t, g, t.parent[x]); }
  }

  lemma UnderOnlyAbove(t: Tree, g: nat, x: nat)
    requires Valid(t) && x < |t.parent|
    ensures Under(t, g, x) ==> g <= x
  {
    if Under(t, g, x) { UnderIsAbove(t, g, x); }
  }

  lemma {:induction false} UnderTrans(t: Tree, a: nat, b: nat, x: nat)
    requires Valid(t) && b < |t.parent| && x < |t.parent| && Under(t, a, b) && Under(t, b, x)
    ensures Under(t, a, x)
    decreases x
  {
    if x != b { UnderTrans(t, a, b, t.parent[x]); }
  }

  lemma {:induction false} UnderRoot(t: Tree, x: nat)
    requires Valid(t) && x < |t.parent|
    ensures Under(t, 0, x)
  {
    if x > 0 { UnderRoot(t, t.parent[x]); }
  }

  /** A proper descendant of `g` lies under exactly one of `g`'s children. */
  function Towards(t: Tree, g: nat, x: nat): (i: nat)
    requires Valid(t) && g < x < |t.parent| && Under(t, g, x)
    ensures i < |t.children[g]| && Under(t, t.children[g][i], x)
    decreases x
  {
    if t.parent[x] == g then t.slot[x] else
      UnderIsAbove(t, g, t.parent[x]);
      Towards(t, g, t.parent[x])
  }

  lemma {:induction false} ChildUnique(t: Tree, g: nat, i: nat, j: nat, x: nat)
    requires Valid(t) && g < |t.parent| && i < |t.children[g]| && j < |t.children[g]| && x < |t.parent|
    requires Under(t, t.children[g][i], x) && Under(t, t.children[g][j], x)
    ensures i == j
    decreases x
  {
    var a, b := t.children[g][i], t.children[g][j];
    UnderIsAbove(t, a, x);
    UnderIsAbove(t, b, x);
    if x == a {
      if x != b { UnderIsAbove(t, b, t.parent[x]); }
    } else if x == b {
      UnderIsAbove(t, a, t.parent[x]);
    } else {
      ChildUnique(t, g, i, j, t.parent[x]);
    }
  }

  // ---------- the recursive traversal

  /** What a visitor returns: its code, zero to go on, and the data it leaves. */
  datatype Visit<D> = Visit(ret: int, data: D)

  type Visitor<!D> = (nat, D) -> Visit<D>

  /** Down on `g`, then its children in list order, then up on `g`; the first non-zero code ends it. */
  function Walk<D>(t: Tree, g: nat, down: Visitor<D>, up: Visitor<D>, d: D): Visit<D>
    requires Valid(t) && g < |t.parent|
    decreases |t.parent| - g, 1, 0
  {
    var v := down(g, d);
    if v.ret != 0 then v else Finish(t, g, 0, down, up, v.data)
  }

  /** The rest of the visit of `g` once its first `i` children are done. */
  function Finish<D>(t: Tree, g: nat, i: nat, down: Visitor<D>, up: Visitor<D>, d: D): Visit<D>
    requires Valid(t) && g < |t.parent| && i <= |t.children[g]|
    decreases |t.parent| - g, 0, |t.children[g]| - i
  {
    if i == |t.children[g]| then up(g, d) else
      var v := Walk(t, t.children[g][i], down, up, d);
      if v.ret != 0 then v else Finish(t, g, i + 1, down, up, v.data)
  }

  // ---------- the loop

  /** What is still to come when the list loop of `g` stands at its `i`-th child. */
  ghost function Rest<D>(t: Tree, from: nat, g: nat, i: nat, down: Visitor<D>, up: Visitor<D>, d: D): Visit<D>
    requires Valid(t) && g < |t.parent| && i <= |t.children[g]| && Under(t, from, g)
    decreases g
  {
    var v := Finish(t, g, i, down, up, d);
    if v.ret != 0 || g == from then v else Rest(t, from, t.parent[g], t.slot[g] + 1, down, up, v.data)
  }

  /** Visitor calls left below `g` from its `i`-th child on, and the up call on `g`. */
  ghost function Calls(t: Tree, g: nat, i: nat): nat
    requires Valid(t) && g < |t.parent| && i <= |t.children[g]|
    decreases |t.parent| - g, |t.children[g]| - i
  {
    if i == |t.children[g]| then 1 else 1 + Calls(t, t.children[g][i], 0) + Calls(t, g, i + 1)
  }

  ghost function CallsLeft(t: Tree, from: nat, g: nat, i: nat): nat
    requires Valid(t) && g < |t.parent| && i <= |t.children[g]| && Under(t, from, g)
    decreases g
  {
    Calls(t, g, i) + if g == from then 0 else CallsLeft(t, from, t.parent[g], t.slot[g] + 1)
  }

  lemma StepDown<D>(t: Tree, from: nat, g: nat, i: nat, down: Visitor<D>, up: Visitor<D>, d: D)
    requires Valid(t) && g < |t.parent| && i < |t.children[g]| && Under(t, from, g)
    ensures Under(t, from, t.children[g][i]) && t.children[g][i] != from
    ensures var c := t.children[g][i]; var v := down(c, d);
            Rest(t, from, g, i, down, up, d) == if v.ret != 0 then v else Rest(t, from, c, 0, down, up, v.data)
    ensures CallsLeft(t, from, g, i) == CallsLeft(t, from, t.children[g][i], 0) + 1
  {
    UnderIsAbove(t, from, g);
    var c := t.children[g][i];
    var v := down(c, d);
    var w := Walk(t, c, down, up, d);
    assert w == if v.ret != 0 then v else Finish(t, c, 0, down, up, v.data);
    assert Finish(t, g, i, down, up, d) == if w.ret != 0 then w else Finish(t, g, i + 1, down, up, w.data);
    if v.ret == 0 && w.ret == 0 {
      assert Rest(t, from, c, 0, down, up, v.data) == Rest(t, from, g, i + 1, down, up, w.data);
    }
  }

  /** The loop of `walk_tg_tree_from`: no stack, the way back is found through `parent` and `slot`. */
  method WalkTgTreeFrom<D>(t: Tree, from: nat, down: Visitor<D>, up: Visitor<D>, d0: D) returns (v: Visit<D>)
    requires Valid(t) && from < |t.parent|
    ensures v == Walk(t, from, down, up, d0)
  {
    var g: nat := from;
    v := down(g, d0);
    if v.ret != 0 { return; }
    var i: nat := 0;
    while true
      invariant g < |t.parent| && i <= |t.children[g]| && Under(t, from, g)
      invariant v.ret == 0
      invariant Rest(t, from, g, i, down, up, v.data) == Walk(t, from, down, up, d0)
      decreases CallsLeft(t, from, g, i)
    {
      if i < |t.children[g]| {
        StepDown(t, from, g, i, down, up, v.data);
        g := t.children[g][i];
        v := down(g, v.data);
        if v.ret != 0 { return; }
        i := 0;
      } else {
        v := up(g, v.data);
        if v.ret != 0 || g == from { return; }
        i := t.slot[g] + 1;
        g := t.parent[g];
      }
    }
  }

  // ---------- the order of the calls

  datatype Event = Down(g: nat) | Up(g: nat)

  /** The calls of a walk that nothing stops. */
  function Trace(t: Tree, g: nat): (r: seq<Event>)
    requires Valid(t) && g < |t.parent|
    decreases |t.parent| - g, 1, 0
  {
    [Down(g)] + TraceFrom(t, g, 0)
  }

  function TraceFrom(t: Tree, g: nat, i: nat): (r: seq<Event>)
    requires Valid(t) && g < |t.parent| && i <= |t.children[g]|
    decreases |t.parent| - g, 0, |t.children[g]| - i
  {
    if i == |t.children[g]| then [Up(g)] else Trace(t, t.children[g][i]) + TraceFrom(t, g, i + 1)
  }

  /** Make the calls of a trace until one returns non-zero. */
  function Replay<D>(tr: seq<Event>, down: Visitor<D>, up: Visitor<D>, d: D): Visit<D> {
    if tr == [] then Visit(0, d) else
      var v := if tr[0].Down? then down(tr[0].g, d) else up(tr[0].g, d);
      if v.ret != 0 then v else Replay(tr[1..], down, up, v.data)
  }

  lemma {:induction false} ReplayConcat<D>(a: seq<Event>, b: seq<Event>, down: Visitor<D>, up: Visitor<D>, d: D)
    ensures var v := Replay(a, down, up, d);
            Replay(a + b, down, up, d) == if v.ret != 0 then v else Replay(b, down, up, v.data)
  {
    if a == [] {
      assert a + b == b;
    } else {
      assert (a + b)[1..] == a[1..] + b;
      var v := if a[0].Down? then down(a[0].g, d) else up(a[0].g, d);
      if v.ret == 0 { ReplayConcat(a[1..], b, down, up, v.data); }
    }
  }

  /** Whatever the visitors do, the walk makes the calls of the trace, up to the first non-zero code. */
  lemma {:induction false} WalkIsReplay<D>(t: Tree, g: nat, down: Visitor<D>, up: Visitor<D>, d: D)
    requires Valid(t) && g < |t.parent|
    ensures Walk(t, g, down, up, d) == Replay(Trace(t, g), down, up, d)
    decreases |t.parent| - g, 1, 0
  {
    assert Trace(t, g)[1..] == TraceFrom(t, g, 0);
    var v := down(g, d);
    if v.ret == 0 { FinishIsReplay(t, g, 0, down, up, v.data); }
  }

  lemma {:induction false} FinishIsReplay<D>(t: Tree, g: nat, i: nat, down: Visitor<D>, up: Visitor<D>, d: D)
    requires Valid(t) && g < |t.parent| && i <= |t.children[g]|
    ensures Finish(t, g, i, down, up, d) == Replay(TraceFrom(t, g, i), down, up, d)
    decreases |t.parent| - g, 0, |t.children[g]| - i
  {
    if i < |t.children[g]| {
      var c := t.children[g][i];
      WalkIsReplay(t, c, down, up, d);
      ReplayConcat(Trace(t, c), TraceFrom(t, g, i + 1), down, up, d);
      var v := Walk(t, c, down, up, d);
      if v.ret == 0 { FinishIsReplay(t, g, i + 1, down, up, v.data); }
    }
  }

  /** Every group of the subtree is entered once and left once, and no other group is visited. */
  lemma {:induction false} EachOnce(t: Tree, g: nat, x: nat)
    requires Valid(t) && g < |t.parent| && x < |t.parent|
    ensures multiset(Trace(t, g))[Down(x)] == if Under(t, g, x) then 1 else 0
    ensures multiset(Trace(t, g))[Up(x)] == if Under(t, g, x) then 1 else 0
    decreases |t.parent| - g, 1, 0
  {
    EachOnceFrom(t, g, 0, x);
    UnderSplits(t, g, x);
    var rest := TraceFrom(t, g, 0);
    assert Trace(t, g) == [Down(g)] + rest;
    hide TraceFrom, Trace, Under, UnderOneFrom;
    CountConcat([Down(g)], rest, Down(x));
    CountConcat([Down(g)], rest, Up(x));
  }

  /** What lies under a group is the group itself or lies under one of its children. */
  lemma UnderSplits(t: Tree, g: nat, x: nat)
    requires Valid(t) && g < |t.parent| && x < |t.parent|
    ensures UnderOneFrom(t, g, 0, x) <==> Under(t, g, x) && x != g
  {
    if Under(t, g, x) && x != g {
      UnderIsAbove(t, g, x);
      var i := Towards(t, g, x);
    }
    forall i | 0 <= i < |t.children[g]| && Under(t, t.children[g][i], x) ensures Under(t, g, x) && x != g {
      UnderTrans(t, g, t.children[g][i], x);
      UnderIsAbove(t, t.children[g][i], x);
    }
  }

  ghost predicate UnderOneFrom(t: Tree, g: nat, i: nat, x: nat)
    requires Valid(t) && g < |t.parent| && x < |t.parent|
  {
    exists j :: i <= j < |t.children[g]| && Under(t, t.children[g][j], x)
  }

  lemma OneFromSplit(t: Tree, g: nat, i: nat, x: nat)
    requires Valid(t) && g < |t.parent| && x < |t.parent| && i < |t.children[g]|
    ensures UnderOneFrom(t, g, i, x) == (Under(t, t.children[g][i], x) || UnderOneFrom(t, g, i + 1, x))
    ensures Under(t, t.children[g][i], x) ==> x != g && !UnderOneFrom(t, g, i + 1, x)
  {
    var c := t.children[g][i];
    if Under(t, c, x) {
      UnderIsAbove(t, c, x);
      forall j | i < j < |t.children[g]| ensures !Under(t, t.children[g][j], x) {
        if Under(t, t.children[g][j], x) { ChildUnique(t, g, i, j, x); }
      }
    }
  }

  lemma CountConcat(a: seq<Event>, b: seq<Event>, e: Event)
    ensures multiset(a + b)[e] == multiset(a)[e] + multiset(b)[e]
  {
  }

  lemma {:induction false} EachOnceFrom(t: Tree, g: nat, i: nat, x: nat)
    requires Valid(t) && g < |t.parent| && x < |t.parent| && i <= |t.children[g]|
    ensures multiset(TraceFrom(t, g, i))[Down(x)] == if UnderOneFrom(t, g, i, x) then 1 else 0
    ensures multiset(TraceFrom(t, g, i))[Up(x)] == if x == g || UnderOneFrom(t, g, i, x) then 1 else 0
    decreases |t.parent| - g, 0, |t.children[g]| - i
  {
    if i < |t.children[g]| {
      var c := t.children[g][i];
      OneFromSplit(t, g, i, x);
      EachOnce(t, c, x);
      EachOnceFrom(t, g, i + 1, x);
      var a, b := Trace(t, c), TraceFrom(t, g, i + 1);
      assert TraceFrom(t, g, i) == a + b;
      hide *;
      CountConcat(a, b, Down(x));
      CountConcat(a, b, Up(x));
    }
  }

  lemma {:induction false} TraceInTree(t: Tree, g: nat, i: nat)
    requires Valid(t) && g < |t.parent| && i <= |t.children[g]|
    ensures forall e :: e in TraceFrom(t, g, i) ==> e.g < |t.parent|
    decreases |t.parent| - g, |t.children[g]| - i
  {
    if i < |t.children[g]| {
      TraceInTree(t, t.children[g][i], 0);
      TraceInTree(t, g, i + 1);
    }
  }

  /** The visit of a descendant is one contiguous stretch strictly inside the visit of its ancestor:
      down on the ancestor comes before everything below it, up on it after. */
  lemma {:induction false} Nested(t: Tree, g: nat, x: nat) returns (before: seq<Event>, after: seq<Event>)
    requires Valid(t) && g < |t.parent| && x < |t.parent| && Under(t, g, x)
    ensures Trace(t, g) == before + Trace(t, x) + after
    ensures x != g ==> |before| > 0 && before[0] == Down(g)
    ensures x != g ==> |after| > 0 && after[|after| - 1] == Up(g)
    decreases |t.parent| - g
  {
    if x == g {
      before, after := [], [];
    } else {
      UnderIsAbove(t, g, x);
      var i := Towards(t, g, x);
      var c := t.children[g][i];
      var a1, b1 := Nested(t, c, x);
      var a2, b2 := StretchOf(t, g, 0, i);
      before, after := [Down(g)] + a2 + a1, b1 + b2;
      hide *;
      var n := Trace(t, x);
      assert [Down(g)] + (a2 + (a1 + n + b1) + b2) == before + n + after;
    }
  }

  lemma {:induction false} StretchOf(t: Tree, g: nat, i: nat, j: nat)
      returns (before: seq<Event>, after: seq<Event>)
    requires Valid(t) && g < |t.parent| && i <= j < |t.children[g]|
    ensures TraceFrom(t, g, i) == before + Trace(t, t.children[g][j]) + after
    ensures |after| > 0 && after[|after| - 1] == Up(g)
    decreases j - i
  {
    if i == j {
      before, after := [], TraceFrom(t, g, i + 1);
      EndsWithUp(t, g, i + 1);
    } else {
      var first := Trace(t, t.children[g][i]);
      before, after := StretchOf(t, g, i + 1, j);
      var n := Trace(t, t.children[g][j]);
      assert first + (before + n + after) == first + before + n + after;
      before := first + before;
    }
  }

  lemma {:induction false} EndsWithUp(t: Tree, g: nat, i: nat)
    requires Valid(t) && g < |t.parent| && i <= |t.children[g]|
    ensures var r := TraceFrom(t, g, i); |r| > 0 && r[|r| - 1] == Up(g)
    decreases |t.children[g]| - i
  {
    if i < |t.children[g]| { EndsWithUp(t, g, i + 1); }
  }

  // ---------- sums over a subtree

  /** The weights of the groups a trace enters. */
  function TraceSum(w: seq<nat>, tr: seq<Event>): nat {
    if tr == [] then 0 else (if tr[0].Down? && tr[0].g < |w| then w[tr[0].g] else 0) + TraceSum(w, tr[1..])
  }

  lemma {:induction false} TraceSumConcat(w: seq<nat>, a: seq<Event>, b: seq<Event>)
    ensures TraceSum(w, a + b) == TraceSum(w, a) + TraceSum(w, b)
  {
    if a == [] {
      assert a + b == b;
    } else {
      assert (a + b)[1..] == a[1..] + b;
      TraceSumConcat(w, a[1..], b);
    }
  }

  /** The weights of the groups numbered below `k` that a trace enters, each once. */
  function EnteredSum(w: seq<nat>, tr: seq<Event>, k: nat): nat
    requires k <= |w|
  {
    if k == 0 then 0 else EnteredSum(w, tr, k - 1) + if Down(k - 1) in tr then w[k - 1] else 0
  }

  lemma {:induction false} EnteredFirst(w: seq<nat>, tr: seq<Event>, k: nat)
    requires k <= |w| && tr != [] && (tr[0].Down? ==> tr[0] !in tr[1..])
    ensures EnteredSum(w, tr, k) == EnteredSum(w, tr[1..], k) + if tr[0].Down? && tr[0].g < k then w[tr[0].g] else 0
  {
    if k > 0 { EnteredFirst(w, tr, k - 1); }
  }

  lemma {:induction false} NothingEntered(w: seq<nat>, k: nat)
    requires k <= |w|
    ensures EnteredSum(w, [], k) == 0
  {
    if k > 0 { NothingEntered(w, k - 1); }
  }

  ghost predicate EntersOnce(tr: seq<Event>) {
    forall i, j :: 0 <= i < j < |tr| && tr[i].Down? ==> tr[i] != tr[j]
  }

  lemma {:induction false} TraceSumIsEntered(w: seq<nat>, tr: seq<Event>)
    requires EntersOnce(tr)
    ensures TraceSum(w, tr) == EnteredSum(w, tr, |w|)
  {
    if tr == [] {
      NothingEntered(w, |w|);
    } else {
      TraceSumIsEntered(w, tr[1..]);
      EnteredFirst(w, tr, |w|);
    }
  }

  lemma Occurrences(tr: seq<Event>, i: nat, j: nat)
    requires i < j < |tr| && tr[i] == tr[j]
    ensures multiset(tr)[tr[i]] >= 2
  {
    assert tr == tr[..j] + [tr[j]] + tr[j + 1..];
    assert tr[..j][i] == tr[i];
  }

  lemma TraceEnters(t: Tree, g: nat)
    requires Valid(t) && g < |t.parent|
    ensures EntersOnce(Trace(t, g))
    ensures forall x :: 0 <= x < |t.parent| ==> (Down(x) in Trace(t, g) <==> Under(t, g, x))
  {
    var tr := Trace(t, g);
    forall x | 0 <= x < |t.parent|
      ensures (Down(x) in tr <==> Under(t, g, x)) && multiset(tr)[Down(x)] <= 1
    {
      EachOnce(t, g, x);
      assert Down(x) in tr <==> Down(x) in multiset(tr);
    }
    TraceInTree(t, g, 0);
    assert forall e :: e in tr ==> e.g < |t.parent|;
    hide Under, Trace, Valid;
    forall i, j | 0 <= i < j < |tr| && tr[i].Down? ensures tr[i] != tr[j] {
      if tr[i] == tr[j] { Occurrences(tr, i, j); }
    }
  }

  /** The weights of the groups numbered below `k` that lie under `g`. */
  ghost function SumUnder(t: Tree, g: nat, w: seq<nat>, k: nat): nat
    requires Valid(t) && k <= |w| == |t.parent|
  {
    if k == 0 then 0 else SumUnder(t, g, w, k - 1) + if Under(t, g, k - 1) then w[k - 1] else 0
  }

  lemma {:induction false} EnteredIsUnder(t: Tree, g: nat, w: seq<nat>, tr: seq<Event>, k: nat)
    requires Valid(t) && k <= |w| == |t.parent|
    requires forall x :: 0 <= x < |t.parent| ==> (Down(x) in tr <==> Under(t, g, x))
    ensures EnteredSum(w, tr, k) == SumUnder(t, g, w, k)
  {
    if k > 0 { EnteredIsUnder(t, g, w, tr, k - 1); }
  }

  /** What a walk adds up is the plain sum over the subtree. */
  lemma TraceSumIsSum(t: Tree, g: nat, w: seq<nat>)
    requires Valid(t) && g < |t.parent| == |w|
    ensures TraceSum(w, Trace(t, g)) == SumUnder(t, g, w, |w|)
  {
    TraceEnters(t, g);
    TraceSumIsEntered(w, Trace(t, g));
    EnteredIsUnder(t, g, w, Trace(t, g), |w|);
  }
}
