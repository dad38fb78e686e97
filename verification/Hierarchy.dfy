/** The fair run queues of one CPU, one per task group, and the counts that enqueueing, dequeueing,
    throttling and unthrottling carry up the group tree. */
module Hierarchy {
  import opened GroupTree
  import opened Sequences

  /** A group's queue together with the group's own entity: `nr` is nr_running, `h` is
      h_nr_running, `onRq` says that the group's entity sits on its parent's queue. */
  datatype Queue = Queue(tasks: set<nat>, nr: int, h: int, throttled: bool, onRq: bool)

  function On(x: Queue): nat {
    if x.onRq then 1 else 0
  }

  function Share(x: Queue): int {
    if x.onRq then x.h else 0
  }

  ghost predicate Within(kids: seq<nat>, q: seq<Queue>) {
    forall i :: 0 <= i < |kids| ==> kids[i] < |q|
  }

  function CountOn(kids: seq<nat>, q: seq<Queue>): nat
    requires Within(kids, q)
  {
    if kids == [] then 0 else On(q[kids[0]]) + CountOn(kids[1..], q)
  }

  function SumOn(kids: seq<nat>, q: seq<Queue>): int
    requires Within(kids, q)
  {
    if kids == [] then 0 else Share(q[kids[0]]) + SumOn(kids[1..], q)
  }

  ghost predicate Shaped(t: Tree, q: seq<Queue>) {
    Valid(t) && |q| == |t.parent| && (forall x :: 0 <= x < |q| ==> Within(t.children[x], q))
  }

  /** The counts of queue `x` are those of its tasks and of the groups on it, except that the
      hierarchical count of queue `i` is off by `d`. */
  ghost predicate Tally(t: Tree, q: seq<Queue>, x: nat, i: int, d: int)
    requires Shaped(t, q) && x < |q|
  {
    && q[x].nr == |q[x].tasks| + CountOn(t.children[x], q)
    && q[x].h == |q[x].tasks| + SumOn(t.children[x], q) + if x == i then d else 0
  }

  ghost predicate Tallies(t: Tree, q: seq<Queue>, i: int, d: int) {
    Shaped(t, q) && forall x :: 0 <= x < |q| ==> Tally(t, q, x, i, d)
  }

  ghost predicate Seated(x: Queue) {
    x.onRq == (!x.throttled && x.nr > 0)
  }

  ghost predicate SeatedBut(q: seq<Queue>, e: int, i: int) {
    forall x :: 0 < x < |q| && x != e && x != i ==> Seated(q[x])
  }

  /** The CPU's nr_running is the root's count, and the root has no entity and is never throttled. */
  ghost predicate Rooted(q: seq<Queue>, nrRunning: int) {
    |q| > 0 && nrRunning == q[0].h && !q[0].throttled && !q[0].onRq
  }

  /** Everything in balance, except the seat of `e` while it is being throttled. */
  ghost predicate BalancedBut(t: Tree, q: seq<Queue>, nrRunning: int, e: int) {
    Tallies(t, q, -1, 0) && SeatedBut(q, e, -1) && Rooted(q, nrRunning)
  }

  /** What every operation keeps. */
  ghost predicate Balanced(t: Tree, q: seq<Queue>, nrRunning: int) {
    BalancedBut(t, q, nrRunning, -1)
  }

  // ---------- one queue changes

  lemma {:induction false} CountElsewhere(kids: seq<nat>, q: seq<Queue>, c: nat, y: Queue)
    requires Within(kids, q) && c < |q| && c !in kids
    ensures CountOn(kids, q[c := y]) == CountOn(kids, q) && SumOn(kids, q[c := y]) == SumOn(kids, q)
  {
    if kids != [] { CountElsewhere(kids[1..], q, c, y); }
  }

  lemma {:induction false} CountHere(kids: seq<nat>, q: seq<Queue>, c: nat, y: Queue)
    requires Within(kids, q) && c < |q| && c in kids && NoDup(kids)
    ensures CountOn(kids, q[c := y]) == CountOn(kids, q) + On(y) - On(q[c])
    ensures SumOn(kids, q[c := y]) == SumOn(kids, q) + Share(y) - Share(q[c])
  {
    if kids[0] == c { CountElsewhere(kids[1..], q, c, y); } else { CountHere(kids[1..], q, c, y); }
  }

  /** Changing one queue moves only its parent's sums. */
  lemma Change(t: Tree, q: seq<Queue>, c: nat, y: Queue)
    requires Shaped(t, q) && c < |q|
    ensures Shaped(t, q[c := y])
    ensures forall x :: 0 <= x < |q| ==>
              CountOn(t.children[x], q[c := y])
              == CountOn(t.children[x], q) + if x == t.parent[c] then On(y) - On(q[c]) else 0
    ensures forall x :: 0 <= x < |q| ==>
              SumOn(t.children[x], q[c := y])
              == SumOn(t.children[x], q) + if x == t.parent[c] then Share(y) - Share(q[c]) else 0
  {
    forall x | 0 <= x < |q|
      ensures CountOn(t.children[x], q[c := y])
              == CountOn(t.children[x], q) + if x == t.parent[c] then On(y) - On(q[c]) else 0
      ensures SumOn(t.children[x], q[c := y])
              == SumOn(t.children[x], q) + if x == t.parent[c] then Share(y) - Share(q[c]) else 0
    {
      if x == t.parent[c] {
        CountHere(t.children[x], q, c, y);
      } else {
        CountElsewhere(t.children[x], q, c, y);
      }
    }
  }

  lemma {:induction false} OneOnCounts(kids: seq<nat>, q: seq<Queue>, i: nat)
    requires Within(kids, q) && i < |kids| && q[kids[i]].onRq
    ensures CountOn(kids, q) > 0
  {
    if i > 0 { OneOnCounts(kids[1..], q, i - 1); }
  }

  lemma {:induction false} NoneOnNoSum(kids: seq<nat>, q: seq<Queue>)
    requires Within(kids, q) && CountOn(kids, q) == 0
    ensures SumOn(kids, q) == 0
  {
    if kids != [] { NoneOnNoSum(kids[1..], q); }
  }

  /** An empty queue has nothing in its hierarchical count either. */
  lemma EmptyHasNoTasks(t: Tree, q: seq<Queue>, x: nat, i: int, d: int)
    requires Tallies(t, q, i, d) && x < |q| && (x != i || d == 0) && q[x].nr == 0
    ensures q[x].h == 0
  {
    assert Tally(t, q, x, i, d);
    NoneOnNoSum(t.children[x], q);
  }

  /** A queue with a group on it is not empty. */
  lemma ParentNotEmpty(t: Tree, q: seq<Queue>, c: nat, i: int, d: int)
    requires Tallies(t, q, i, d) && 0 < c < |q| && q[c].onRq
    ensures q[t.parent[c]].nr > 0
  {
    assert Tally(t, q, t.parent[c], i, d);
    OneOnCounts(t.children[t.parent[c]], q, t.slot[c]);
  }

  // ---------- the updates

  function AddH(q: seq<Queue>, x: nat, delta: int): seq<Queue>
    requires x < |q|
  {
    q[x := q[x].(h := q[x].h + delta)]
  }

  /** `account_entity_enqueue` for a task and for a group's entity. */
  function TaskIn(q: seq<Queue>, g: nat, p: nat): seq<Queue>
    requires g < |q|
  {
    q[g := q[g].(tasks := q[g].tasks + {p}, nr := q[g].nr + 1)]
  }

  function GroupIn(q: seq<Queue>, c: nat, up: nat): seq<Queue>
    requires c < |q| && up < |q|
  {
    var q1 := q[c := q[c].(onRq := true)];
    q1[up := q1[up].(nr := q1[up].nr + 1)]
  }

  /** `account_entity_dequeue`. */
  function TaskOut(q: seq<Queue>, g: nat, p: nat): seq<Queue>
    requires g < |q|
  {
    q[g := q[g].(tasks := q[g].tasks - {p}, nr := q[g].nr - 1)]
  }

  function GroupOut(q: seq<Queue>, c: nat, up: nat): seq<Queue>
    requires c < |q| && up < |q|
  {
    var q1 := q[c := q[c].(onRq := false)];
    q1[up := q1[up].(nr := q1[up].nr - 1)]
  }

  /** Settling a queue's count passes the difference on to the parent, if the group is on it. */
  lemma AddHTallies(t: Tree, q: seq<Queue>, x: nat, delta: int)
    requires Tallies(t, q, x, -delta) && x < |q|
    ensures Tallies(t, AddH(q, x, delta), t.parent[x], if q[x].onRq then -delta else 0)
  {
    var q' := AddH(q, x, delta);
    Change(t, q, x, q'[x]);
    hide CountOn, SumOn, Valid;
    var d := if q[x].onRq then -delta else 0;
    forall y | 0 <= y < |q| ensures Tally(t, q', y, t.parent[x], d) {
      assert Tally(t, q, y, x, -delta);
    }
  }

  lemma TaskInTallies(t: Tree, q: seq<Queue>, g: nat, p: nat)
    requires Tallies(t, q, -1, 0) && g < |q| && p !in q[g].tasks
    ensures Tallies(t, TaskIn(q, g, p), g, -1)
  {
    var q' := TaskIn(q, g, p);
    Change(t, q, g, q'[g]);
    hide CountOn, SumOn, Valid;
    forall y | 0 <= y < |q| ensures Tally(t, q', y, g, -1) {
      assert Tally(t, q, y, -1, 0);
    }
  }

  lemma TaskOutTallies(t: Tree, q: seq<Queue>, g: nat, p: nat)
    requires Tallies(t, q, -1, 0) && g < |q| && p in q[g].tasks
    ensures Tallies(t, TaskOut(q, g, p), g, 1)
  {
    var q' := TaskOut(q, g, p);
    Change(t, q, g, q'[g]);
    hide CountOn, SumOn, Valid;
    forall y | 0 <= y < |q| ensures Tally(t, q', y, g, 1) {
      assert Tally(t, q, y, -1, 0);
    }
  }

  lemma GroupInTallies(t: Tree, q: seq<Queue>, c: nat, d: int)
    requires 0 < c < |q| && Shaped(t, q) && Tallies(t, q, t.parent[c], d) && !q[c].onRq
    ensures Tallies(t, GroupIn(q, c, t.parent[c]), t.parent[c], d - q[c].h)
  {
    var q1 := q[c := q[c].(onRq := true)];
    var up := t.parent[c];
    var q' := GroupIn(q, c, up);
    Change(t, q, c, q1[c]);
    Change(t, q1, up, q'[up]);
    hide CountOn, SumOn, Valid;
    var d' := d - q[c].h;
    forall y | 0 <= y < |q| ensures Tally(t, q', y, up, d') {
      assert Tally(t, q, y, up, d);
    }
  }

  lemma GroupOutTallies(t: Tree, q: seq<Queue>, c: nat, d: int)
    requires 0 < c < |q| && Shaped(t, q) && Tallies(t, q, t.parent[c], d) && q[c].onRq
    ensures Tallies(t, GroupOut(q, c, t.parent[c]), t.parent[c], d + q[c].h)
  {
    var q1 := q[c := q[c].(onRq := false)];
    var up := t.parent[c];
    var q' := GroupOut(q, c, up);
    Change(t, q, c, q1[c]);
    Change(t, q1, up, q'[up]);
    hide CountOn, SumOn, Valid;
    var d' := d + q[c].h;
    forall y | 0 <= y < |q| ensures Tally(t, q', y, up, d') {
      assert Tally(t, q, y, up, d);
    }
  }

  /** The throttled flag is no part of the sums. */
  lemma FlagTallies(t: Tree, q: seq<Queue>, g: nat, b: bool, i: int, d: int)
    requires Tallies(t, q, i, d) && g < |q|
    ensures Tallies(t, q[g := q[g].(throttled := b)], i, d)
  {
    var q' := q[g := q[g].(throttled := b)];
    Change(t, q, g, q'[g]);
    hide CountOn, SumOn, Valid;
    forall y | 0 <= y < |q| ensures Tally(t, q', y, i, d) {
      assert Tally(t, q, y, i, d);
    }
  }

  // ---------- throttle counts

  /** How many of `x` and its ancestors are throttled. */
  function Above(t: Tree, q: seq<Queue>, x: nat): nat
    requires Valid(t) && |q| == |t.parent| && x < |q|
    decreases x
  {
    (if q[x].throttled then 1 else 0) + if x == 0 then 0 else Above(t, q, t.parent[x])
  }

  ghost predicate Counted(t: Tree, q: seq<Queue>, tc: seq<int>) {
    Valid(t) && |q| == |t.parent| == |tc| && forall x :: 0 <= x < |q| ==> tc[x] == Above(t, q, x)
  }

  ghost predicate SameFlags(q: seq<Queue>, r: seq<Queue>) {
    |q| == |r| && forall x :: 0 <= x < |q| ==> q[x].throttled == r[x].throttled
  }

  lemma {:induction false} SameAbove(t: Tree, q: seq<Queue>, r: seq<Queue>, x: nat)
    requires Valid(t) && |q| == |t.parent| && SameFlags(q, r) && x < |q|
    ensures Above(t, q, x) == Above(t, r, x)
    decreases x
  {
    if x > 0 { SameAbove(t, q, r, t.parent[x]); }
  }

  lemma SameCounted(t: Tree, q: seq<Queue>, r: seq<Queue>, tc: seq<int>)
    requires Counted(t, q, tc) && SameFlags(q, r)
    ensures Counted(t, r, tc)
  {
    forall x | 0 <= x < |q| ensures tc[x] == Above(t, r, x) { SameAbove(t, q, r, x); }
  }

  lemma {:induction false} FlagAbove(t: Tree, q: seq<Queue>, g: nat, b: bool, x: nat)
    requires Valid(t) && |q| == |t.parent| && g < |q| && x < |q| && q[g].throttled != b
    ensures Above(t, q[g := q[g].(throttled := b)], x)
            == Above(t, q, x) + if !Under(t, g, x) then 0 else if b then 1 else -1
    decreases x
  {
    if x > 0 {
      FlagAbove(t, q, g, b, t.parent[x]);
      if x == g && Under(t, g, t.parent[x]) { UnderIsAbove(t, g, t.parent[x]); }
    }
  }

  function Nop(g: nat, tc: seq<int>): Visit<seq<int>> {
    Visit(0, tc)
  }

  /** `tg_throttle_down` and `tg_unthrottle_up`, as far as throttle_count goes. */
  function ThrottleDown(g: nat, tc: seq<int>): Visit<seq<int>> {
    Visit(0, if g < |tc| then tc[g := tc[g] + 1] else tc)
  }

  function UnthrottleUp(g: nat, tc: seq<int>): Visit<seq<int>> {
    Visit(0, if g < |tc| then tc[g := tc[g] - 1] else tc)
  }

  lemma CountFirst(tr: seq<Event>, e: Event)
    requires tr != []
    ensures multiset(tr)[e] == multiset(tr[1..])[e] + if tr[0] == e then 1 else 0
  {
    assert tr == [tr[0]] + tr[1..];
  }

  lemma {:induction false} BumpDown(tr: seq<Event>, tc: seq<int>, x: nat)
    requires x < |tc|
    ensures var v := Replay(tr, ThrottleDown, Nop, tc);
            v.ret == 0 && |v.data| == |tc| && v.data[x] == tc[x] + multiset(tr)[Down(x)]
  {
    if tr != [] {
      var v := if tr[0].Down? then ThrottleDown(tr[0].g, tc) else Nop(tr[0].g, tc);
      BumpDown(tr[1..], v.data, x);
      CountFirst(tr, Down(x));
    }
  }

  lemma {:induction false} BumpUp(tr: seq<Event>, tc: seq<int>, x: nat)
    requires x < |tc|
    ensures var v := Replay(tr, Nop, UnthrottleUp, tc);
            v.ret == 0 && |v.data| == |tc| && v.data[x] == tc[x] - multiset(tr)[Up(x)]
  {
    if tr != [] {
      var v := if tr[0].Down? then Nop(tr[0].g, tc) else UnthrottleUp(tr[0].g, tc);
      BumpUp(tr[1..], v.data, x);
      CountFirst(tr, Up(x));
    }
  }

  /** The walk of `throttle_cfs_rq` brings the counts in line with the flag that is about to be set. */
  lemma ThrottleWalk(t: Tree, q: seq<Queue>, g: nat, tc: seq<int>)
    requires Counted(t, q, tc) && g < |q| && !q[g].throttled
    ensures Counted(t, q[g := q[g].(throttled := true)], Walk(t, g, ThrottleDown, Nop, tc).data)
  {
    WalkIsReplay(t, g, ThrottleDown, Nop, tc);
    BumpDown(Trace(t, g), tc, 0);
    forall x | 0 <= x < |q|
      ensures Walk(t, g, ThrottleDown, Nop, tc).data[x] == Above(t, q[g := q[g].(throttled := true)], x)
    {
      BumpDown(Trace(t, g), tc, x);
      EachOnce(t, g, x);
      FlagAbove(t, q, g, true, x);
    }
  }

  lemma UnthrottleWalk(t: Tree, q: seq<Queue>, g: nat, tc: seq<int>)
    requires Counted(t, q, tc) && g < |q| && q[g].throttled
    ensures Counted(t, q[g := q[g].(throttled := false)], Walk(t, g, Nop, UnthrottleUp, tc).data)
  {
    WalkIsReplay(t, g, Nop, UnthrottleUp, tc);
    BumpUp(Trace(t, g), tc, 0);
    forall x | 0 <= x < |q|
      ensures Walk(t, g, Nop, UnthrottleUp, tc).data[x] == Above(t, q[g := q[g].(throttled := false)], x)
    {
      BumpUp(Trace(t, g), tc, x);
      EachOnce(t, g, x);
      FlagAbove(t, q, g, false, x);
    }
  }

  // ---------- on the way up the tree

  lemma NothingOff(t: Tree, q: seq<Queue>, i: int, j: int)
    requires Tallies(t, q, i, 0)
    ensures Tallies(t, q, j, 0)
  {
    forall x | 0 <= x < |q| ensures Tally(t, q, x, j, 0) {
      assert Tally(t, q, x, i, 0);
      hide CountOn, SumOn, Valid;
    }
  }

  lemma NotNegative(t: Tree, q: seq<Queue>, x: nat, i: int, d: int)
    requires Tallies(t, q, i, d) && x < |q|
    ensures q[x].nr >= 0
  {
    assert Tally(t, q, x, i, d);
  }

  /** Queue `i` is the one place still to be corrected, by `delta`. */
  ghost predicate Adding(t: Tree, q: seq<Queue>, nrRunning: int, i: nat, delta: int, e: int) {
    && i < |q| && (e == -1 || e > i)
    && Tallies(t, q, i, -delta) && SeatedBut(q, e, -1) && Rooted(q, nrRunning)
    && (q[i].throttled || q[i].nr > 0)
  }

  lemma AddingStep(t: Tree, q: seq<Queue>, nrRunning: int, i: nat, delta: int, e: int)
    requires Adding(t, q, nrRunning, i, delta, e)
    ensures var q' := AddH(q, i, delta);
            if q[i].throttled then BalancedBut(t, q', nrRunning, e)
            else if i == 0 then BalancedBut(t, q', nrRunning + delta, e)
            else Adding(t, q', nrRunning, t.parent[i], delta, e)
  {
    AddHTallies(t, q, i, delta);
    var q' := AddH(q, i, delta);
    if i > 0 {
      assert Seated(q[i]);
      if q[i].throttled {
        NothingOff(t, q', t.parent[i], -1);
      } else {
        ParentNotEmpty(t, q', i, t.parent[i], -delta);
      }
    }
    hide Tally, CountOn, SumOn;
  }

  /** An entity has just left queue `i`, whose count is to come down by `delta`; the seat of `i` is
      still the one it had with that entity. */
  ghost predicate Fallen(t: Tree, q: seq<Queue>, nrRunning: int, i: nat, delta: int, e: int) {
    && i < |q| && (e == -1 || e > i)
    && Tallies(t, q, i, delta) && SeatedBut(q, e, i) && Rooted(q, nrRunning)
    && (i > 0 ==> q[i].onRq == !q[i].throttled)
  }

  /** Group `c` has become empty and its entity is still queued. */
  ghost predicate Sinking(t: Tree, q: seq<Queue>, nrRunning: int, c: nat, delta: int, e: int) {
    && 0 < c < |q| && (e == -1 || e > c) && Shaped(t, q)
    && Tallies(t, q, t.parent[c], delta) && SeatedBut(q, e, c) && Rooted(q, nrRunning)
    && q[c].onRq && q[c].nr == 0 && q[c].h == 0
  }

  lemma FallenStep(t: Tree, q: seq<Queue>, nrRunning: int, i: nat, delta: int, e: int)
    requires Fallen(t, q, nrRunning, i, delta, e)
    ensures var q' := AddH(q, i, -delta);
            if i == 0 then BalancedBut(t, q', nrRunning - delta, e)
            else if q[i].throttled then BalancedBut(t, q', nrRunning, e)
            else if q[i].nr > 0 then Adding(t, q', nrRunning, t.parent[i], -delta, e)
            else Sinking(t, q', nrRunning, i, delta, e)
  {
    AddHTallies(t, q, i, -delta);
    var q' := AddH(q, i, -delta);
    if i > 0 {
      if q[i].throttled {
        NothingOff(t, q', t.parent[i], -1);
      } else {
        NotNegative(t, q, i, i, delta);
        ParentNotEmpty(t, q', i, t.parent[i], delta);
        if q[i].nr == 0 { EmptyHasNoTasks(t, q', i, t.parent[i], delta); }
      }
    }
    hide Tally, CountOn, SumOn;
  }

  lemma SinkingStep(t: Tree, q: seq<Queue>, nrRunning: int, c: nat, delta: int, e: int)
    requires Sinking(t, q, nrRunning, c, delta, e)
    ensures Fallen(t, GroupOut(q, c, t.parent[c]), nrRunning, t.parent[c], delta, e)
  {
    GroupOutTallies(t, q, c, delta);
    ParentNotEmpty(t, q, c, t.parent[c], delta);
    hide Tally, CountOn, SumOn;
  }

  /** The entity of the group that is being throttled leaves. */
  lemma ThrottledOut(t: Tree, q: seq<Queue>, nrRunning: int, g: nat)
    requires 0 < g < |q| && Balanced(t, q, nrRunning) && q[g].onRq
    ensures Fallen(t, GroupOut(q, g, t.parent[g]), nrRunning, t.parent[g], q[g].h, g)
  {
    NothingOff(t, q, -1, t.parent[g]);
    GroupOutTallies(t, q, g, 0);
    ParentNotEmpty(t, q, g, -1, 0);
    hide Tally, CountOn, SumOn;
  }

  lemma TaskLeaves(t: Tree, q: seq<Queue>, nrRunning: int, g: nat, p: nat)
    requires Balanced(t, q, nrRunning) && g < |q| && p in q[g].tasks
    ensures Fallen(t, TaskOut(q, g, p), nrRunning, g, 1, -1)
  {
    TaskOutTallies(t, q, g, p);
    assert q[g].nr > 0 by {
      assert Tally(t, q, g, -1, 0);
      assert p in q[g].tasks;
    }
    hide Tally, CountOn, SumOn;
  }

  /** An entity has just come to queue `i`, whose count is to go up by `delta`; the queue may have
      been throttled on that occasion, if it was empty. */
  ghost predicate Risen(t: Tree, q: seq<Queue>, nrRunning: int, i: nat, delta: int) {
    && i < |q| && Tallies(t, q, i, -delta) && SeatedBut(q, -1, i) && Rooted(q, nrRunning) && q[i].nr > 0
    && (q[i].onRq ==> !q[i].throttled)
    && (i > 0 && !q[i].onRq && !q[i].throttled ==> q[i].h == 0)
  }

  /** Group `c` is counted and has something to run; its entity may still have to be queued. */
  ghost predicate Rising(t: Tree, q: seq<Queue>, nrRunning: int, c: nat, delta: int) {
    && 0 < c < |q| && Shaped(t, q)
    && Tallies(t, q, t.parent[c], if q[c].onRq then -delta else 0) && SeatedBut(q, -1, c) && Rooted(q, nrRunning)
    && !q[c].throttled && q[c].nr > 0 && (!q[c].onRq ==> q[c].h == delta)
  }

  lemma RisenStep(t: Tree, q: seq<Queue>, nrRunning: int, i: nat, delta: int)
    requires Risen(t, q, nrRunning, i, delta)
    ensures var q' := AddH(q, i, delta);
            if i == 0 then Balanced(t, q', nrRunning + delta)
            else if q[i].throttled then Balanced(t, q', nrRunning)
            else Rising(t, q', nrRunning, i, delta)
  {
    AddHTallies(t, q, i, delta);
    if i > 0 && q[i].throttled { NothingOff(t, AddH(q, i, delta), t.parent[i], -1); }
    hide Tally, CountOn, SumOn;
  }

  lemma RisingIn(t: Tree, q: seq<Queue>, nrRunning: int, c: nat, delta: int)
    requires Rising(t, q, nrRunning, c, delta) && !q[c].onRq
    ensures Risen(t, GroupIn(q, c, t.parent[c]), nrRunning, t.parent[c], delta)
  {
    var up := t.parent[c];
    GroupInTallies(t, q, c, 0);
    NotNegative(t, q, up, up, 0);
    if q[up].nr == 0 { EmptyHasNoTasks(t, q, up, up, 0); }
    assert up > 0 ==> Seated(q[up]);
    hide Tally, CountOn, SumOn;
  }

  lemma RisingOn(t: Tree, q: seq<Queue>, nrRunning: int, c: nat, delta: int)
    requires Rising(t, q, nrRunning, c, delta) && q[c].onRq
    ensures Adding(t, q, nrRunning, t.parent[c], delta, -1)
  {
    ParentNotEmpty(t, q, c, t.parent[c], -delta);
    hide Tally, CountOn, SumOn;
  }

  lemma TaskComes(t: Tree, q: seq<Queue>, nrRunning: int, g: nat, p: nat)
    requires Balanced(t, q, nrRunning) && g < |q| && p !in q[g].tasks
    ensures Risen(t, TaskIn(q, g, p), nrRunning, g, 1)
  {
    TaskInTallies(t, q, g, p);
    NotNegative(t, q, g, -1, 0);
    if q[g].nr == 0 { EmptyHasNoTasks(t, q, g, -1, 0); }
    hide Tally, CountOn, SumOn;
  }

  /** A queue throttled as its first entity arrives needs nothing but its flag. */
  lemma RisenThrottled(t: Tree, q: seq<Queue>, nrRunning: int, i: nat, delta: int)
    requires Risen(t, q, nrRunning, i, delta) && i > 0 && !q[i].onRq
    ensures Risen(t, q[i := q[i].(throttled := true)], nrRunning, i, delta)
  {
    FlagTallies(t, q, i, true, i, -delta);
    hide Tally, CountOn, SumOn;
  }

  /** A throttled queue on the way ends the first loop; the second corrects it and ends as well. */
  lemma RisenStopped(t: Tree, q: seq<Queue>, nrRunning: int, i: nat, delta: int)
    requires Risen(t, q, nrRunning, i, delta) && q[i].throttled
    ensures Adding(t, q, nrRunning, i, delta, -1)
  {
    hide Tally, CountOn, SumOn;
  }

  lemma FallenStopped(t: Tree, q: seq<Queue>, nrRunning: int, i: nat, delta: int, e: int)
    requires Fallen(t, q, nrRunning, i, delta, e) && q[i].throttled
    ensures Adding(t, q, nrRunning, i, -delta, e)
  {
    hide Tally, CountOn, SumOn;
  }
}
