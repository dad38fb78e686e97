/** The next, last and skip hints of all the queues of one CPU, which are set and cleared up the group
    tree. */
module Hints {
  import opened GroupTree
  import opened Hierarchy
  import opened RunQueues

  /** One kind of hint: for each queue, the entity it points to, if any. */
  type Marks = seq<Entity>

  ghost predicate Known(t: Tree, se: Entity) {
    match se
    case Null => true
    case TaskSe(p, group) => group < |t.parent|
    case GroupSe(g) => 0 < g < |t.parent|
  }

  /** Every hint points to an entity that is queued, on the queue that the hint belongs to. */
  ghost predicate Pointing(t: Tree, q: seq<Queue>, h: Marks) {
    && Valid(t) && |h| == |q| == |t.parent|
    && forall x :: 0 <= x < |h| ==> PointsWell(t, q, h[x], x)
  }

  ghost predicate PointsWell(t: Tree, q: seq<Queue>, se: Entity, x: nat)
    requires Valid(t) && |q| == |t.parent|
  {
    se.Null? || (Known(t, se) && QueueOf(t, se) == x && OnRq(q, se))
  }

  /** The entity that stands on queue `x` for whatever is on queue `i` below it. */
  ghost function Standing(t: Tree, x: nat, i: nat): Entity
    requires Valid(t) && i < |t.parent| && Under(t, x, i) && x != i
  {
    UnderIsAbove(t, x, i);
    GroupSe(t.children[x][Towards(t, x, i)])
  }

  // ---------- setting

  /** The loop of `set_next_buddy`, `set_last_buddy` and `set_skip_buddy` as a function. */
  ghost function Marked(t: Tree, h: Marks, se: Entity): Marks
    requires Valid(t) && |h| == |t.parent| && Known(t, se)
    decreases Height(se)
  {
    if se.Null? then h else Marked(t, h[QueueOf(t, se) := se], EntityOf(QueueOf(t, se)))
  }

  /** It marks the entity on its own queue, the groups it belongs to on the queues above, and nothing else. */
  lemma {:induction false} MarkedIs(t: Tree, h: Marks, se: Entity, x: nat)
    requires Valid(t) && |h| == |t.parent| && Known(t, se) && !se.Null? && x < |h|
    ensures var i := QueueOf(t, se);
            |Marked(t, h, se)| == |h|
            && Marked(t, h, se)[x] == if x == i then se else if Under(t, x, i) then Standing(t, x, i) else h[x]
    decreases Height(se)
  {
    var i: nat := QueueOf(t, se);
    UnderOnlyAbove(t, x, i);
    if i > 0 {
      MarkedIs(t, h[i := se], GroupSe(i), x);
      UnderOnlyAbove(t, x, t.parent[i]);
    }
  }

  /** The group that stands for queue `i` on a queue above is queued if everything on the way up is. */
  lemma {:induction false} StandingQueued(t: Tree, q: seq<Queue>, x: nat, i: nat)
    requires Shaped(t, q) && i < |q| && Under(t, x, i) && x != i && QueuedUp(t, q, i)
    ensures PointsWell(t, q, Standing(t, x, i), x)
    decreases i
  {
    UnderIsAbove(t, x, i);
    if t.parent[i] != x {
      UnderIsAbove(t, x, t.parent[i]);
      StandingQueued(t, q, x, t.parent[i]);
    }
  }

  /** If not everything on the way up is queued, some group is not that stands for `i` above. */
  lemma {:induction false} StandingNotQueued(t: Tree, q: seq<Queue>, i: nat) returns (x: nat)
    requires Shaped(t, q) && i < |q| && !QueuedUp(t, q, i)
    ensures x < i && Under(t, x, i) && !PointsWell(t, q, Standing(t, x, i), x)
    decreases i
  {
    x := t.parent[i];
    if q[i].onRq {
      x := StandingNotQueued(t, q, t.parent[i]);
      UnderIsAbove(t, x, t.parent[i]);
    }
  }

  lemma QueuedNotEmpty(t: Tree, q: seq<Queue>, n: int, se: Entity)
    requires Balanced(t, q, n) && Known(t, se) && !se.Null? && OnRq(q, se)
    ensures q[QueueOf(t, se)].nr > 0
  {
    if se.GroupSe? {
      ParentNotEmpty(t, q, se.g, -1, 0);
    } else {
      assert Tally(t, q, se.group, -1, 0) && se.p in q[se.group].tasks;
    }
  }

  /** Setting a hint to a queued entity leaves all hints on queued entities if and only if neither its queue
      nor one above is throttled. */
  lemma MarkedExactlyWhenFree(t: Tree, q: seq<Queue>, n: int, h: Marks, se: Entity)
    requires Balanced(t, q, n) && Pointing(t, q, h) && Known(t, se) && !se.Null? && OnRq(q, se)
    ensures Pointing(t, q, Marked(t, h, se)) <==> Above(t, q, QueueOf(t, se)) == 0
  {
    var i: nat, h' := QueueOf(t, se), Marked(t, h, se);
    QueuedNotEmpty(t, q, n, se);
    ReachedExactlyWhenFree(t, q, n, i);
    MarkedIs(t, h, se, i);
    hide Tallies, SeatedBut, Marked, Above, Standing;
    if QueuedUp(t, q, i) {
      forall x | 0 <= x < |h'| ensures PointsWell(t, q, h'[x], x) {
        MarkedIs(t, h, se, x);
        if x != i && Under(t, x, i) { StandingQueued(t, q, x, i); }
      }
    } else {
      var x := StandingNotQueued(t, q, i);
      MarkedIs(t, h, se, x);
    }
  }

  // ---------- clearing

  /** The loop of `__clear_buddies_next` and its like as a function: up as long as the hints match. */
  ghost function Unmarked(t: Tree, h: Marks, se: Entity): Marks
    requires Valid(t) && |h| == |t.parent| && Known(t, se)
    decreases Height(se)
  {
    if se.Null? || h[QueueOf(t, se)] != se then h
    else Unmarked(t, h[QueueOf(t, se) := Null], EntityOf(QueueOf(t, se)))
  }

  /** No hint points to the entity any more, and every other hint is what it was or none. */
  lemma {:induction false} UnmarkedIs(t: Tree, h: Marks, se: Entity, x: nat)
    requires Valid(t) && |h| == |t.parent| && Known(t, se) && !se.Null? && x < |h|
    ensures |Unmarked(t, h, se)| == |h|
    ensures Unmarked(t, h, se)[x] == h[x] || Unmarked(t, h, se)[x].Null?
    ensures x == QueueOf(t, se) ==> Unmarked(t, h, se)[x] != se
    ensures x > QueueOf(t, se) ==> Unmarked(t, h, se)[x] == h[x]
    decreases Height(se)
  {
    var i: nat := QueueOf(t, se);
    if h[i] == se && i > 0 { UnmarkedIs(t, h[i := Null], GroupSe(i), x); }
  }

  /** Clearing the hints of an entity before it leaves its queue keeps all hints on queued entities. */
  lemma DequeueKeepsPointing(t: Tree, q: seq<Queue>, h: Marks, se: Entity)
    requires Pointing(t, q, h) && Known(t, se) && !se.Null?
    ensures Pointing(t, Take(t, q, se), Unmarked(t, h, se))
  {
    var h', q' := Unmarked(t, h, se), Take(t, q, se);
    UnmarkedIs(t, h, se, 0);
    forall x | 0 <= x < |h'| ensures PointsWell(t, q', h'[x], x) {
      UnmarkedIs(t, h, se, x);
      assert PointsWell(t, q, h[x], x);
      hide Unmarked;
    }
  }

  // ---------- a whole dequeue

  /** One round of the first loop of `dequeue_task_fair`: the queues once `se` is off its queue, and whether the
      loop goes on with the group of that queue, which is then empty. */
  function Round(t: Tree, q: seq<Queue>, se: Entity): seq<Queue>
    requires Valid(t) && |q| == |t.parent| && Known(t, se) && !se.Null?
  {
    var i, q1 := QueueOf(t, se), Take(t, q, se);
    if q1[i].throttled then q1 else AddH(q1, i, -1)
  }

  predicate GoesOn(t: Tree, q: seq<Queue>, se: Entity)
    requires Valid(t) && |q| == |t.parent| && Known(t, se) && !se.Null?
  {
    var i, q' := QueueOf(t, se), Round(t, q, se);
    !q'[i].throttled && q'[i].nr == 0 && i > 0
  }

  /** The queues when that loop ends. */
  function Emptied(t: Tree, q: seq<Queue>, se: Entity): seq<Queue>
    requires Valid(t) && |q| == |t.parent| && Known(t, se) && !se.Null?
    decreases Height(se)
  {
    var q' := Round(t, q, se);
    if GoesOn(t, q, se) then Emptied(t, q', GroupSe(QueueOf(t, se))) else q'
  }

  /** The hints when it ends: those of every entity taken off are cleared. */
  ghost function Swept(t: Tree, q: seq<Queue>, h: Marks, se: Entity): Marks
    requires Valid(t) && |h| == |q| == |t.parent| && Known(t, se) && !se.Null?
    decreases Height(se)
  {
    UnmarkedIs(t, h, se, 0);
    var h' := Unmarked(t, h, se);
    if GoesOn(t, q, se) then Swept(t, Round(t, q, se), h', GroupSe(QueueOf(t, se))) else h'
  }

  /** The group that a sleeping task's dequeue nominates, or -1: the one whose queue the loop ends at with
      something left on it, unless that queue is throttled or the root's. */
  function Nominee(t: Tree, q: seq<Queue>, se: Entity): int
    requires Valid(t) && |q| == |t.parent| && Known(t, se) && !se.Null?
    decreases Height(se)
  {
    var i, q' := QueueOf(t, se), Round(t, q, se);
    if GoesOn(t, q, se) then Nominee(t, q', GroupSe(i))
    else if q'[i].throttled || i == 0 then -1 else i
  }

  lemma {:induction false} SweptSize(t: Tree, q: seq<Queue>, h: Marks, se: Entity)
    requires Valid(t) && |h| == |q| == |t.parent| && Known(t, se) && !se.Null?
    ensures |Swept(t, q, h, se)| == |h| && -1 <= Nominee(t, q, se) < |q| && Nominee(t, q, se) != 0
    decreases Height(se)
  {
    UnmarkedIs(t, h, se, 0);
    if GoesOn(t, q, se) { SweptSize(t, Round(t, q, se), Unmarked(t, h, se), GroupSe(QueueOf(t, se))); }
  }

  lemma SamePointing(t: Tree, q: seq<Queue>, r: seq<Queue>, h: Marks)
    requires Pointing(t, q, h) && |r| == |q|
    requires forall x :: 0 <= x < |q| ==> q[x].onRq == r[x].onRq && q[x].tasks == r[x].tasks
    ensures Pointing(t, r, h)
  {
    forall x | 0 <= x < |h| ensures PointsWell(t, r, h[x], x) { assert PointsWell(t, q, h[x], x); }
  }

  /** The loop leaves the hints on queued entities, only counts are still to be corrected, and the nominee is
      queued. */
  lemma {:induction false} LoopEnds(t: Tree, base: seq<Queue>, q: seq<Queue>, n: int, h: Marks, se: Entity)
      returns (rest: Entity)
    requires Sink(t, base, q, n, se) && !se.Null? && Pointing(t, q, h) && Known(t, se)
    ensures |Emptied(t, q, se)| == |q| && Pointing(t, Emptied(t, q, se), Swept(t, q, h, se))
    ensures Owed(t, Emptied(t, q, se), n, rest, -1) && SameInputs(Emptied(t, q, se), base)
    ensures var m := Nominee(t, q, se); m == -1 || (0 < m < |q| && OnRq(Emptied(t, q, se), GroupSe(m)))
    decreases Height(se)
  {
    hide Tallies, Rooted, Adding, Fallen, Sinking, Unmarked;
    var i: nat, q', h' := QueueOf(t, se), Round(t, q, se), Unmarked(t, h, se);
    SinkRound(t, base, q, n, se);
    DequeueKeepsPointing(t, q, h, se);
    SamePointing(t, Take(t, q, se), q', h');
    if GoesOn(t, q, se) {
      rest := LoopEnds(t, base, q', n, h', GroupSe(i));
    } else if q'[i].throttled {
      rest := se;
    } else {
      rest := EntityOf(i);
      if i > 0 { NomineeQueued(t, q', n, i); }
    }
  }

  lemma NomineeQueued(t: Tree, q: seq<Queue>, n: int, i: nat)
    requires 0 < i < |q| && Owed(t, q, n, GroupSe(i), -1) && !q[i].throttled && q[i].nr != 0
    ensures q[i].onRq
  {
    NotNegative(t, q, i, t.parent[i], 1);
    assert Seated(q[i]);
  }

  /** The second loop changes counts only. */
  lemma {:induction false} SettledCounts(t: Tree, q: seq<Queue>, n: int, se: Entity, delta: int)
      returns (r: seq<Queue>, m: int)
    requires Owed(t, q, n, se, delta)
    ensures Balanced(t, r, m) && |r| == |q|
    ensures forall x :: 0 <= x < |q| ==>
              r[x].onRq == q[x].onRq && r[x].tasks == q[x].tasks && r[x].throttled == q[x].throttled
    decreases Height(se)
  {
    if se.Null? {
      r, m := q, n + delta;
    } else {
      var i: nat := QueueOf(t, se);
      AddingStep(t, q, n, i, delta, -1);
      hide Tallies, SeatedBut, Rooted;
      if q[i].throttled {
        r, m := AddH(q, i, delta), n;
      } else {
        r, m := SettledCounts(t, AddH(q, i, delta), n, EntityOf(i), delta);
      }
    }
  }

  /** The next hints after `dequeue_task_fair`; last and skip hints are only swept. */
  ghost function NextAfter(t: Tree, q: seq<Queue>, h: Marks, p: nat, g: nat, sleep: bool): Marks
    requires Valid(t) && |h| == |q| == |t.parent| && g < |q|
  {
    SweptSize(t, q, h, TaskSe(p, g));
    var h', m := Swept(t, q, h, TaskSe(p, g)), Nominee(t, q, TaskSe(p, g));
    if sleep && m > 0 then Marked(t, h', GroupSe(m)) else h'
  }

  /** A dequeue keeps all hints on queued entities if and only if the task does not go to sleep, or nobody is
      nominated, or the queue that the nominee is on has a throttle_count of zero. The other hints are always
      kept. `q'` is the state the dequeue leads to. */
  lemma DequeueTaskExactly(t: Tree, q: seq<Queue>, n: int, h: Marks, p: nat, g: nat, sleep: bool,
                           q': seq<Queue>, n': int)
    requires Balanced(t, q, n) && Pointing(t, q, h) && g < |q| && p in q[g].tasks
    requires Balanced(t, q', n') && SameInputs(q', TaskOut(q, g, p))
    ensures Pointing(t, q', Swept(t, q, h, TaskSe(p, g)))
    ensures -1 <= Nominee(t, q, TaskSe(p, g)) < |q'| && Nominee(t, q, TaskSe(p, g)) != 0
    ensures Pointing(t, q', NextAfter(t, q, h, p, g, sleep))
            <==> var m := Nominee(t, q, TaskSe(p, g)); !sleep || m == -1 || Above(t, q', t.parent[m]) == 0
  {
    var se := TaskSe(p, g);
    var e, h', m := Emptied(t, q, se), Swept(t, q, h, se), Nominee(t, q, se);
    SweptSize(t, q, h, se);
    var rest := LoopEnds(t, TaskOut(q, g, p), q, n, h, se);
    var r, k := SettledCounts(t, e, n, rest, -1);
    hide Tallies, SeatedBut, Rooted, Emptied, Swept, Nominee, Owed, Marked, Above;
    Canonical(t, r, q', k, n');
    SamePointing(t, e, q', h');
    if sleep && m != -1 {
      MarkedExactlyWhenFree(t, q', n', h', GroupSe(m));
    }
  }

  // ---------- a hint that goes wrong

  /** One group inside another. */
  function Chain(): Tree {
    Tree([-1, 0, 1], [[1], [2], []], [0, 0, 0])
  }

  /** The outer group is throttled; one task is queued in the inner one. */
  function Held(): seq<Queue> {
    [Queue({}, 0, 0, false, false), Queue({}, 1, 1, true, false), Queue({7}, 1, 1, false, true)]
  }

  lemma ChainValid()
    ensures Valid(Chain()) && Shaped(Chain(), Held())
  {
    var t := Chain();
    forall g, i | 0 <= g < 3 && 0 <= i < |t.children[g]|
      ensures g < t.children[g][i] < 3 && t.parent[t.children[g][i]] == g && t.slot[t.children[g][i]] == i
    {
      assert g == 0 || g == 1;
    }
  }

  lemma OneKid(c: nat, q: seq<Queue>)
    requires c < |q|
    ensures Within([c], q) && CountOn([c], q) == On(q[c]) && SumOn([c], q) == Share(q[c])
  {
    assert [c][1..] == [];
  }

  lemma HeldBalanced()
    ensures Balanced(Chain(), Held(), 0)
  {
    var t, q := Chain(), Held();
    ChainValid();
    OneKid(1, q);
    OneKid(2, q);
    hide Valid;
    assert Tally(t, q, 0, -1, 0) && Tally(t, q, 1, -1, 0) && Tally(t, q, 2, -1, 0);
    hide CountOn, SumOn;
    forall x | 0 <= x < |q| ensures Tally(t, q, x, -1, 0) {
      assert x == 0 || x == 1 || x == 2;
    }
  }

  /** The same with two tasks. */
  function Both(): seq<Queue> {
    [Queue({}, 0, 0, false, false), Queue({}, 1, 2, true, false), Queue({7, 8}, 2, 2, false, true)]
  }

  lemma BothBalanced()
    ensures Shaped(Chain(), Both()) && Balanced(Chain(), Both(), 0)
  {
    var t, q := Chain(), Both();
    ChainValid();
    OneKid(1, q);
    OneKid(2, q);
    hide Valid;
    assert |{7, 8}| == 2;
    assert Tally(t, q, 0, -1, 0) && Tally(t, q, 1, -1, 0) && Tally(t, q, 2, -1, 0);
    hide CountOn, SumOn;
    forall x | 0 <= x < |q| ensures Tally(t, q, x, -1, 0) {
      assert x == 0 || x == 1 || x == 2;
    }
  }

  /** Two tasks are queued in the inner group of a throttled one, and one of them goes to sleep: the dequeue
      leaves a hint to the outer group, which is off its queue. */
  lemma ThrottledNextBuddy()
    ensures var t, h := Chain(), [Null, Null, Null];
            && Balanced(t, Both(), 0) && Pointing(t, Both(), h)
            && Balanced(t, Held(), 0) && SameInputs(Held(), TaskOut(Both(), 2, 8))
            && !Pointing(t, Held(), NextAfter(t, Both(), h, 8, 2, true))
  {
    var t, q, h := Chain(), Both(), [Null, Null, Null];
    ChainValid();
    HeldBalanced();
    BothBalanced();
    hide Valid, Tallies;
    assert {7, 8} - {8} == {7};
    assert Pointing(t, q, h);
    DequeueTaskExactly(t, q, 0, h, 8, 2, true, Held(), 0);
    hide Pointing, NextAfter, Swept;
    assert Nominee(t, q, TaskSe(8, 2)) == 2;
    assert Above(t, Held(), 1) >= 1;
  }

  lemma {:induction false} NeverDry(t: Tree, q: seq<Queue>, i: nat)
    requires Valid(t) && |q| == |t.parent| && i < |q|
    ensures NewlyThrottled(t, q, j => false, i) == -1
    decreases i
  {
    if i > 0 { NeverDry(t, q, t.parent[i]); }
  }

  /** The first state is reached by queueing both tasks and throttling the outer group, the second by the dequeue. */
  method ReachHeld() returns (rq: RunQueue, ghost both: seq<Queue>)
    ensures rq.Valid() && rq.t == Chain() && both == Both() && rq.q == Held() && rq.nrRunning == 0
  {
    ChainValid();
    HeldBalanced();
    BothBalanced();
    var t := Chain();
    rq := new RunQueue(t);
    hide Valid, Tallies, SeatedBut, Rooted, Counted, NewlyThrottled;
    NeverDry(t, rq.q, 2);
    rq.EnqueueTask(7, 2, j => false);
    NeverDry(t, rq.q, 2);
    rq.EnqueueTask(8, 2, j => false);
    rq.Throttle(1);
    both := rq.q;
    Canonical(t, rq.q, Both(), rq.nrRunning, 0);
    rq.DequeueTask(8, 2);
    assert {7, 8} - {8} == {7};
    Canonical(t, rq.q, Held(), rq.nrRunning, 0);
  }

  // ---------- the loops

  class CpuHints {
    const t: Tree
    var next: Marks
    var last: Marks
    var skip: Marks

    ghost predicate Sized()
      reads this
    {
      Valid(t) && |next| == |last| == |skip| == |t.parent|
    }

    /** `set_next_buddy`; a SCHED_IDLE task is not marked. */
    method SetNextBuddy(start: Entity, idle: bool)
      requires Sized() && Known(t, start)
      modifies this`next
      ensures Sized()
      ensures next == if start.TaskSe? && idle then old(next) else Marked(t, old(next), start)
    {
      if start.TaskSe? && idle { return; }
      var se := start;
      while !se.Null?
        invariant Sized() && Known(t, se) && Marked(t, next, se) == Marked(t, old(next), start)
        decreases Height(se)
      {
        var i: nat := QueueOf(t, se);
        next := next[i := se];
        se := EntityOf(i);
      }
    }

    /** `set_last_buddy`. */
    method SetLastBuddy(start: Entity, idle: bool)
      requires Sized() && Known(t, start)
      modifies this`last
      ensures Sized()
      ensures last == if start.TaskSe? && idle then old(last) else Marked(t, old(last), start)
    {
      if start.TaskSe? && idle { return; }
      var se := start;
      while !se.Null?
        invariant Sized() && Known(t, se) && Marked(t, last, se) == Marked(t, old(last), start)
        decreases Height(se)
      {
        var i: nat := QueueOf(t, se);
        last := last[i := se];
        se := EntityOf(i);
      }
    }

    /** `set_skip_buddy`. */
    method SetSkipBuddy(start: Entity)
      requires Sized() && Known(t, start)
      modifies this`skip
      ensures Sized() && skip == Marked(t, old(skip), start)
    {
      var se := start;
      while !se.Null?
        invariant Sized() && Known(t, se) && Marked(t, skip, se) == Marked(t, old(skip), start)
        decreases Height(se)
      {
        var i: nat := QueueOf(t, se);
        skip := skip[i := se];
        se := EntityOf(i);
      }
    }

    /** The first loop of `dequeue_task_fair` as far as hints go, from queues `q0`. */
    method DequeueTask(q0: seq<Queue>, p: nat, g: nat, sleep: bool)
      requires Sized() && |q0| == |t.parent| && g < |q0|
      modifies this`next, this`last, this`skip
      ensures Sized()
      ensures next == NextAfter(t, q0, old(next), p, g, sleep)
      ensures last == Swept(t, q0, old(last), TaskSe(p, g)) && skip == Swept(t, q0, old(skip), TaskSe(p, g))
    {
      var se, q := TaskSe(p, g), q0;
      ghost var start := se;
      hide Unmarked, Marked;
      while true
        invariant Sized() && |q| == |t.parent| && Known(t, se) && !se.Null?
        invariant Swept(t, q, next, se) == Swept(t, q0, old(next), start)
        invariant Swept(t, q, last, se) == Swept(t, q0, old(last), start)
        invariant Swept(t, q, skip, se) == Swept(t, q0, old(skip), start)
        invariant Nominee(t, q, se) == Nominee(t, q0, start)
        decreases Height(se)
      {
        var i: nat := QueueOf(t, se);
        ClearBuddies(se);
        var q1 := Take(t, q, se);
        if q1[i].throttled { break; }
        q1 := AddH(q1, i, -1);
        if q1[i].nr != 0 || i == 0 {
          if sleep && i > 0 { SetNextBuddy(GroupSe(i), false); }
          break;
        }
        q := q1;
        se := GroupSe(i);
      }
    }

    /** `clear_buddies` with the three loops it starts. */
    method ClearBuddies(se: Entity)
      requires Sized() && Known(t, se) && !se.Null?
      modifies this`next, this`last, this`skip
      ensures Sized()
      ensures next == Unmarked(t, old(next), se) && last == Unmarked(t, old(last), se)
      ensures skip == Unmarked(t, old(skip), se)
    {
      last := ClearUp(t, last, se);
      next := ClearUp(t, next, se);
      skip := ClearUp(t, skip, se);
      UnmarkedIs(t, old(next), se, 0);
      UnmarkedIs(t, old(last), se, 0);
      UnmarkedIs(t, old(skip), se, 0);
    }
  }

  /** `__clear_buddies_next` and its like. */
  method ClearUp(t: Tree, h0: Marks, start: Entity) returns (h: Marks)
    requires Valid(t) && |h0| == |t.parent| && Known(t, start)
    ensures h == Unmarked(t, h0, start)
  {
    h := h0;
    var se := start;
    while !se.Null?
      invariant |h| == |t.parent| && Known(t, se) && Unmarked(t, h, se) == Unmarked(t, h0, start)
      decreases Height(se)
    {
      var i: nat := QueueOf(t, se);
      if h[i] != se { break; }
      h := h[i := Null];
      se := EntityOf(i);
    }
  }
}
