/** The operations on the fair run queues of one CPU. */
module RunQueues {
  import opened GroupTree
  import opened Hierarchy

  /** A schedulable entity: a task on the queue of its group, or a group on its parent's queue. */
  datatype Entity = Null | TaskSe(p: nat, group: nat) | GroupSe(g: nat)

  /** `cfs_rq_of`. */
  function QueueOf(t: Tree, se: Entity): int
    requires Valid(t) && (se.GroupSe? ==> 0 < se.g < |t.parent|)
  {
    match se
    case Null => -1
    case TaskSe(p, group) => group
    case GroupSe(g) => t.parent[g]
  }

  /** `parent_entity`: the entity of the group whose queue this is; the root group has none. */
  function EntityOf(i: nat): Entity {
    if i == 0 then Null else GroupSe(i)
  }

  ghost predicate SameInputs(q: seq<Queue>, r: seq<Queue>) {
    |q| == |r| && forall x :: 0 <= x < |q| ==> q[x].tasks == r[x].tasks && q[x].throttled == r[x].throttled
  }

  function Flag(q: seq<Queue>, g: int, b: bool): seq<Queue> {
    if 0 <= g < |q| then q[g := q[g].(throttled := b)] else q
  }

  /** The queue that an entity coming to queue `i` causes to be throttled, or -1: the first one on the
      way up that was empty and has no runtime left, if none on the way was throttled or had anything
      queued. `dry` says which queues `check_enqueue_throttle` would find out of runtime. */
  function NewlyThrottled(t: Tree, q: seq<Queue>, dry: nat -> bool, i: nat): (r: int)
    requires Valid(t) && |q| == |t.parent| && i < |q|
    ensures r < |q|
    decreases i
  {
    if q[i].throttled || q[i].nr != 0 then -1
    else if dry(i) then i
    else if i == 0 then -1 else NewlyThrottled(t, q, dry, t.parent[i])
  }

  class RunQueue {
    const t: Tree
    var q: seq<Queue>
    var throttleCount: seq<int>
    var nrRunning: int

    ghost predicate Ready()
      reads this
    {
      Shaped(t, q) && Counted(t, q, throttleCount)
    }

    ghost predicate Valid()
      reads this
    {
      Ready() && Balanced(t, q, nrRunning)
    }

    constructor (t: Tree)
      requires GroupTree.Valid(t)
      ensures Valid() && this.t == t
      ensures forall x :: 0 <= x < |q| ==> q[x] == Queue({}, 0, 0, false, false)
    {
      this.t := t;
      q := seq(|t.parent|, i => Queue({}, 0, 0, false, false));
      throttleCount := seq(|t.parent|, i => 0);
      nrRunning := 0;
      new;
      EmptyQueues(t, q, throttleCount);
    }

    /** `throttle_cfs_rq`. Started in a balanced state it ends in one. It also runs inside
        `enqueue_entity`, for a queue whose own entity is not queued; then it only sets the flag. */
    method Throttle(g: nat)
      requires Ready() && 0 < g < |q| && !q[g].throttled
      modifies this
      ensures Ready()
      ensures !old(q[g].onRq) ==> q == Flag(old(q), g, true) && nrRunning == old(nrRunning)
      ensures Balanced(t, old(q), old(nrRunning)) ==> Balanced(t, q, nrRunning)
      ensures SameInputs(q, Flag(old(q), g, true))
    {
      ThrottleWalk(t, q, g, throttleCount);
      var walk := WalkTgTreeFrom(t, g, ThrottleDown, Nop, throttleCount);
      ghost var q0 := q;
      hide Tallies, SeatedBut, Rooted, Above;
      Withdraw(g);
      SameCounted(t, Flag(q0, g, true), Flag(q, g, true), walk.data);
      q := Flag(q, g, true);
      throttleCount := walk.data;
    }

    /** The loop of `throttle_cfs_rq`: take the group's entity, and every ancestor's that is left empty,
        off its queue, and the group's tasks out of the counts above. */
    method Withdraw(g: nat)
      requires Shaped(t, q) && 0 < g < |q|
      modifies this`q, this`nrRunning
      ensures SameInputs(q, old(q))
      ensures !old(q[g].onRq) ==> q == old(q) && nrRunning == old(nrRunning)
      ensures Balanced(t, old(q), old(nrRunning)) ==> Balanced(t, Flag(q, g, true), nrRunning)
    {
      ghost var q0 := q;
      ghost var balanced := Balanced(t, q, nrRunning);
      var taskDelta := q[g].h;
      var dequeue := true;
      var c: nat := g;
      hide Tallies, SeatedBut, Rooted, Sinking, Adding, Within;
      while c > 0 && q[c].onRq
        invariant c <= g && SameInputs(q, q0)
        invariant c < g ==> q0[g].onRq && !q[g].onRq
        invariant c == g ==> q == q0 && dequeue
        invariant balanced ==> ThrottleState(t, q, nrRunning, c, taskDelta, dequeue, g)
        invariant nrRunning == old(nrRunning)
      {
        var i: nat := t.parent[c];
        if balanced { ThrottleRound(t, q, nrRunning, c, taskDelta, dequeue, g); }
        if dequeue { q := GroupOut(q, c, i); }
        q := AddH(q, i, -taskDelta);
        if q[i].nr != 0 { dequeue := false; }
        c := i;
      }
      if balanced { ThrottleEnd(t, q, nrRunning, c, taskDelta, dequeue, g); }
      if c == 0 { nrRunning := nrRunning - taskDelta; }
    }

    /** `enqueue_entity` with `check_enqueue_throttle`. */
    method EnqueueEntity(se: Entity, dry: nat -> bool)
      requires Ready() && Queueable(t, q, se) && !dry(0)
      modifies this
      ensures Ready() && nrRunning == old(nrRunning) && q == Entered(t, old(q), se, dry)
    {
      var i: nat := QueueOf(t, se);
      ghost var q0 := q;
      q := Put(t, q, se);
      SameCounted(t, q0, q, throttleCount);
      if q[i].nr == 1 && !q[i].throttled && dry(i) {
        Throttle(i);
      }
    }

    /** `enqueue_task_fair`. */
    method EnqueueTask(p: nat, g: nat, dry: nat -> bool)
      requires Valid() && g < |q| && p !in q[g].tasks && !dry(0)
      modifies this
      ensures Valid()
      ensures SameInputs(q, Flag(TaskIn(old(q), g, p), NewlyThrottled(t, old(q), dry, g), true))
    {
      ghost var q0 := q;
      ghost var base := TaskIn(q, g, p);
      ghost var top := NewlyThrottled(t, q0, dry, g);
      var se := TaskSe(p, g);
      hide Tallies, SeatedBut, Rooted, Rising, Adding, Counted, NewlyThrottled, BalancedBut;
      while !se.Null?
        invariant Ready() && Climb(t, q0, base, q, nrRunning, se, 1, dry, top)
        decreases Height(se)
      {
        if OnRq(q, se) {
          ClimbOn(t, q0, base, q, nrRunning, se, 1, dry, top);
          break;
        }
        ClimbPut(t, q0, base, q, nrRunning, se, 1, dry, top);
        var i: nat := QueueOf(t, se);
        EnqueueEntity(se, dry);
        if q[i].throttled { break; }
        SameCounted(t, q, AddH(q, i, 1), throttleCount);
        q := AddH(q, i, 1);
        se := EntityOf(i);
      }
      AddUp(se, 1);
    }

    /** `dequeue_task_fair`. */
    method DequeueTask(p: nat, g: nat)
      requires Valid() && g < |q| && p in q[g].tasks
      modifies this
      ensures Valid()
      ensures SameInputs(q, TaskOut(old(q), g, p))
    {
      ghost var base := TaskOut(q, g, p);
      var se := TaskSe(p, g);
      hide Tallies, SeatedBut, Rooted, Sinking, Adding, Counted, BalancedBut;
      while !se.Null?
        invariant Ready() && Sink(t, base, q, nrRunning, se)
        decreases Height(se)
      {
        SinkRound(t, base, q, nrRunning, se);
        var i: nat := QueueOf(t, se);
        SameCounted(t, q, Take(t, q, se), throttleCount);
        q := Take(t, q, se);
        if q[i].throttled { break; }
        SameCounted(t, q, AddH(q, i, -1), throttleCount);
        q := AddH(q, i, -1);
        se := EntityOf(i);
        if q[i].nr != 0 { break; }
      }
      AddUp(se, -1);
    }

    /** `unthrottle_cfs_rq`. */
    method Unthrottle(g: nat, dry: nat -> bool)
      requires Valid() && 0 < g < |q| && q[g].throttled && !dry(0)
      modifies this
      ensures Valid()
      ensures SameInputs(q, Flag(Flag(old(q), g, false), Rethrottled(t, old(q), dry, g), true))
    {
      ghost var base := Flag(q, g, false);
      ghost var top := Rethrottled(t, q, dry, g);
      UnthrottleWalk(t, q, g, throttleCount);
      UnthrottleStart(t, q, nrRunning, g, dry);
      var walk := WalkTgTreeFrom(t, g, Nop, UnthrottleUp, throttleCount);
      q := Flag(q, g, false);
      throttleCount := walk.data;
      if q[g].nr == 0 { return; }
      Readmit(g, dry, base, top);
    }

    /** The loop of `unthrottle_cfs_rq`: queue the group's entity, and every ancestor's that is not
        queued, and add the group's tasks to the counts above. */
    method Readmit(g: nat, dry: nat -> bool, ghost base: seq<Queue>, ghost top: int)
      requires Ready() && 0 < g < |q| && !dry(0)
      requires Climb(t, base, base, q, nrRunning, GroupSe(g), q[g].h, dry, top)
      modifies this
      ensures Valid() && SameInputs(q, Flag(base, top, true))
    {
      var taskDelta := q[g].h;
      var enqueue := true;
      var se := GroupSe(g);
      hide Tallies, SeatedBut, Rooted, Counted, Climb, Owed, InTree;
      while !se.Null?
        invariant Ready() && ReadmitState(t, base, q, nrRunning, se, enqueue, taskDelta, dry, top)
        decreases Height(se)
      {
        ReadmitRound(t, base, q, nrRunning, se, enqueue, taskDelta, dry, top);
        if OnRq(q, se) { enqueue := false; }
        var i: nat := QueueOf(t, se);
        if enqueue { EnqueueEntity(se, dry); }
        SameCounted(t, q, AddH(q, i, taskDelta), throttleCount);
        q := AddH(q, i, taskDelta);
        if q[i].throttled { return; }
        se := EntityOf(i);
      }
      ReadmitEnd(t, base, q, nrRunning, enqueue, taskDelta, dry, top);
      nrRunning := nrRunning + taskDelta;
    }

    /** The second loop of `enqueue_task_fair` and `dequeue_task_fair`, and the update of the CPU's count. */
    method AddUp(start: Entity, delta: int)
      requires Ready() && Owed(t, q, nrRunning, start, delta)
      modifies this`q, this`nrRunning
      ensures Valid() && SameInputs(q, old(q))
    {
      var se := start;
      hide Tallies, SeatedBut, Rooted, Counted, Above;
      while !se.Null?
        invariant Ready() && SameInputs(q, old(q)) && nrRunning == old(nrRunning)
        invariant Owed(t, q, nrRunning, se, delta)
        decreases Height(se)
      {
        var i: nat := QueueOf(t, se);
        AddingStep(t, q, nrRunning, i, delta, -1);
        SameCounted(t, q, AddH(q, i, delta), throttleCount);
        q := AddH(q, i, delta);
        if q[i].throttled { return; }
        se := EntityOf(i);
      }
      nrRunning := nrRunning + delta;
    }
  }

  // ---------- entities coming to their queues

  predicate OnRq(q: seq<Queue>, se: Entity)
    requires se.TaskSe? ==> se.group < |q|
    requires se.GroupSe? ==> se.g < |q|
  {
    match se
    case Null => false
    case TaskSe(p, group) => p in q[group].tasks
    case GroupSe(g) => q[g].onRq
  }

  ghost function Height(se: Entity): nat {
    match se
    case Null => 0
    case TaskSe(p, group) => group + 2
    case GroupSe(g) => g + 1
  }

  ghost predicate InTree(t: Tree, q: seq<Queue>, se: Entity) {
    match se
    case Null => true
    case TaskSe(p, group) => group < |q|
    case GroupSe(g) => 0 < g < |q|
  }

  /** The entity is off its queue, which is not queued itself if it is empty. */
  ghost predicate Queueable(t: Tree, q: seq<Queue>, se: Entity) {
    && Shaped(t, q) && InTree(t, q, se) && !se.Null?
    && var i := QueueOf(t, se); q[i].nr == 0 ==> !q[i].onRq
  }

  function Put(t: Tree, q: seq<Queue>, se: Entity): seq<Queue>
    requires Valid(t) && |q| == |t.parent|
    requires se.TaskSe? ==> se.group < |q|
    requires se.GroupSe? ==> 0 < se.g < |q|
  {
    match se
    case Null => q
    case TaskSe(p, group) => TaskIn(q, group, p)
    case GroupSe(g) => GroupIn(q, g, t.parent[g])
  }

  ghost function Entered(t: Tree, q: seq<Queue>, se: Entity, dry: nat -> bool): seq<Queue>
    requires Shaped(t, q) && InTree(t, q, se) && !se.Null?
  {
    var i := QueueOf(t, se);
    var q1 := Put(t, q, se);
    if q1[i].nr == 1 && !q1[i].throttled && dry(i) then Flag(q1, i, true) else q1
  }

  /** Every queue from that of `se` up is still to be corrected by `delta`, and so is the CPU's count
      once there is none left. */
  ghost predicate Owed(t: Tree, q: seq<Queue>, nrRunning: int, se: Entity, delta: int) {
    && Shaped(t, q) && InTree(t, q, se)
    && if se.Null? then Balanced(t, q, nrRunning + delta)
       else Adding(t, q, nrRunning, QueueOf(t, se), delta, -1)
  }

  /** Entities are being queued from the bottom up and `se` is next: `q0` is the state before, `base`
      the tasks and flags to end with, and `top` the queue that is going to be throttled, if any. */
  ghost predicate Climb(t: Tree, q0: seq<Queue>, base: seq<Queue>, q: seq<Queue>, nrRunning: int, se: Entity,
                        delta: int, dry: nat -> bool, top: int) {
    && Shaped(t, q) && InTree(t, q, se) && |q0| == |q| == |base| && top < |q|
    && match se
       case Null => Balanced(t, q, nrRunning + delta) && SameInputs(q, base) && top == -1
       case TaskSe(p, g) =>
         && Balanced(t, q, nrRunning) && q == q0 && p !in q[g].tasks && base == TaskIn(q, g, p) && delta == 1
         && top == NewlyThrottled(t, q0, dry, g)
       case GroupSe(c) =>
         && Rising(t, q, nrRunning, c, delta) && SameInputs(q, base)
         && (forall x :: 0 <= x < c ==> q[x] == q0[x])
         && top == if q[c].onRq then -1 else NewlyThrottled(t, q0, dry, t.parent[c])
  }

  /** An entity that is queued already ends the climb. */
  lemma ClimbOn(t: Tree, q0: seq<Queue>, base: seq<Queue>, q: seq<Queue>, nrRunning: int, se: Entity,
                delta: int, dry: nat -> bool, top: int)
    requires Climb(t, q0, base, q, nrRunning, se, delta, dry, top) && OnRq(q, se)
    ensures Owed(t, q, nrRunning, se, delta) && SameInputs(q, Flag(base, top, true))
  {
    RisingOn(t, q, nrRunning, se.g, delta);
    hide Tallies, SeatedBut, Rooted, Adding;
  }

  lemma ClimbRisen(t: Tree, q0: seq<Queue>, base: seq<Queue>, q: seq<Queue>, nrRunning: int, se: Entity,
                   delta: int, dry: nat -> bool, top: int)
    requires Climb(t, q0, base, q, nrRunning, se, delta, dry, top) && !se.Null? && !OnRq(q, se) && !dry(0)
    ensures Queueable(t, q, se)
    ensures Risen(t, Entered(t, q, se, dry), nrRunning, QueueOf(t, se), delta)
  {
    var i: nat := QueueOf(t, se);
    if se.TaskSe? {
      TaskComes(t, q, nrRunning, i, se.p);
    } else {
      RisingIn(t, q, nrRunning, se.g, delta);
    }
    var qp := Put(t, q, se);
    assert Risen(t, qp, nrRunning, i, delta);
    assert q[i].nr == 0 ==> !q[i].onRq;
    if Entered(t, q, se, dry) != qp { RisenThrottled(t, qp, nrRunning, i, delta); }
    hide Tallies, SeatedBut, Rooted, Risen;
  }

  /** What the climb does to the flags, and where it is bound to stop. */
  lemma ClimbFlags(t: Tree, q0: seq<Queue>, base: seq<Queue>, q: seq<Queue>, nrRunning: int, se: Entity,
                   delta: int, dry: nat -> bool, top: int)
    requires Climb(t, q0, base, q, nrRunning, se, delta, dry, top) && !se.Null? && !OnRq(q, se) && !dry(0)
    ensures var i := QueueOf(t, se);
            var q1 := Entered(t, q, se, dry);
            if q1[i].throttled then SameInputs(q1, Flag(base, top, true))
            else SameInputs(q1, base) && (forall x :: 0 <= x < i ==> q1[x] == q0[x])
                 && top == if i == 0 || q1[i].onRq then -1 else NewlyThrottled(t, q0, dry, t.parent[i])
  {
    var i: nat := QueueOf(t, se);
    if se.TaskSe? { NotNegative(t, q, i, -1, 0); } else { NotNegative(t, q, i, i, 0); }
    assert i > 0 ==> Seated(q[i]);
    hide Tallies, Shaped, SeatedBut;
  }

  lemma ClimbPut(t: Tree, q0: seq<Queue>, base: seq<Queue>, q: seq<Queue>, nrRunning: int, se: Entity,
                 delta: int, dry: nat -> bool, top: int)
    requires Climb(t, q0, base, q, nrRunning, se, delta, dry, top) && !se.Null? && !OnRq(q, se) && !dry(0)
    ensures Queueable(t, q, se)
    ensures var i := QueueOf(t, se);
            var q1 := Entered(t, q, se, dry);
            if q1[i].throttled then Owed(t, q1, nrRunning, se, delta) && SameInputs(q1, Flag(base, top, true))
            else Climb(t, q0, base, AddH(q1, i, delta), nrRunning, EntityOf(i), delta, dry, top)
  {
    var i: nat := QueueOf(t, se);
    var q1 := Entered(t, q, se, dry);
    ClimbRisen(t, q0, base, q, nrRunning, se, delta, dry, top);
    ClimbFlags(t, q0, base, q, nrRunning, se, delta, dry, top);
    if q1[i].throttled {
      RisenStopped(t, q1, nrRunning, i, delta);
    } else {
      RisenStep(t, q1, nrRunning, i, delta);
    }
    hide Tallies, SeatedBut, Rooted, Adding, Risen, Rising, Entered, NewlyThrottled, BalancedBut;
  }

  /** The queue that unthrottling `g` causes to be throttled, or -1. */
  function Rethrottled(t: Tree, q: seq<Queue>, dry: nat -> bool, g: nat): (r: int)
    requires Valid(t) && |q| == |t.parent| && 0 < g < |q|
    ensures r < |q|
  {
    if q[g].nr == 0 then -1 else NewlyThrottled(t, Flag(q, g, false), dry, t.parent[g])
  }

  lemma UnthrottleStart(t: Tree, q: seq<Queue>, nrRunning: int, g: nat, dry: nat -> bool)
    requires Balanced(t, q, nrRunning) && 0 < g < |q| && q[g].throttled
    ensures var q1 := Flag(q, g, false);
            if q[g].nr == 0 then Balanced(t, q1, nrRunning)
            else Climb(t, q1, q1, q1, nrRunning, GroupSe(g), q[g].h, dry, Rethrottled(t, q, dry, g))
  {
    FlagTallies(t, q, g, false, -1, 0);
    NotNegative(t, q, g, -1, 0);
    NothingOff(t, Flag(q, g, false), -1, t.parent[g]);
    hide Tallies;
  }

  /** The loop of `unthrottle_cfs_rq` has reached `se`. */
  ghost predicate ReadmitState(t: Tree, base: seq<Queue>, q: seq<Queue>, nrRunning: int, se: Entity,
                               enqueue: bool, delta: int, dry: nat -> bool, top: int) {
    && |q| == |t.parent| && (se.GroupSe? ==> 0 < se.g < |q|) && !se.TaskSe?
    && if enqueue then Climb(t, base, base, q, nrRunning, se, delta, dry, top)
       else Owed(t, q, nrRunning, se, delta) && SameInputs(q, Flag(base, top, true))
  }

  lemma ReadmitRound(t: Tree, base: seq<Queue>, q: seq<Queue>, nrRunning: int, se: Entity,
                     enqueue: bool, delta: int, dry: nat -> bool, top: int)
    requires Shaped(t, q) && ReadmitState(t, base, q, nrRunning, se, enqueue, delta, dry, top)
    requires !se.Null? && !dry(0)
    ensures var e := enqueue && !OnRq(q, se);
            var i := QueueOf(t, se);
            (e ==> Queueable(t, q, se))
            && var q1 := if e then Entered(t, q, se, dry) else q;
            if q1[i].throttled
            then Balanced(t, AddH(q1, i, delta), nrRunning) && SameInputs(AddH(q1, i, delta), Flag(base, top, true))
            else ReadmitState(t, base, AddH(q1, i, delta), nrRunning, EntityOf(i), e, delta, dry, top)
  {
    hide Tallies, SeatedBut, Rooted, NewlyThrottled;
    var e := enqueue && !OnRq(q, se);
    var i: nat := QueueOf(t, se);
    var q1 := if e then Entered(t, q, se, dry) else q;
    if e {
      ClimbPut(t, base, base, q, nrRunning, se, delta, dry, top);
    } else if enqueue {
      ClimbOn(t, base, base, q, nrRunning, se, delta, dry, top);
    }
    hide Climb, Entered;
    if !e || q1[i].throttled {
      AddingStep(t, q1, nrRunning, i, delta, -1);
    }
  }

  lemma ReadmitEnd(t: Tree, base: seq<Queue>, q: seq<Queue>, nrRunning: int, enqueue: bool, delta: int,
                   dry: nat -> bool, top: int)
    requires ReadmitState(t, base, q, nrRunning, Null, enqueue, delta, dry, top)
    ensures Balanced(t, q, nrRunning + delta) && SameInputs(q, Flag(base, top, true))
  {
  }

  // ---------- entities leaving their queues

  function Take(t: Tree, q: seq<Queue>, se: Entity): seq<Queue>
    requires Valid(t) && |q| == |t.parent|
    requires se.TaskSe? ==> se.group < |q|
    requires se.GroupSe? ==> 0 < se.g < |q|
  {
    match se
    case Null => q
    case TaskSe(p, group) => TaskOut(q, group, p)
    case GroupSe(g) => GroupOut(q, g, t.parent[g])
  }

  /** Entities are leaving from the bottom up and `se` is next. */
  ghost predicate Sink(t: Tree, base: seq<Queue>, q: seq<Queue>, nrRunning: int, se: Entity) {
    && Shaped(t, q) && InTree(t, q, se)
    && match se
       case Null => Balanced(t, q, nrRunning - 1) && SameInputs(q, base)
       case TaskSe(p, g) => Balanced(t, q, nrRunning) && p in q[g].tasks && base == TaskOut(q, g, p)
       case GroupSe(c) => Sinking(t, q, nrRunning, c, 1, -1) && SameInputs(q, base)
  }

  lemma SinkRound(t: Tree, base: seq<Queue>, q: seq<Queue>, nrRunning: int, se: Entity)
    requires Sink(t, base, q, nrRunning, se) && !se.Null?
    ensures var i := QueueOf(t, se);
            var q1 := Take(t, q, se);
            var q2 := AddH(q1, i, -1);
            if q1[i].throttled then Owed(t, q1, nrRunning, se, -1) && SameInputs(q1, base)
            else if q2[i].nr != 0 then Owed(t, q2, nrRunning, EntityOf(i), -1) && SameInputs(q2, base)
            else Sink(t, base, q2, nrRunning, EntityOf(i))
  {
    var i: nat := QueueOf(t, se);
    if se.TaskSe? {
      TaskLeaves(t, q, nrRunning, i, se.p);
    } else {
      SinkingStep(t, q, nrRunning, se.g, 1, -1);
    }
    var q1 := Take(t, q, se);
    if q1[i].throttled {
      FallenStopped(t, q1, nrRunning, i, 1, -1);
    } else {
      FallenStep(t, q1, nrRunning, i, 1, -1);
      NotNegative(t, q1, i, i, 1);
    }
    hide Tallies, SeatedBut, Rooted, Adding, Fallen, Sinking;
  }

  /** The throttling loop has reached the entity of `c`. */
  ghost predicate ThrottleState(t: Tree, q: seq<Queue>, nrRunning: int, c: nat, delta: int, dequeue: bool, g: nat) {
    if c >= |q| then false
    else if c == g then 0 < g && dequeue && q[g].h == delta && Balanced(t, q, nrRunning)
    else if c == 0 then BalancedBut(t, q, nrRunning - delta, g)
    else if !q[c].onRq then BalancedBut(t, q, nrRunning, g)
    else if dequeue then Sinking(t, q, nrRunning, c, delta, g)
    else Shaped(t, q) && Adding(t, q, nrRunning, t.parent[c], -delta, g)
  }

  lemma ThrottleRound(t: Tree, q: seq<Queue>, nrRunning: int, c: nat, delta: int, dequeue: bool, g: nat)
    requires ThrottleState(t, q, nrRunning, c, delta, dequeue, g)
    requires 0 < c <= g < |q| && q[c].onRq && Valid(t) && |q| == |t.parent|
    ensures var i := t.parent[c];
            var q' := AddH(if dequeue then GroupOut(q, c, i) else q, i, -delta);
            ThrottleState(t, q', nrRunning, i, delta, dequeue && q'[i].nr == 0, g)
  {
    var i: nat := t.parent[c];
    if dequeue {
      if c == g { ThrottledOut(t, q, nrRunning, g); } else { SinkingStep(t, q, nrRunning, c, delta, g); }
      FallenStep(t, GroupOut(q, c, i), nrRunning, i, delta, g);
    } else {
      AddingStep(t, q, nrRunning, i, -delta, g);
    }
    hide Tallies, Shaped, CountOn, SumOn;
  }

  lemma ThrottleEnd(t: Tree, q: seq<Queue>, nrRunning: int, c: nat, delta: int, dequeue: bool, g: nat)
    requires ThrottleState(t, q, nrRunning, c, delta, dequeue, g) && c <= g < |q| && (c == 0 || !q[c].onRq)
    requires 0 < g && !q[g].onRq
    ensures Balanced(t, Flag(q, g, true), if c == 0 then nrRunning - delta else nrRunning)
  {
    FlagTallies(t, q, g, true, -1, 0);
    hide Tallies, Shaped, CountOn, SumOn;
  }

  lemma {:induction false} EmptySums(kids: seq<nat>, q: seq<Queue>)
    requires Within(kids, q) && forall x :: 0 <= x < |q| ==> !q[x].onRq
    ensures CountOn(kids, q) == 0 && SumOn(kids, q) == 0
  {
    if kids != [] { EmptySums(kids[1..], q); }
  }

  lemma {:induction false} EmptyAbove(t: Tree, q: seq<Queue>, x: nat)
    requires Valid(t) && |q| == |t.parent| && x < |q| && forall y :: 0 <= y < |q| ==> !q[y].throttled
    ensures Above(t, q, x) == 0
  {
    if x > 0 { EmptyAbove(t, q, t.parent[x]); }
  }

  lemma EmptyQueues(t: Tree, q: seq<Queue>, tc: seq<int>)
    requires Valid(t) && |q| == |t.parent| == |tc|
    requires forall x :: 0 <= x < |q| ==> q[x] == Queue({}, 0, 0, false, false) && tc[x] == 0
    ensures Shaped(t, q) && Counted(t, q, tc) && Balanced(t, q, 0)
  {
    forall x | 0 <= x < |q| ensures Above(t, q, x) == 0 && Within(t.children[x], q) {
      EmptyAbove(t, q, x);
    }
    forall x | 0 <= x < |q| ensures Tally(t, q, x, -1, 0) { EmptySums(t.children[x], q); }
  }

  // ---------- the state is determined by the tasks and the throttled flags

  lemma {:induction false} SumsAgree(kids: seq<nat>, q: seq<Queue>, r: seq<Queue>)
    requires Within(kids, q) && |q| == |r| && forall i :: 0 <= i < |kids| ==> q[kids[i]] == r[kids[i]]
    ensures CountOn(kids, q) == CountOn(kids, r) && SumOn(kids, q) == SumOn(kids, r)
  {
    if kids != [] { SumsAgree(kids[1..], q, r); }
  }

  lemma {:induction false} AgreeFrom(t: Tree, q: seq<Queue>, r: seq<Queue>, n: int, m: int, k: nat)
    requires Balanced(t, q, n) && Balanced(t, r, m) && SameInputs(q, r) && k <= |q|
    ensures forall x :: k <= x < |q| ==> q[x] == r[x]
    decreases |q| - k
  {
    if k < |q| {
      AgreeFrom(t, q, r, n, m, k + 1);
      SumsAgree(t.children[k], q, r);
      assert Tally(t, q, k, -1, 0) && Tally(t, r, k, -1, 0);
      hide CountOn, SumOn;
      assert k > 0 ==> Seated(q[k]) && Seated(r[k]);
      assert q[k] == r[k];
    }
  }

  /** Two balanced states with the same tasks queued and the same queues throttled are equal,
      whatever led to them. */
  lemma Canonical(t: Tree, q: seq<Queue>, r: seq<Queue>, n: int, m: int)
    requires Balanced(t, q, n) && Balanced(t, r, m) && SameInputs(q, r)
    ensures q == r && n == m
  {
    AgreeFrom(t, q, r, n, m, 0);
  }

  // ---------- what the counts mean

  /** The tasks of each queue that neither it nor an ancestor holds back. */
  ghost function Free(t: Tree, q: seq<Queue>): (r: seq<nat>)
    requires Valid(t) && |q| == |t.parent|
    ensures |r| == |q| && forall x :: 0 <= x < |q| ==> r[x] == if Above(t, q, x) == 0 then |q[x].tasks| else 0
  {
    seq(|q|, x requires 0 <= x < |q| => if Above(t, q, x) == 0 then |q[x].tasks| else 0)
  }

  /** A queue's hierarchical count is the number of tasks below it that are not held back. */
  lemma {:induction false} CountIsFree(t: Tree, q: seq<Queue>, n: int, g: nat)
    requires Balanced(t, q, n) && g < |q|
    ensures TraceSum(Free(t, q), Trace(t, g)) == if Above(t, q, g) == 0 then q[g].h else 0
    decreases |t.parent| - g, 1, 0
  {
    CountIsFreeFrom(t, q, n, g, 0);
    assert Trace(t, g)[1..] == TraceFrom(t, g, 0);
    assert t.children[g][0..] == t.children[g];
    assert Tally(t, q, g, -1, 0);
  }

  lemma {:induction false} CountIsFreeFrom(t: Tree, q: seq<Queue>, n: int, g: nat, i: nat)
    requires Balanced(t, q, n) && g < |q| && i <= |t.children[g]|
    ensures TraceSum(Free(t, q), TraceFrom(t, g, i)) == if Above(t, q, g) == 0 then SumOn(t.children[g][i..], q) else 0
    decreases |t.parent| - g, 0, |t.children[g]| - i
  {
    if i < |t.children[g]| {
      var c := t.children[g][i];
      CountIsFree(t, q, n, c);
      CountIsFreeFrom(t, q, n, g, i + 1);
      TraceSumConcat(Free(t, q), Trace(t, c), TraceFrom(t, g, i + 1));
      assert t.children[g][i..][1..] == t.children[g][i + 1..];
      assert Seated(q[c]);
      NotNegative(t, q, c, -1, 0);
      if q[c].nr == 0 { EmptyHasNoTasks(t, q, c, -1, 0); }
    }
  }

  /** Tasks that run: those on queues whose throttle_count is zero. */
  function Running(q: seq<Queue>, tc: seq<int>, k: nat): nat
    requires k <= |q| == |tc|
  {
    if k == 0 then 0 else Running(q, tc, k - 1) + if tc[k - 1] == 0 then |q[k - 1].tasks| else 0
  }

  lemma {:induction false} SumIsRunning(t: Tree, q: seq<Queue>, tc: seq<int>, k: nat)
    requires Counted(t, q, tc) && k <= |q|
    ensures SumUnder(t, 0, Free(t, q), k) == Running(q, tc, k)
  {
    if k > 0 {
      UnderRoot(t, k - 1);
      SumIsRunning(t, q, tc, k - 1);
    }
  }

  /** The CPU's nr_running is the number of tasks queued on queues whose throttle_count is zero. */
  lemma NrRunningCountsFreeTasks(t: Tree, q: seq<Queue>, tc: seq<int>, nrRunning: int)
    requires Balanced(t, q, nrRunning) && Counted(t, q, tc)
    ensures nrRunning == Running(q, tc, |q|)
  {
    CountIsFree(t, q, nrRunning, 0);
    assert Above(t, q, 0) == 0;
    TraceSumIsSum(t, 0, Free(t, q));
    SumIsRunning(t, q, tc, |q|);
  }

  // ---------- queued all the way up

  /** The entities of group `i` and of all groups above it are queued. */
  ghost predicate QueuedUp(t: Tree, q: seq<Queue>, i: nat)
    requires Valid(t) && |q| == |t.parent| && i < |q|
    decreases i
  {
    i == 0 || (q[i].onRq && QueuedUp(t, q, t.parent[i]))
  }

  /** A queue that is not empty is reached from the root exactly when its throttle_count is zero. */
  lemma {:induction false} ReachedExactlyWhenFree(t: Tree, q: seq<Queue>, n: int, i: nat)
    requires Balanced(t, q, n) && i < |q| && q[i].nr > 0
    ensures QueuedUp(t, q, i) <==> Above(t, q, i) == 0
    decreases i
  {
    if i > 0 {
      assert Seated(q[i]);
      if q[i].onRq {
        ParentNotEmpty(t, q, i, -1, 0);
        ReachedExactlyWhenFree(t, q, n, t.parent[i]);
      }
    }
  }
}
