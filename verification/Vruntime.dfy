/** The virtual time of one task over its life: on a queue, asleep, and on its way to a queue. */
module Vruntime {
  import opened Wrap64
  import opened FairQueues

  /** Queued and asleep a task's virtual time is absolute; detached, while it is being forked, woken or
      moved, it is relative to the clock of the queue it left. */
  datatype Mode = Queued | Sleeping | Detached(woken: bool)

  /** The task as stored: 64-bit counters. */
  datatype Stored = Stored(v: u64, mode: Mode, cpu: nat, clocks: seq<u64>)

  /** The task as meant: virtual times that never wrap. */
  datatype Meant = Meant(v: int, mode: Mode, cpu: nat, clocks: seq<int>)

  datatype Step =
    | Run(delta: nat)             // update_curr
    | Clock(c: nat, ahead: int)   // update_min_vruntime on queue c, towards a time `ahead` of its clock
    | Sleep                       // dequeue_entity with DEQUEUE_SLEEP
    | Waking                      // task_waking_fair
    | Detach                      // dequeue_entity without it
    | SetCpu(c: nat)              // set_task_cpu
    | Attach(thresh: nat)         // enqueue_entity, with ENQUEUE_WAKEUP | ENQUEUE_WAKING if woken
    | WakeLocal(thresh: nat)      // enqueue_entity with ENQUEUE_WAKEUP alone

  function Max(a: int, b: int): int {
    if b > a then b else a
  }

  function Neg(a: int): int {
    -a
  }

  /** Two times less than half the range apart. */
  predicate Near(a: int, b: int) {
    -HALF < a - b < HALF
  }

  predicate Enabled(a: Meant, s: Step) {
    && a.cpu < |a.clocks|
    && match s
       case Run(_) => a.mode.Queued?
       case Clock(c, ahead) => c < |a.clocks| && Near(ahead, 0)
       case Sleep => a.mode.Queued?
       case Waking => a.mode.Sleeping?
       case Detach => a.mode.Queued?
       case SetCpu(c) => a.mode.Detached? && c < |a.clocks|
       case Attach(thresh) => a.mode.Detached? && (a.mode.woken ==> Near(a.v, Neg(thresh)))
       case WakeLocal(thresh) => a.mode.Sleeping? && Near(a.v, a.clocks[a.cpu] - thresh)
  }

  /** What each step is for. */
  function Mean(a: Meant, s: Step): Meant
    requires Enabled(a, s)
  {
    var clock := a.clocks[a.cpu];
    match s
    case Run(delta) => a.(v := a.v + delta)
    case Clock(c, ahead) => a.(clocks := a.clocks[c := Max(a.clocks[c], a.clocks[c] + ahead)])
    case Sleep => a.(mode := Sleeping)
    case Waking => a.(v := a.v - clock, mode := Detached(true))
    case Detach => a.(v := a.v - clock, mode := Detached(false))
    case SetCpu(c) => a.(cpu := c)
    case Attach(thresh) =>
      a.(v := if a.mode.woken then Max(a.v + clock, clock - thresh) else a.v + clock, mode := Queued)
    case WakeLocal(thresh) => a.(v := Max(a.v, clock - thresh), mode := Queued)
  }

  /** What the code does. */
  function Do(t: Stored, s: Step): Stored {
    var clock := if t.cpu < |t.clocks| then t.clocks[t.cpu] else 0;
    match s
    case Run(delta) => t.(v := U64(t.v + delta))
    case Clock(c, ahead) =>
      if c >= |t.clocks| then t
      else t.(clocks := t.clocks[c := MaxV(t.clocks[c], U64(t.clocks[c] + ahead))])
    case Sleep => t.(v := Leaving(t.v, clock, true), mode := Sleeping)
    case Waking => t.(v := U64(t.v - clock), mode := Detached(true))
    case Detach => t.(v := Leaving(t.v, clock, false), mode := Detached(false))
    case SetCpu(c) => t.(cpu := c)
    case Attach(thresh) =>
      var woken := t.mode.Detached? && t.mode.woken;
      t.(v := PlacedAt(Rebased(t.v, clock, woken, woken), clock, woken, thresh), mode := Queued)
    case WakeLocal(thresh) =>
      t.(v := PlacedAt(Rebased(t.v, clock, true, false), clock, true, thresh), mode := Queued)
  }

  ghost predicate Stands(t: Stored, a: Meant) {
    && t.v == U64(a.v) && t.mode == a.mode && t.cpu == a.cpu && |t.clocks| == |a.clocks|
    && forall c :: 0 <= c < |a.clocks| ==> t.clocks[c] == U64(a.clocks[c])
  }

  /** The wrapped maximum of near times is the wrapped maximum. */
  lemma MaxVIsMax(a: int, b: int)
    requires Near(a, b)
    ensures MaxV(U64(a), U64(b)) == U64(Max(a, b))
  {
    SignedDifference(b, a);
  }

  lemma WrapBoth(a: int, b: int)
    ensures U64(U64(a) - U64(b)) == U64(a - b) && U64(U64(a) + U64(b)) == U64(a + b)
  {
    var x, y: int := U64(a), U64(b);
    WrapSub(x, b);
    WrapAdd(a, -b);
    WrapAdd(a, y);
    WrapAdd(b, a);
  }

  lemma ClockSimulates(t: Stored, a: Meant, c: nat, ahead: int)
    requires Stands(t, a) && Enabled(a, Clock(c, ahead))
    ensures Stands(Do(t, Clock(c, ahead)), Mean(a, Clock(c, ahead)))
  {
    WrapAdd(a.clocks[c], ahead);
    MaxVIsMax(a.clocks[c], a.clocks[c] + ahead);
    hide MaxV, U64, S64;
  }

  lemma AttachSimulates(t: Stored, a: Meant, s: Step)
    requires Stands(t, a) && Enabled(a, s) && (s.Attach? || s.WakeLocal?)
    ensures Stands(Do(t, s), Mean(a, s))
  {
    var clock := a.clocks[a.cpu];
    WrapBoth(a.v, clock);
    WrapAdd(clock, Neg(s.thresh));
    if s.WakeLocal? {
      MaxVIsMax(a.v, clock - s.thresh);
    } else if a.mode.woken {
      MaxVIsMax(a.v + clock, clock - s.thresh);
    }
    hide MaxV, U64, S64;
  }

  /** Every step on wrapped counters stands for the step on integers. */
  lemma StepSimulates(t: Stored, a: Meant, s: Step)
    requires Stands(t, a) && Enabled(a, s)
    ensures Stands(Do(t, s), Mean(a, s))
  {
    if s.Clock? {
      ClockSimulates(t, a, s.c, s.ahead);
    } else if s.Attach? || s.WakeLocal? {
      AttachSimulates(t, a, s);
    } else {
      WrapBoth(a.v, a.clocks[a.cpu]);
      if s.Run? { WrapAdd(a.v, s.delta); }
      hide MaxV, U64, S64;
    }
  }

  // ---------- runs

  ghost predicate IsRun(a: Meant, steps: seq<Step>)
    decreases |steps|
  {
    steps == [] || (Enabled(a, steps[0]) && IsRun(Mean(a, steps[0]), steps[1..]))
  }

  function After(a: Meant, steps: seq<Step>): Meant
    requires IsRun(a, steps)
    decreases |steps|
  {
    if steps == [] then a else After(Mean(a, steps[0]), steps[1..])
  }

  function DoAll(t: Stored, steps: seq<Step>): Stored
    decreases |steps|
  {
    if steps == [] then t else DoAll(Do(t, steps[0]), steps[1..])
  }

  /** So does every run. */
  lemma {:induction false} RunSimulates(t: Stored, a: Meant, steps: seq<Step>)
    requires Stands(t, a) && IsRun(a, steps)
    ensures Stands(DoAll(t, steps), After(a, steps))
    decreases |steps|
  {
    if steps != [] {
      StepSimulates(t, a, steps[0]);
      RunSimulates(Do(t, steps[0]), Mean(a, steps[0]), steps[1..]);
    }
  }

  /** The clocks of all queues only move forward. */
  lemma {:induction false} ClocksForward(a: Meant, steps: seq<Step>)
    requires IsRun(a, steps)
    ensures var b := After(a, steps);
            |b.clocks| == |a.clocks| && forall c :: 0 <= c < |a.clocks| ==> b.clocks[c] >= a.clocks[c]
    decreases |steps|
  {
    if steps != [] { ClocksForward(Mean(a, steps[0]), steps[1..]); }
  }

  /** Between leaving one queue and joining another, wherever the task goes and however the clocks move,
      its distance from the clock stays what it was. */
  lemma {:induction false} DetachedKeepsOffset(a: Meant, steps: seq<Step>)
    requires IsRun(a, steps) && a.mode.Detached? && forall i :: 0 <= i < |steps| ==> !steps[i].Attach?
    ensures var b := After(a, steps); b.mode == a.mode && b.v == a.v
    decreases |steps|
  {
    if steps != [] { DetachedKeepsOffset(Mean(a, steps[0]), steps[1..]); }
  }

  lemma MoveKeepsOffset(a: Meant, between: seq<Step>, thresh: nat)
    requires Enabled(a, Detach) && IsRun(Mean(a, Detach), between)
    requires forall i :: 0 <= i < |between| ==> !between[i].Attach?
    requires Enabled(After(Mean(a, Detach), between), Attach(thresh))
    ensures var b := Mean(After(Mean(a, Detach), between), Attach(thresh));
            b.mode.Queued? && b.v - b.clocks[b.cpu] == a.v - a.clocks[a.cpu]
  {
    DetachedKeepsOffset(Mean(a, Detach), between);
  }

  /** A sleeper comes back where it was, measured from the clock, or `thresh` behind the clock,
      whichever is later. */
  lemma WakeBoundsOffset(a: Meant, between: seq<Step>, thresh: nat)
    requires Enabled(a, Waking) && IsRun(Mean(a, Waking), between)
    requires forall i :: 0 <= i < |between| ==> !between[i].Attach?
    requires Enabled(After(Mean(a, Waking), between), Attach(thresh))
    ensures var b := Mean(After(Mean(a, Waking), between), Attach(thresh));
            b.mode.Queued? && b.v - b.clocks[b.cpu] == Max(a.v - a.clocks[a.cpu], Neg(thresh))
  {
    DetachedKeepsOffset(Mean(a, Waking), between);
  }

  // ---------- fork

  /** `task_fork_fair`: the virtual times of the child, relative, and of the parent. `curr` is the
      parent's, `slice` what START_DEBIT adds. */
  function Forked(curr: u64, clock: u64, slice: nat, childFirst: bool): (r: (u64, u64)) {
    var child := MaxV(curr, U64(clock + slice));
    if childFirst && S64(curr - child) < 0 then (U64(curr - clock), child) else (U64(child - clock), curr)
  }

  /** Once the child is queued by the same clock, it and the parent share out the parent's virtual time and
      the later of that and the end of the current period; told to, the child goes first. */
  lemma ForkPlaces(curr: int, clock: int, slice: nat, childFirst: bool)
    requires Near(curr, clock + slice)
    ensures var (child, parent) := Forked(U64(curr), U64(clock), slice, childFirst);
            var late := Max(curr, clock + slice);
            (U64(child + U64(clock)), parent)
            == if childFirst && late > curr then (U64(curr), U64(late)) else (U64(late), U64(curr))
  {
    hide MaxV, U64, S64;
    var late := Max(curr, clock + slice);
    WrapAdd(clock, slice);
    MaxVIsMax(curr, clock + slice);
    SignedDifference(curr, late);
    WrapBoth(curr, clock);
    WrapBoth(late, clock);
    WrapBoth(curr - clock, clock);
    WrapBoth(late - clock, clock);
  }
}
