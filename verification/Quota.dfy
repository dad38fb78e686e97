/** Bandwidth control: the quota pool of one task group, the local pools of its run queues, and
    the two timers that hand out runtime with the pool's lock dropped. */
module Quota {
  import opened Wrap64

  /** A run queue's local pool. */
  datatype CfsRq = CfsRq(remaining: int, expires: u64, throttled: bool)

  /** Runtime a timer has taken from the pool and is still distributing. */
  datatype Timer = Off | Holding(held: nat, expires: u64)

  /** The group's pool; `quota` and `slice` never change. `consumed` and `refills` are the ledger. */
  datatype State = State(quota: nat, slice: nat, runtime: nat, expires: u64, timerActive: bool, idle: bool,
                         queues: seq<CfsRq>, period: Timer, slack: Timer, consumed: nat, refills: nat)

  /** `min_cfs_rq_runtime` and the drift allowance, in nanoseconds. */
  const MIN_CFS_RQ_RUNTIME: nat := 1_000_000
  const TICK_NSEC: nat := 10_000_000

  /** The pool's lock is released between a refill and the start of its timer, so others can refill again; and
      the list of throttled queues is not always in step with their flags, so what the period timer finds there
      (`listed`) and when it stops handing out is left open. */
  datatype Step =
    | Account(c: nat, delta: nat, clock: u64)
    | AssignRefill(c: nat, expires: u64)
    | TimerStart
    | AssignTake(c: nat)
    | ReturnSlack(c: nat)
    | Throttle(c: nat)
    | PeriodStop
    | PeriodRefill(expires: u64, listed: bool)
    | PeriodGive(c: nat)
    | PeriodEnd
    | SlackTake
    | SlackGive(c: nat)
    | SlackEnd

  /** `expire_cfs_rq_runtime`. */
  function Expire(q: CfsRq, clock: u64, global: u64): CfsRq {
    if S64(clock - q.expires) < 0 || q.remaining < 0 then q
    else if S64(q.expires - global) >= 0 then q.(expires := U64(q.expires + TICK_NSEC))
    else q.(remaining := 0)
  }

  /** What `distribute_cfs_runtime` gives a throttled queue; the sum is computed on 64 bits. */
  function Share(q: CfsRq, held: nat): nat {
    var want := U64(1 - q.remaining);
    if want > held then held else want
  }

  function Given(q: CfsRq, held: nat, expires: u64): CfsRq {
    var r := q.remaining + Share(q, held);
    CfsRq(r, expires, r <= 0)
  }

  function Min(a: nat, b: nat): nat {
    if a < b then a else b
  }

  predicate Enabled(s: State, step: Step) {
    match step
    case Account(c, delta, clock) => c < |s.queues| && !s.queues[c].throttled
    case AssignRefill(c, expires) =>
      c < |s.queues| && !s.queues[c].throttled && s.queues[c].remaining <= 0 && !s.timerActive
    case AssignTake(c) => c < |s.queues| && !s.queues[c].throttled && s.queues[c].remaining <= 0
    case ReturnSlack(c) => c < |s.queues|
    case Throttle(c) => c < |s.queues| && s.queues[c].remaining <= 0
    case TimerStart => !s.timerActive
    case PeriodStop => s.period.Off? && s.idle
    case PeriodRefill(expires, listed) => s.period.Off? && (!s.idle || listed)
    case PeriodGive(c) => s.period.Holding? && s.period.held > 0 && c < |s.queues| && s.queues[c].throttled
    case PeriodEnd => s.period.Holding?
    case SlackTake => s.slack.Off? && s.runtime > s.slice
    case SlackGive(c) => s.slack.Holding? && s.slack.held > 0 && c < |s.queues| && s.queues[c].throttled
    case SlackEnd => s.slack.Holding?
  }

  function Apply(s: State, step: Step): State
    requires Enabled(s, step)
  {
    match step
    case Account(c, delta, clock) =>
      var q := s.queues[c].(remaining := s.queues[c].remaining - delta);
      s.(queues := s.queues[c := Expire(q, clock, s.expires)], consumed := s.consumed + delta)
    case AssignRefill(c, expires) =>
      s.(runtime := s.quota, expires := expires, refills := s.refills + 1)
    case TimerStart => s.(timerActive := true)
    case AssignTake(c) =>
      var q := s.queues[c];
      var amount := Min(s.runtime, s.slice - q.remaining);
      var e := if S64(s.expires - q.expires) > 0 then s.expires else q.expires;
      s.(runtime := s.runtime - amount, idle := s.idle && s.runtime == 0,
         queues := s.queues[c := q.(remaining := q.remaining + amount, expires := e)])
    case ReturnSlack(c) =>
      var q := s.queues[c];
      var extra := q.remaining - MIN_CFS_RQ_RUNTIME;
      if extra <= 0 then s
      else s.(runtime := s.runtime + (if q.expires == s.expires then extra else 0),
              queues := s.queues[c := q.(remaining := q.remaining - extra)])
    case Throttle(c) => s.(queues := s.queues[c := s.queues[c].(throttled := true)])
    case PeriodStop => s.(timerActive := false)
    case PeriodRefill(expires, listed) =>
      if listed
      then s.(runtime := 0, period := Holding(s.quota, expires), expires := expires, refills := s.refills + 1)
      else s.(runtime := s.quota, idle := true, expires := expires, refills := s.refills + 1)
    case PeriodGive(c) =>
      var q := s.queues[c];
      s.(queues := s.queues[c := Given(q, s.period.held, s.period.expires)],
         period := Holding(s.period.held - Share(q, s.period.held), s.period.expires))
    case PeriodEnd => s.(runtime := s.period.held, idle := false, period := Off)
    case SlackTake => s.(runtime := 0, slack := Holding(s.runtime, s.expires))
    case SlackGive(c) =>
      var q := s.queues[c];
      s.(queues := s.queues[c := Given(q, s.slack.held, s.slack.expires)],
         slack := Holding(s.slack.held - Share(q, s.slack.held), s.slack.expires))
    case SlackEnd =>
      s.(runtime := if s.slack.expires == s.expires then s.slack.held else s.runtime, slack := Off)
  }

  // ---------- the ledger

  function Remaining(qs: seq<CfsRq>): int {
    if qs == [] then 0 else Remaining(qs[..|qs| - 1]) + qs[|qs| - 1].remaining
  }

  function Deficit(qs: seq<CfsRq>): nat {
    if qs == [] then 0
    else Deficit(qs[..|qs| - 1]) + if qs[|qs| - 1].remaining < 0 then -qs[|qs| - 1].remaining else 0
  }

  function Held(t: Timer): nat {
    if t.Off? then 0 else t.held
  }

  /** Runtime handed out but not used yet: in the pool, in the local pools, in a timer's hands. */
  function Outstanding(s: State): int {
    s.runtime + Remaining(s.queues) + Held(s.period) + Held(s.slack)
  }

  lemma {:induction false} RemainingUpdate(qs: seq<CfsRq>, c: nat, q: CfsRq)
    requires c < |qs|
    ensures Remaining(qs[c := q]) == Remaining(qs) + q.remaining - qs[c].remaining
  {
    var n := |qs| - 1;
    if c == n {
      assert qs[c := q][..n] == qs[..n];
    } else {
      assert qs[c := q][..n] == qs[..n][c := q];
      RemainingUpdate(qs[..n], c, q);
    }
  }

  lemma {:induction false} DeficitCovers(qs: seq<CfsRq>)
    ensures Remaining(qs) + Deficit(qs) >= 0
  {
    if qs != [] { DeficitCovers(qs[..|qs| - 1]); }
  }

  /** What a step brings in: a refill, one quota. */
  function Added(s: State, step: Step): nat {
    if step.AssignRefill? || step.PeriodRefill? then s.quota else 0
  }

  /** What a step throws away: local runtime that has expired or comes back too late, what the pool held
      when a refill or a timer overwrites it, and what the slack timer brings back after a refill. */
  function Forfeited(s: State, step: Step): nat
    requires Enabled(s, step)
  {
    match step
    case Account(c, delta, clock) =>
      var q := s.queues[c];
      if q.remaining - delta >= 0 && S64(clock - q.expires) >= 0 && S64(q.expires - s.expires) < 0
      then q.remaining - delta else 0
    case AssignRefill(_, _) => s.runtime
    case ReturnSlack(c) =>
      var q := s.queues[c];
      if q.remaining > MIN_CFS_RQ_RUNTIME && q.expires != s.expires then q.remaining - MIN_CFS_RQ_RUNTIME else 0
    case PeriodRefill(_, _) => s.runtime
    case PeriodEnd => s.runtime
    case SlackEnd => if s.slack.expires == s.expires then s.runtime else s.slack.held
    case _ => 0
  }

  /** The ledger of one step, to the nanosecond: what is consumed comes out of what was outstanding or
      is added, and what is lost is exactly what the step throws away. */
  lemma StepIsExact(s: State, step: Step)
    requires Enabled(s, step)
    ensures var s' := Apply(s, step);
            s'.consumed + Outstanding(s') + Forfeited(s, step) == s.consumed + Outstanding(s) + Added(s, step)
  {
    hide Remaining, S64, U64;
    var s' := Apply(s, step);
    if s'.queues != s.queues {
      var c := step.c;
      RemainingUpdate(s.queues, c, s'.queues[c]);
    }
  }

  /** No step creates runtime except a refill, which adds at most one quota. */
  lemma StepConserves(s: State, step: Step)
    requires Enabled(s, step)
    ensures var s' := Apply(s, step);
            && s'.quota == s.quota && s'.slice == s.slice && |s'.queues| == |s.queues|
            && s.refills <= s'.refills <= s.refills + 1 && s.consumed <= s'.consumed
            && s'.consumed - s.consumed + Outstanding(s') - Outstanding(s)
               <= if s'.refills == s.refills then 0 else s.quota
  {
    StepIsExact(s, step);
    hide Outstanding;
  }

  ghost predicate Init(s: State) {
    && s.consumed == 0 && s.refills == 1 && s.runtime <= s.quota
    && s.period.Off? && s.slack.Off?
    && (forall i :: 0 <= i < |s.queues| ==> s.queues[i].remaining <= 0 && !s.queues[i].throttled)
  }

  ghost predicate IsRun(run: seq<State>, steps: seq<Step>) {
    && |run| == |steps| + 1
    && Init(run[0])
    && forall i :: 0 <= i < |steps| ==> Enabled(run[i], steps[i]) && run[i + 1] == Apply(run[i], steps[i])
  }

  /** Over any stretch of any interleaving, the time consumed is covered by the quota of the
      refills in it and by what was outstanding before and is not any more. */
  lemma {:induction false} WindowLedger(run: seq<State>, steps: seq<Step>, i: nat, j: nat)
    requires IsRun(run, steps) && i <= j < |run|
    ensures run[j].quota == run[i].quota && run[j].slice == run[i].slice && |run[j].queues| == |run[i].queues|
    ensures run[i].refills <= run[j].refills
    ensures run[j].consumed - run[i].consumed + Outstanding(run[j])
         <= Outstanding(run[i]) + run[i].quota * (run[j].refills - run[i].refills)
    decreases j
  {
    hide Apply, Enabled, Outstanding;
    if i == j {
    } else {
      WindowLedger(run, steps, i, j - 1);
      StepConserves(run[j - 1], steps[j - 1]);
      var n := run[j - 1].refills - run[i].refills;
      assert run[i].quota * (n + 1) == run[i].quota * n + run[i].quota;
    }
  }

  lemma {:induction false} NothingRemains(qs: seq<CfsRq>)
    requires forall i :: 0 <= i < |qs| ==> qs[i].remaining <= 0
    ensures Remaining(qs) <= 0
  {
    if qs != [] { NothingRemains(qs[..|qs| - 1]); }
  }

  lemma StartsWithOneQuota(s: State)
    requires Init(s)
    ensures Outstanding(s) <= s.quota
  {
    NothingRemains(s.queues);
  }

  lemma DebtsCover(s: State)
    ensures Outstanding(s) + Deficit(s.queues) >= 0
  {
    DeficitCovers(s.queues);
  }

  lemma QuotaMore(q: nat, n: int)
    ensures q * n == q + q * (n - 1)
  {
  }

  /** In every interleaving of accounting, assignment, expiry, slack return, throttling and both
      timers, time consumed is at most quota times refills plus the outstanding deficits. */
  lemma ConsumptionIsCovered(run: seq<State>, steps: seq<Step>, j: nat)
    requires IsRun(run, steps) && j < |run|
    ensures run[j].consumed <= run[j].quota * run[j].refills + Deficit(run[j].queues)
  {
    WindowLedger(run, steps, 0, j);
    StartsWithOneQuota(run[0]);
    DebtsCover(run[j]);
    hide Apply, Enabled, Outstanding, Deficit;
    QuotaMore(run[j].quota, run[j].refills);
  }

  // ---------- local pools stay small

  ghost predicate Bounded(s: State) {
    forall i :: 0 <= i < |s.queues| ==>
      && s.queues[i].remaining <= (if s.slice > 1 then s.slice else 1)
      && (s.queues[i].throttled ==> s.queues[i].remaining <= 0)
  }

  lemma StepKeepsBounded(s: State, step: Step)
    requires Bounded(s) && Enabled(s, step)
    ensures Bounded(Apply(s, step))
  {
    var s' := Apply(s, step);
    if s'.queues != s.queues {
      var q := s.queues[step.c];
      assert q.throttled ==> q.remaining <= 0;
      if step.PeriodGive? || step.SlackGive? {
        assert U64(1 - q.remaining) <= 1 - q.remaining;
      }
    }
  }

  /** In every interleaving a throttled queue has nothing left, so the 64-bit sum in the
      distribution never wraps for it unless its debt does, and no local pool exceeds a slice. */
  lemma {:induction false} RunsStayBounded(run: seq<State>, steps: seq<Step>, j: nat)
    requires IsRun(run, steps) && j < |run|
    ensures Bounded(run[j])
    decreases j
  {
    if j > 0 {
      RunsStayBounded(run, steps, j - 1);
      StepKeepsBounded(run[j - 1], steps[j - 1]);
    }
  }

  // ---------- how much each step moves

  /** All other queues stay as they are. */
  predicate OnlyQueue(s: State, s': State, c: nat) {
    |s'.queues| == |s.queues| && forall i :: 0 <= i < |s.queues| && i != c ==> s'.queues[i] == s.queues[i]
  }

  /** `assign_cfs_rq_runtime` fills the queue up to one slice or empties the pool; it succeeds exactly when the
      pool held more than the queue's debt. The queue's deadline is then not behind the pool's. */
  lemma TakeFillsTheSlice(s: State, c: nat)
    requires Enabled(s, AssignTake(c))
    ensures var s' := Apply(s, AssignTake(c));
            var q, q' := s.queues[c], s'.queues[c];
            && OnlyQueue(s, s', c)
            && (s'.runtime == 0 || q'.remaining == s.slice)
            && (q'.remaining > 0 <==> s.slice > 0 && s.runtime > -q.remaining)
            && S64(s.expires - q'.expires) <= 0 && (q'.expires == s.expires || q'.expires == q.expires)
            && (s.runtime > 0 ==> !s'.idle)
  {
  }

  /** `distribute_cfs_runtime` gives a throttled queue what it needs to run again and no more, or all it has;
      the queue is unthrottled exactly if it then has runtime. Debts are 64-bit numbers. */
  lemma GiveReleases(s: State, step: Step)
    requires Bounded(s) && Enabled(s, step) && (step.PeriodGive? || step.SlackGive?)
    requires s.queues[step.c].remaining >= -HALF
    ensures var s', t := Apply(s, step), if step.PeriodGive? then s.period else s.slack;
            var t', q' := if step.PeriodGive? then s'.period else s'.slack, s'.queues[step.c];
            && OnlyQueue(s, s', step.c) && t'.Holding? && t'.expires == t.expires == q'.expires
            && (t'.held == 0 || q'.remaining == 1)
            && (q'.throttled <==> q'.remaining <= 0) && q'.remaining <= 1
  {
    var q := s.queues[step.c];
    assert q.throttled && q.remaining <= 0;
    assert U64(1 - q.remaining) == 1 - q.remaining;
    hide S64;
  }

  /** `account_cfs_rq_runtime` charges the queue. Runtime that is left after its deadline is lost if the pool's
      deadline has moved on, and otherwise the deadline is put off by a tick. */
  lemma AccountCharges(s: State, c: nat, delta: nat, clock: u64)
    requires Enabled(s, Account(c, delta, clock))
    ensures var s' := Apply(s, Account(c, delta, clock));
            var q, q', left := s.queues[c], s'.queues[c], s.queues[c].remaining - delta;
            var passed, movedOn := S64(clock - q.expires) >= 0, S64(q.expires - s.expires) < 0;
            && s'.consumed == s.consumed + delta && OnlyQueue(s, s', c) && s'.runtime == s.runtime
            && q'.remaining == (if passed && left >= 0 && movedOn then 0 else left)
            && q'.expires == (if passed && left >= 0 && !movedOn then U64(q.expires + TICK_NSEC) else q.expires)
            && q'.throttled == q.throttled
  {
  }

  /** `return_cfs_rq_runtime` leaves the queue at most the minimum and gives the rest back, if it is of the same
      period. */
  lemma ReturnLeavesTheMinimum(s: State, c: nat)
    requires Enabled(s, ReturnSlack(c))
    ensures var s' := Apply(s, ReturnSlack(c));
            var q, q' := s.queues[c], s'.queues[c];
            && OnlyQueue(s, s', c) && q'.expires == q.expires && q'.throttled == q.throttled
            && q'.remaining <= MIN_CFS_RQ_RUNTIME && (q'.remaining == q.remaining || q'.remaining == MIN_CFS_RQ_RUNTIME)
            && q'.remaining <= q.remaining
            && s'.runtime - s.runtime == if q.expires == s.expires then q.remaining - q'.remaining else 0
  {
  }

  /** What a timer takes is the whole pool, what it refills is one quota, and what it brings back is what it still
      holds, unless the period has changed under the slack timer. */
  lemma TimersHandOver(s: State, step: Step)
    requires Enabled(s, step)
    ensures var s' := Apply(s, step);
            match step
            case AssignRefill(_, expires) => s'.runtime == s.quota && s'.expires == expires && s'.queues == s.queues
            case PeriodRefill(expires, listed) =>
              && s'.runtime + Held(s'.period) == s.quota && s'.expires == expires && s'.queues == s.queues
              && (listed ==> s'.period == Holding(s.quota, expires)) && (!listed ==> s'.idle && s'.period.Off?)
            case PeriodEnd => s'.runtime == Held(s.period) && s'.period.Off? && !s'.idle && s'.queues == s.queues
            case PeriodStop => !s'.timerActive && s'.runtime == s.runtime
            case TimerStart => s'.timerActive && s'.runtime == s.runtime
            case SlackTake => s'.runtime == 0 && s'.slack == Holding(s.runtime, s.expires) && s'.queues == s.queues
            case SlackEnd =>
              && s'.slack.Off? && s'.queues == s.queues
              && s'.runtime == (if s.slack.expires == s.expires then Held(s.slack) else s.runtime)
            case Throttle(c) => OnlyQueue(s, s', c) && s'.queues[c] == s.queues[c].(throttled := true)
            case _ => true
  {
  }
}
