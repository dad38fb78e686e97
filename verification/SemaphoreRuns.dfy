/** Threads using one semaphore, in every interleaving of their critical sections, wake-ups and
    suspensions. A thread's pipe is a counter of wake-up tokens. */
module SemaphoreRuns {
  import opened Semaphores
  import opened Sequences

  /** Where a thread is. `granted` is a record of the semaphore having been handed to it. */
  datatype Pc =
    | Out
    | Suspending(granted: bool)   // left the critical section of down, is to read its pipe
    | Waking(target: nat)         // left the critical section of up, is to write the target's pipe

  /** A thread's last call of down: the counter it found, how many grants it held then, and, once the call
      has returned, its code. */
  datatype Call = Call(found: int, before: nat, code: int)

  /** `held` counts what a thread holds; `arrivals` and `served` record who queued up and who was handed
      the semaphore from the queue, in order. */
  datatype State = State(init: int, sem: Sem, pcs: seq<Pc>, tokens: seq<nat>, held: seq<nat>, calls: seq<Call>,
                         ups: nat, grants: nat, arrivals: seq<nat>, served: seq<nat>)

  datatype Step = Down(t: nat) | TryDown(t: nat) | Up(t: nat) | Wake(t: nat) | Resume(t: nat)

  ghost predicate Sized(s: State) {
    |s.pcs| == |s.tokens| == |s.held| == |s.calls|
    && forall i :: 0 <= i < |s.sem.waiters| ==> s.sem.waiters[i] < |s.pcs|
  }

  ghost predicate Enabled(s: State, step: Step) {
    && Sized(s) && step.t < |s.pcs|
    && match step
       case Wake(t) => s.pcs[t].Waking? && s.pcs[t].target < |s.pcs|
       case Resume(t) => s.pcs[t].Suspending? && s.tokens[t] > 0
       case _ => s.pcs[step.t].Out?
  }

  ghost function Apply(s: State, step: Step): State
    requires Enabled(s, step)
  {
    match step
    case Down(t) =>
      var call := Call(s.sem.count, s.held[t], DownCode(s.sem));
      if Proceeds(s.sem)
      then s.(sem := Downed(s.sem, t), held := s.held[t := s.held[t] + 1], grants := s.grants + 1,
              calls := s.calls[t := call])
      else s.(sem := Downed(s.sem, t), pcs := s.pcs[t := Suspending(false)], arrivals := s.arrivals + [t],
              calls := s.calls[t := call])
    case TryDown(t) =>
      if Proceeds(s.sem)
      then s.(sem := Tried(s.sem), held := s.held[t := s.held[t] + 1], grants := s.grants + 1)
      else s.(sem := Tried(s.sem))
    case Up(t) =>
      var s1 := s.(sem := Upped(s.sem), ups := s.ups + 1,
                   held := s.held[t := if s.held[t] > 0 then s.held[t] - 1 else 0]);
      if s.sem.waiters == [] then s1
      else
        var w := s.sem.waiters[0];
        s1.(pcs := s.pcs[w := Suspending(true)][t := Waking(w)], grants := s.grants + 1, served := s.served + [w])
    case Wake(t) =>
      var w := s.pcs[t].target;
      s.(pcs := s.pcs[t := Out], tokens := s.tokens[w := s.tokens[w] + 1])
    case Resume(t) =>
      s.(pcs := s.pcs[t := Out], tokens := s.tokens[t := s.tokens[t] - 1], held := s.held[t := s.held[t] + 1])
  }

  // ---------- the invariant

  /** How many of the first `k` threads are about to wake `t`. */
  function Wakers(pcs: seq<Pc>, t: nat, k: nat): nat
    requires k <= |pcs|
  {
    if k == 0 then 0 else Wakers(pcs, t, k - 1) + if pcs[k - 1] == Waking(t) then 1 else 0
  }

  /** A thread suspends itself for exactly one reason: it is in the queue, or somebody is about to wake
      it, or its token is there. Other threads have no token and nobody wakes them. */
  ghost predicate Accounted(s: State, t: nat)
    requires Sized(s) && t < |s.pcs|
  {
    && (t in s.sem.waiters <==> s.pcs[t] == Suspending(false))
    && s.tokens[t] + Wakers(s.pcs, t, |s.pcs|) == (if s.pcs[t] == Suspending(true) then 1 else 0)
    && (s.pcs[t].Waking? ==> s.pcs[t].target < |s.pcs|)
    && (s.pcs[t].Suspending? ==> s.calls[t].found <= 0 && s.calls[t].code == -1 && s.held[t] == s.calls[t].before)
    && (s.calls[t].code == 0 <==> s.calls[t].found > 0)
  }

  ghost predicate Inv(s: State) {
    && Sized(s) && NoDup(s.sem.waiters)
    && (forall t :: 0 <= t < |s.pcs| ==> Accounted(s, t))
    && (s.sem.waiters != [] ==> s.sem.count <= 0)
    && (s.init >= 0 ==> s.sem.count >= 0)
    && s.init + s.ups == s.sem.count + s.grants
    && s.arrivals == s.served + s.sem.waiters
  }

  lemma {:induction false} WakersChange(pcs: seq<Pc>, w: nat, pc: Pc, t: nat, k: nat)
    requires w < |pcs| && k <= |pcs|
    ensures Wakers(pcs[w := pc], t, k) == Wakers(pcs, t, k)
            + if w < k then (if pc == Waking(t) then 1 else 0) - (if pcs[w] == Waking(t) then 1 else 0) else 0
  {
    if k > 0 { WakersChange(pcs, w, pc, t, k - 1); }
  }

  lemma DownKeeps(s: State, t: nat)
    requires Inv(s) && Enabled(s, Down(t))
    ensures Inv(Apply(s, Down(t)))
  {
    var s' := Apply(s, Down(t));
    assert Accounted(s, t);
    forall u | 0 <= u < |s.pcs| ensures Accounted(s', u) {
      assert Accounted(s, u);
      WakersChange(s.pcs, t, Suspending(false), u, |s.pcs|);
      hide Wakers;
    }
    hide Wakers;
  }

  lemma UpKeeps(s: State, t: nat)
    requires Inv(s) && Enabled(s, Up(t))
    ensures Inv(Apply(s, Up(t)))
  {
    var s' := Apply(s, Up(t));
    if s.sem.waiters != [] {
      var w := s.sem.waiters[0];
      assert Accounted(s, t) && Accounted(s, w);
      forall u | 0 <= u < |s.pcs| ensures Accounted(s', u) {
        assert Accounted(s, u);
        WakersChange(s.pcs, w, Suspending(true), u, |s.pcs|);
        WakersChange(s.pcs[w := Suspending(true)], t, Waking(w), u, |s.pcs|);
        hide Wakers;
        assert u in s.sem.waiters[1..] <==> u in s.sem.waiters && u != w;
      }
      assert s.served + [w] + s.sem.waiters[1..] == s.served + s.sem.waiters;
    } else {
      forall u | 0 <= u < |s.pcs| ensures Accounted(s', u) { assert Accounted(s, u); }
    }
    hide Wakers;
  }

  lemma RestKeeps(s: State, step: Step)
    requires Inv(s) && Enabled(s, step) && !step.Down? && !step.Up?
    ensures Inv(Apply(s, step))
  {
    var s', t := Apply(s, step), step.t;
    assert Accounted(s, t);
    forall u | 0 <= u < |s.pcs| ensures Accounted(s', u) {
      assert Accounted(s, u);
      WakersChange(s.pcs, t, Out, u, |s.pcs|);
      hide Wakers;
    }
    hide Wakers;
  }

  lemma StepKeeps(s: State, step: Step)
    requires Inv(s) && Enabled(s, step)
    ensures Inv(Apply(s, step))
  {
    match step
    case Down(t) => DownKeeps(s, t);
    case Up(t) => UpKeeps(s, t);
    case _ => RestKeeps(s, step);
  }

  // ---------- runs

  /** Nobody has used the semaphore yet. */
  ghost predicate Initial(s: State) {
    && Sized(s) && s.sem == Sem(s.init, []) && s.ups == 0 && s.grants == 0 && s.arrivals == [] && s.served == []
    && forall t :: 0 <= t < |s.pcs| ==>
         s.pcs[t] == Out && s.tokens[t] == 0 && s.held[t] == 0 && s.calls[t] == Call(1, 0, 0)
  }

  ghost predicate IsRun(s: State, steps: seq<Step>)
    decreases |steps|
  {
    steps == [] || (Enabled(s, steps[0]) && IsRun(Apply(s, steps[0]), steps[1..]))
  }

  ghost function After(s: State, steps: seq<Step>): State
    requires IsRun(s, steps)
    decreases |steps|
  {
    if steps == [] then s else After(Apply(s, steps[0]), steps[1..])
  }

  lemma {:induction false} NoWakers(pcs: seq<Pc>, t: nat, k: nat)
    requires k <= |pcs| && forall w :: 0 <= w < |pcs| ==> pcs[w] == Out
    ensures Wakers(pcs, t, k) == 0
  {
    if k > 0 { NoWakers(pcs, t, k - 1); }
  }

  lemma InitKeeps(s: State)
    requires Initial(s)
    ensures Inv(s)
  {
    forall t | 0 <= t < |s.pcs| ensures Accounted(s, t) { NoWakers(s.pcs, t, |s.pcs|); }
  }

  lemma {:induction false} InvAlong(s: State, steps: seq<Step>)
    requires Inv(s) && IsRun(s, steps)
    ensures Inv(After(s, steps)) && After(s, steps).init == s.init
    decreases |steps|
  {
    if steps != [] {
      StepKeeps(s, steps[0]);
      InvAlong(Apply(s, steps[0]), steps[1..]);
    }
  }

  /** Over every run: waiters only while the counter is spent, every up and every grant accounted for,
      and the queue served in order of arrival. */
  lemma RunsBalance(s: State, steps: seq<Step>)
    requires Initial(s) && IsRun(s, steps)
    ensures var e := After(s, steps);
            && (e.sem.waiters != [] ==> e.sem.count <= 0)
            && (s.init >= 0 ==> e.sem.count >= 0)
            && s.init + e.ups == e.sem.count + e.grants
            && e.arrivals == e.served + e.sem.waiters
  {
    InitKeeps(s);
    InvAlong(s, steps);
  }

  lemma {:induction false} SomeWaker(pcs: seq<Pc>, t: nat, k: nat) returns (w: nat)
    requires k <= |pcs| && Wakers(pcs, t, k) > 0
    ensures w < k && pcs[w] == Waking(t)
  {
    if pcs[k - 1] == Waking(t) { w := k - 1; } else { w := SomeWaker(pcs, t, k - 1); }
  }

  /** No wake-up is lost: a thread that is suspending itself and not queued finds its token, or somebody
      is about to write it. */
  lemma NoLostWakeUp(s: State, steps: seq<Step>, t: nat)
    requires Initial(s) && IsRun(s, steps)
    ensures var e := After(s, steps);
            t < |e.pcs| && e.pcs[t].Suspending? && t !in e.sem.waiters ==>
              Enabled(e, Resume(t))
              || exists w :: Enabled(e, Wake(w)) && Enabled(Apply(e, Wake(w)), Resume(t))
  {
    InitKeeps(s);
    InvAlong(s, steps);
    var e := After(s, steps);
    if t < |e.pcs| && e.pcs[t].Suspending? && t !in e.sem.waiters {
      assert Accounted(e, t);
      if e.tokens[t] == 0 {
        var w := SomeWaker(e.pcs, t, |e.pcs|);
        assert Enabled(e, Wake(w)) && Enabled(Apply(e, Wake(w)), Resume(t));
      }
    }
  }

  /** A step with which a call of down returns. */
  ghost predicate Returns(s: State, step: Step)
    requires Enabled(s, step)
  {
    step.Resume? || (step.Down? && Apply(s, step).pcs[step.t].Out?)
  }

  /** In every run, whoever returns from down has been granted the semaphore, by that very call, and holds it,
      whatever the code: 0 if the call found something left, -1 if it did not. */
  lemma WhoReturnsHolds(s: State, steps: seq<Step>, step: Step)
    requires Initial(s) && IsRun(s, steps) && Enabled(After(s, steps), step) && Returns(After(s, steps), step)
    ensures var e := After(s, steps); var e' := Apply(e, step); var t := step.t;
            && e'.pcs[t].Out? && e'.held[t] == e'.calls[t].before + 1
            && (e'.calls[t].code == -1 <==> e'.calls[t].found <= 0)
            && (e'.calls[t].code == 0 <==> e'.calls[t].found > 0)
            && (step.Resume? ==> e.pcs[t] == Suspending(true) && t !in e.sem.waiters)
  {
    InitKeeps(s);
    InvAlong(s, steps);
    var e := After(s, steps);
    StepKeeps(e, step);
    assert Accounted(e, step.t) && Accounted(Apply(e, step), step.t);
    hide Wakers;
  }

  // ---------- at most so many inside

  /** Only holders call up. */
  ghost predicate Disciplined(s: State, steps: seq<Step>)
    requires IsRun(s, steps)
    decreases |steps|
  {
    steps == [] || ((steps[0].Up? ==> s.held[steps[0].t] > 0) && Disciplined(Apply(s, steps[0]), steps[1..]))
  }

  function Sum(held: seq<nat>, k: nat): nat
    requires k <= |held|
  {
    if k == 0 then 0 else Sum(held, k - 1) + held[k - 1]
  }

  function Granted(pcs: seq<Pc>, k: nat): nat
    requires k <= |pcs|
  {
    if k == 0 then 0 else Granted(pcs, k - 1) + if pcs[k - 1] == Suspending(true) then 1 else 0
  }

  lemma {:induction false} SumChange(held: seq<nat>, t: nat, x: nat, k: nat)
    requires t < |held| && k <= |held|
    ensures Sum(held[t := x], k) == Sum(held, k) + if t < k then x - held[t] else 0
  {
    if k > 0 { SumChange(held, t, x, k - 1); }
  }

  lemma {:induction false} GrantedChange(pcs: seq<Pc>, t: nat, pc: Pc, k: nat)
    requires t < |pcs| && k <= |pcs|
    ensures Granted(pcs[t := pc], k) == Granted(pcs, k)
            + if t < k then (if pc == Suspending(true) then 1 else 0) - (if pcs[t] == Suspending(true) then 1 else 0)
              else 0
  {
    if k > 0 { GrantedChange(pcs, t, pc, k - 1); }
  }

  /** What is held, what has been handed over and what is left add up to the initial count. */
  ghost predicate Conserved(s: State) {
    Sized(s) && s.sem.count + Sum(s.held, |s.held|) + Granted(s.pcs, |s.pcs|) == s.init
  }

  lemma StepConserves(s: State, step: Step)
    requires Inv(s) && Conserved(s) && Enabled(s, step) && (step.Up? ==> s.held[step.t] > 0)
    ensures Conserved(Apply(s, step))
  {
    var s', t, n := Apply(s, step), step.t, |s.pcs|;
    StepKeeps(s, step);
    assert Accounted(s, t);
    SumChange(s.held, t, s'.held[t], n);
    match step
    case Up(_) =>
      if s.sem.waiters != [] {
        var w := s.sem.waiters[0];
        assert Accounted(s, w);
        GrantedChange(s.pcs, w, Suspending(true), n);
        GrantedChange(s.pcs[w := Suspending(true)], t, Waking(w), n);
      }
    case _ => GrantedChange(s.pcs, t, s'.pcs[t], n);
  }

  lemma {:induction false} ConservedAlong(s: State, steps: seq<Step>)
    requires Inv(s) && Conserved(s) && IsRun(s, steps) && Disciplined(s, steps)
    ensures Conserved(After(s, steps))
    decreases |steps|
  {
    if steps != [] {
      StepKeeps(s, steps[0]);
      StepConserves(s, steps[0]);
      ConservedAlong(Apply(s, steps[0]), steps[1..]);
    }
  }

  lemma {:induction false} NothingHeld(s: State, k: nat)
    requires Initial(s) && k <= |s.pcs|
    ensures Sum(s.held, k) == 0 && Granted(s.pcs, k) == 0
  {
    if k > 0 { NothingHeld(s, k - 1); }
  }

  /** If only holders call up, no more is held at any time than the initial count. */
  lemma AtMostInitHeld(s: State, steps: seq<Step>)
    requires Initial(s) && s.init >= 0 && IsRun(s, steps) && Disciplined(s, steps)
    ensures var e := After(s, steps); Sized(e) && Sum(e.held, |e.held|) <= s.init
  {
    InitKeeps(s);
    NothingHeld(s, |s.pcs|);
    ConservedAlong(s, steps);
    InvAlong(s, steps);
  }

  lemma {:induction false} TwoHold(held: seq<nat>, t: nat, u: nat, k: nat)
    requires t < u < k <= |held|
    ensures Sum(held, k) >= held[t] + held[u]
  {
    if u < k - 1 { TwoHold(held, t, u, k - 1); } else { OneHolds(held, t, k - 1); }
  }

  lemma {:induction false} OneHolds(held: seq<nat>, t: nat, k: nat)
    requires t < k <= |held|
    ensures Sum(held, k) >= held[t]
  {
    if t < k - 1 { OneHolds(held, t, k - 1); }
  }

  /** A semaphore that starts at 1 is a mutex. */
  lemma MutualExclusion(s: State, steps: seq<Step>, t: nat, u: nat)
    requires Initial(s) && s.init == 1 && IsRun(s, steps) && Disciplined(s, steps)
    ensures var e := After(s, steps);
            t < u < |e.held| ==> e.held[t] == 0 || e.held[u] == 0
  {
    AtMostInitHeld(s, steps);
    var e := After(s, steps);
    if t < u < |e.held| { TwoHold(e.held, t, u, |e.held|); }
  }

  // ---------- the two implementations

  datatype Op = DownBy(t: nat) | TryBy | UpBy

  /** What a critical section tells its caller. */
  datatype Answer = Go | Block | Refuse | WakeNobody | WakeUp(t: nat)

  function Next(s: Sem, op: Op): Sem {
    match op
    case DownBy(t) => Downed(s, t)
    case TryBy => Tried(s)
    case UpBy => Upped(s)
  }

  function Says(s: Sem, op: Op): Answer {
    match op
    case DownBy(t) => if Proceeds(s) then Go else Block
    case TryBy => if Proceeds(s) then Go else Refuse
    case UpBy => if Woken(s).None? then WakeNobody else WakeUp(Woken(s).value)
  }

  function NextAd(s: Sem, op: Op): Sem {
    match op
    case DownBy(t) => DownedAd(s, t)
    case TryBy => TriedAd(s)
    case UpBy => UppedAd(s)
  }

  function SaysAd(s: Sem, op: Op): Answer {
    match op
    case DownBy(t) => if ProceedsAd(s) then Go else Block
    case TryBy => if TriesAd(s) then Go else Refuse
    case UpBy => if Woken(s).None? then WakeNobody else WakeUp(Woken(s).value)
  }

  function Answers(s: Sem, ops: seq<Op>): seq<Answer>
    decreases |ops|
  {
    if ops == [] then [] else [Says(s, ops[0])] + Answers(Next(s, ops[0]), ops[1..])
  }

  function AnswersAd(s: Sem, ops: seq<Op>): seq<Answer>
    decreases |ops|
  {
    if ops == [] then [] else [SaysAd(s, ops[0])] + AnswersAd(NextAd(s, ops[0]), ops[1..])
  }

  /** The variant's counter is the counter less the number of waiters; the queues are the same. */
  ghost predicate Alike(s: Sem, ad: Sem) {
    && ad.waiters == s.waiters && ad.count == s.count - |s.waiters|
    && (s.waiters != [] ==> s.count <= 0)
  }

  /** A try on a counter that is just spent, with nobody waiting. */
  predicate TriesAtZero(s: Sem, op: Op) {
    op.TryBy? && s.count == 0 && s.waiters == []
  }

  predicate NeverTriesAtZero(s: Sem, ops: seq<Op>)
    decreases |ops|
  {
    ops == [] || (!TriesAtZero(s, ops[0]) && NeverTriesAtZero(Next(s, ops[0]), ops[1..]))
  }

  lemma StepBisimilar(s: Sem, ad: Sem, op: Op)
    requires Alike(s, ad)
    ensures Says(s, op) == SaysAd(ad, op) <==> !TriesAtZero(s, op)
    ensures !TriesAtZero(s, op) ==> Alike(Next(s, op), NextAd(ad, op))
  {
  }

  /** The two implementations let the same threads proceed, block and refuse the same and wake the same in the
      same order if and only if no try meets a counter that is just spent. */
  lemma {:induction false} BisimilarExactly(s: Sem, ad: Sem, ops: seq<Op>)
    requires Alike(s, ad)
    ensures Answers(s, ops) == AnswersAd(ad, ops) <==> NeverTriesAtZero(s, ops)
    decreases |ops|
  {
    if ops != [] {
      StepBisimilar(s, ad, ops[0]);
      var a, b := Answers(s, ops), AnswersAd(ad, ops);
      assert a[0] == Says(s, ops[0]) && b[0] == SaysAd(ad, ops[0]);
      if !TriesAtZero(s, ops[0]) {
        BisimilarExactly(Next(s, ops[0]), NextAd(ad, ops[0]), ops[1..]);
        assert a[1..] == Answers(Next(s, ops[0]), ops[1..]) && b[1..] == AnswersAd(NextAd(ad, ops[0]), ops[1..]);
      }
    }
  }

  lemma {:induction false} NoTryNeverAtZero(s: Sem, ops: seq<Op>)
    requires TryBy !in ops
    ensures NeverTriesAtZero(s, ops)
    decreases |ops|
  {
    if ops != [] { NoTryNeverAtZero(Next(s, ops[0]), ops[1..]); }
  }

  /** From the start, whatever the initial count, downs and ups alone cannot tell them apart. */
  lemma BisimilarFromStart(count: int, ops: seq<Op>)
    requires TryBy !in ops
    ensures Answers(Sem(count, []), ops) == AnswersAd(Sem(count, []), ops)
  {
    NoTryNeverAtZero(Sem(count, []), ops);
    BisimilarExactly(Sem(count, []), Sem(count, []), ops);
  }

  /** The variant lets a try into a mutex that is taken. */
  lemma TryEntersTakenMutex()
    ensures var ops := [DownBy(0), TryBy];
            Answers(Sem(1, []), ops) == [Go, Refuse] && AnswersAd(Sem(1, []), ops) == [Go, Go]
  {
    var ops := [DownBy(0), TryBy];
    assert ops[1..] == [TryBy] && [TryBy][1..] == [];
    assert Answers(Sem(0, []), [TryBy]) == [Refuse] + Answers(Sem(0, []), []);
    assert AnswersAd(Sem(0, []), [TryBy]) == [Go] + AnswersAd(Sem(-1, []), []);
  }
}
