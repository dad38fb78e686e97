/** The wake-up protocol between `try_to_wake_up`, the remote wake lists and `__schedule`, as
    interleaved steps of wakers and CPUs under sequential consistency. */
module WakeUp {
  import opened Sequences

  /** Asleep stands for every state a wake-up mask can match. */
  datatype RunState = Running | Asleep | Waking

  datatype PiLock = Unowned | Owned(waker: nat)

  /** `relative`: vruntime is stored without its queue's min_vruntime. The three counters record
      how often the task was claimed by a waker, put on a run queue and taken off one. */
  datatype Task = Task(state: RunState, onRq: bool, onCpu: bool, cpu: nat, piLock: PiLock, relative: bool,
                       claims: nat, activations: nat, deactivations: nat)

  /** Where a waker is in `try_to_wake_up`. */
  datatype WakerPc =
    | Idle
    | Entered(p: nat)    // holds pi_lock
    | Matched(p: nat)    // saw a matching state
    | Remote(p: nat)     // saw on_rq, about to take the rq lock in ttwu_remote
    | Spinning(p: nat)   // saw the task off its run queue, waits for on_cpu to clear
    | Placed(p: nat)     // state is TASK_WAKING and the CPU is chosen

  /** Where a CPU is in `__schedule`. */
  datatype CpuPc = InTask | Locked | Decided | Switching(prev: nat)

  datatype RqLock = Free | BySchedule | ByPending

  datatype Rq = Rq(curr: nat, pc: CpuPc, lock: RqLock, wakeList: seq<nat>, pending: seq<nat>)

  datatype State = State(tasks: seq<Task>, wakers: seq<WakerPc>, cpus: seq<Rq>)

  datatype Step =
    | Enter(w: nat, p: nat)
    | Mismatch(w: nat)
    | Match(w: nat)
    | SeeOnRq(w: nat)
    | SeeOffRq(w: nat)
    | RemoteHit(w: nat)
    | RemoteMiss(w: nat)
    | SpinDone(w: nat, dest: nat)
    | ActivateRemote(w: nat)
    | QueueRemote(w: nat)
    | QueueLocal(w: nat)
    | SetState(c: nat, state: RunState)
    | SchedLock(c: nat)
    | Deactivate(c: nat)
    | StayRunnable(c: nat, signal: bool)
    | DropLock(c: nat)
    | RetakeLock(c: nat)
    | PickSame(c: nat)
    | PickOther(c: nat, next: nat, unlock: bool)
    | Finish(c: nat)
    | PendTake(c: nat)
    | PendLock(c: nat)
    | PendActivate(c: nat)
    | PendUnlock(c: nat)
    | Migrate(q: nat, dest: nat)

  function Target(pc: WakerPc): (p: nat)
    requires !pc.Idle?
  {
    pc.p
  }

  /** `ttwu_activate` and `ttwu_do_wakeup` under one hold of the rq lock. With ENQUEUE_WAKING in its flags
      the enqueue adds the queue's clock to the vruntime. */
  function Activated(t: Task, waking: bool): Task {
    t.(onRq := true, state := Running, relative := t.relative && !waking, activations := t.activations + 1)
  }

  function WithTask(s: State, p: nat, t: Task): State
    requires p < |s.tasks|
  {
    s.(tasks := s.tasks[p := t])
  }

  function WithWaker(s: State, w: nat, pc: WakerPc): State
    requires w < |s.wakers|
  {
    s.(wakers := s.wakers[w := pc])
  }

  function WithCpu(s: State, c: nat, r: Rq): State
    requires c < |s.cpus|
  {
    s.(cpus := s.cpus[c := r])
  }

  /** Drop pi_lock and return from `try_to_wake_up`. */
  function Leave(s: State, w: nat, p: nat, t: Task): State
    requires w < |s.wakers| && p < |s.tasks|
  {
    WithWaker(WithTask(s, p, t.(piLock := Unowned)), w, Idle)
  }

  predicate At(s: State, w: nat)
  {
    w < |s.wakers| && !s.wakers[w].Idle? && Target(s.wakers[w]) < |s.tasks|
    && s.tasks[Target(s.wakers[w])].cpu < |s.cpus|
  }

  predicate CpuAt(s: State, c: nat)
  {
    c < |s.cpus| && s.cpus[c].curr < |s.tasks|
  }

  predicate Enabled(s: State, step: Step)
  {
    match step
    case Enter(w, p) => w < |s.wakers| && s.wakers[w].Idle? && p < |s.tasks| && s.tasks[p].piLock.Unowned?
    case Mismatch(w) => At(s, w) && s.wakers[w].Entered?
    case Match(w) => At(s, w) && s.wakers[w].Entered? && s.tasks[Target(s.wakers[w])].state.Asleep?
    case SeeOnRq(w) => At(s, w) && s.wakers[w].Matched? && s.tasks[Target(s.wakers[w])].onRq
    case SeeOffRq(w) => At(s, w) && s.wakers[w].Matched? && !s.tasks[Target(s.wakers[w])].onRq
    case RemoteHit(w) =>
      At(s, w) && s.wakers[w].Remote?
      && var t := s.tasks[Target(s.wakers[w])]; t.onRq && s.cpus[t.cpu].lock.Free?
    case RemoteMiss(w) =>
      At(s, w) && s.wakers[w].Remote?
      && var t := s.tasks[Target(s.wakers[w])]; !t.onRq && s.cpus[t.cpu].lock.Free?
    case SpinDone(w, dest) =>
      At(s, w) && s.wakers[w].Spinning? && !s.tasks[Target(s.wakers[w])].onCpu && dest < |s.cpus|
    case ActivateRemote(w) =>
      At(s, w) && s.wakers[w].Spinning?
      && var t := s.tasks[Target(s.wakers[w])]; t.onCpu && s.cpus[t.cpu].lock.Free?
    case QueueRemote(w) => At(s, w) && s.wakers[w].Placed?
    case QueueLocal(w) =>
      At(s, w) && s.wakers[w].Placed? && s.cpus[s.tasks[Target(s.wakers[w])].cpu].lock.Free?
    case SetState(c, state) => CpuAt(s, c) && s.cpus[c].pc.InTask? && !state.Waking?
    case SchedLock(c) => CpuAt(s, c) && s.cpus[c].pc.InTask? && s.cpus[c].lock.Free?
    case Deactivate(c) => CpuAt(s, c) && s.cpus[c].pc.Locked? && !s.tasks[s.cpus[c].curr].state.Running?
    case StayRunnable(c, signal) => CpuAt(s, c) && s.cpus[c].pc.Locked?
    case DropLock(c) => CpuAt(s, c) && s.cpus[c].pc.Decided? && s.cpus[c].lock.BySchedule?
    case RetakeLock(c) => CpuAt(s, c) && s.cpus[c].pc.Decided? && s.cpus[c].lock.Free?
    case PickSame(c) =>
      CpuAt(s, c) && s.cpus[c].pc.Decided? && s.cpus[c].lock.BySchedule? && s.tasks[s.cpus[c].curr].onRq
    case PickOther(c, next, unlock) =>
      CpuAt(s, c) && s.cpus[c].pc.Decided? && s.cpus[c].lock.BySchedule? && next < |s.tasks| && next != s.cpus[c].curr
      && s.tasks[next].onRq && s.tasks[next].cpu == c
    case Finish(c) => CpuAt(s, c) && s.cpus[c].pc.Switching? && s.cpus[c].pc.prev < |s.tasks|
    case PendTake(c) => CpuAt(s, c) && s.cpus[c].pending == []
    case PendLock(c) => CpuAt(s, c) && s.cpus[c].pending != [] && s.cpus[c].lock.Free?
    case PendActivate(c) =>
      CpuAt(s, c) && s.cpus[c].lock.ByPending? && s.cpus[c].pending != [] && s.cpus[c].pending[0] < |s.tasks|
    case PendUnlock(c) => CpuAt(s, c) && s.cpus[c].lock.ByPending? && s.cpus[c].pending == []
    case Migrate(q, dest) =>
      q < |s.tasks| && dest < |s.cpus| && s.tasks[q].cpu < |s.cpus|
      && s.tasks[q].onRq && !s.tasks[q].onCpu && s.cpus[s.tasks[q].cpu].lock.Free? && s.cpus[dest].lock.Free?
  }

  function Apply(s: State, step: Step): State
    requires Enabled(s, step)
  {
    match step
    case Enter(w, p) => WithWaker(WithTask(s, p, s.tasks[p].(piLock := Owned(w))), w, Entered(p))
    case Mismatch(w) => var p := Target(s.wakers[w]); Leave(s, w, p, s.tasks[p])
    case Match(w) => WithWaker(s, w, Matched(Target(s.wakers[w])))
    case SeeOnRq(w) => WithWaker(s, w, Remote(Target(s.wakers[w])))
    case SeeOffRq(w) => WithWaker(s, w, Spinning(Target(s.wakers[w])))
    case RemoteHit(w) => var p := Target(s.wakers[w]); Leave(s, w, p, s.tasks[p].(state := Running))
    case RemoteMiss(w) => WithWaker(s, w, Spinning(Target(s.wakers[w])))
    case SpinDone(w, dest) =>
      var p := Target(s.wakers[w]);
      var t := s.tasks[p];
      WithWaker(WithTask(s, p, t.(state := Waking, relative := true, cpu := dest, claims := t.claims + 1)),
                w, Placed(p))
    case ActivateRemote(w) =>
      var p := Target(s.wakers[w]);
      Leave(s, w, p, Activated(s.tasks[p].(claims := s.tasks[p].claims + 1), false))
    case QueueRemote(w) =>
      var p := Target(s.wakers[w]);
      var c := s.tasks[p].cpu;
      Leave(WithCpu(s, c, s.cpus[c].(wakeList := [p] + s.cpus[c].wakeList)), w, p, s.tasks[p])
    case QueueLocal(w) => var p := Target(s.wakers[w]); Leave(s, w, p, Activated(s.tasks[p], true))
    case SetState(c, state) => var p := s.cpus[c].curr; WithTask(s, p, s.tasks[p].(state := state))
    case SchedLock(c) => WithCpu(s, c, s.cpus[c].(pc := Locked, lock := BySchedule))
    case Deactivate(c) =>
      var p := s.cpus[c].curr;
      WithCpu(WithTask(s, p, s.tasks[p].(onRq := false, deactivations := s.tasks[p].deactivations + 1)),
              c, s.cpus[c].(pc := Decided))
    case StayRunnable(c, signal) =>
      var p := s.cpus[c].curr;
      WithCpu(WithTask(s, p, if signal then s.tasks[p].(state := Running) else s.tasks[p]),
              c, s.cpus[c].(pc := Decided))
    case DropLock(c) => WithCpu(s, c, s.cpus[c].(lock := Free))
    case RetakeLock(c) => WithCpu(s, c, s.cpus[c].(lock := BySchedule))
    case PickSame(c) => WithCpu(s, c, s.cpus[c].(pc := InTask, lock := Free))
    case PickOther(c, next, unlock) =>
      WithCpu(WithTask(s, next, s.tasks[next].(onCpu := true)),
              c, s.cpus[c].(pc := Switching(s.cpus[c].curr), curr := next,
                            lock := if unlock then Free else s.cpus[c].lock))
    case Finish(c) =>
      var p := s.cpus[c].pc.prev;
      WithCpu(WithTask(s, p, s.tasks[p].(onCpu := false)), c,
              s.cpus[c].(pc := InTask, lock := if s.cpus[c].lock.BySchedule? then Free else s.cpus[c].lock))
    case PendTake(c) => WithCpu(s, c, s.cpus[c].(pending := s.cpus[c].wakeList, wakeList := []))
    case PendLock(c) => WithCpu(s, c, s.cpus[c].(lock := ByPending))
    case PendActivate(c) =>
      var p := s.cpus[c].pending[0];
      WithCpu(WithTask(s, p, Activated(s.tasks[p], true)), c, s.cpus[c].(pending := s.cpus[c].pending[1..]))
    case PendUnlock(c) => WithCpu(s, c, s.cpus[c].(lock := Free))
    case Migrate(q, dest) => WithTask(s, q, s.tasks[q].(cpu := dest))
  }

  // ---------- the invariant

  /** On the wake list of its CPU, or taken from it and not yet activated. */
  predicate InFlight(s: State, p: nat)
    requires p < |s.tasks| && s.tasks[p].cpu < |s.cpus|
  {
    p in s.cpus[s.tasks[p].cpu].wakeList || p in s.cpus[s.tasks[p].cpu].pending
  }

  predicate HeldPlaced(s: State, p: nat)
    requires p < |s.tasks|
  {
    var l := s.tasks[p].piLock;
    l.Owned? && l.waker < |s.wakers| && s.wakers[l.waker] == Placed(p)
  }

  ghost predicate TaskOk(s: State, p: nat)
    requires p < |s.tasks|
  {
    var t := s.tasks[p];
    && t.cpu < |s.cpus|
    && (t.piLock.Owned? ==>
          var w := t.piLock.waker; w < |s.wakers| && !s.wakers[w].Idle? && Target(s.wakers[w]) == p)
    && (t.onRq ==> !t.state.Waking?)
    && (!t.onRq ==> !t.state.Running?)
    && (t.relative <==> t.state.Waking?)
    && (t.state.Waking? ==> !t.onCpu && HeldPlaced(s, p) != InFlight(s, p))
    && (!t.state.Waking? ==> !HeldPlaced(s, p) && !InFlight(s, p))
    && (t.onCpu <==> s.cpus[t.cpu].curr == p || s.cpus[t.cpu].pc == Switching(p))
    && t.claims == t.activations + (if t.state.Waking? then 1 else 0)
    && t.activations == t.deactivations + (if t.onRq then 1 else 0)
  }

  ghost predicate WakerOk(s: State, w: nat)
    requires w < |s.wakers|
  {
    var pc := s.wakers[w];
    !pc.Idle? ==>
      && Target(pc) < |s.tasks|
      && var t := s.tasks[Target(pc)];
      && t.piLock == Owned(w)
      && (pc.Matched? || pc.Remote? ==> !t.state.Waking?)
      && (pc.Spinning? ==> !t.onRq && t.state.Asleep?)
      && (pc.Placed? ==> t.state.Waking?)
  }

  ghost predicate CpuOk(s: State, c: nat)
    requires c < |s.cpus|
  {
    var r := s.cpus[c];
    && r.curr < |s.tasks| && s.tasks[r.curr].cpu == c
    && (!r.pc.Decided? ==> s.tasks[r.curr].onRq)
    && (r.pc.Switching? ==> r.pc.prev < |s.tasks| && r.pc.prev != r.curr && s.tasks[r.pc.prev].cpu == c)
    && (r.pc.Locked? ==> r.lock.BySchedule?)
    && (r.lock.BySchedule? ==> !r.pc.InTask?)
    && (forall i :: 0 <= i < |r.wakeList| ==> Listed(s, c, r.wakeList[i]))
    && (forall i :: 0 <= i < |r.pending| ==> Listed(s, c, r.pending[i]) && r.pending[i] !in r.wakeList)
    && NoDup(r.wakeList) && NoDup(r.pending)
  }

  predicate Listed(s: State, c: nat, p: nat) {
    p < |s.tasks| && s.tasks[p].cpu == c && s.tasks[p].state.Waking?
  }

  ghost predicate Inv(s: State) {
    && (forall p :: 0 <= p < |s.tasks| ==> TaskOk(s, p))
    && (forall w :: 0 <= w < |s.wakers| ==> WakerOk(s, w))
    && (forall c :: 0 <= c < |s.cpus| ==> CpuOk(s, c))
  }

  predicate IsLook(step: Step) {
    || step.Enter? || step.Mismatch? || step.Match?
    || step.SeeOnRq? || step.SeeOffRq? || step.RemoteHit? || step.RemoteMiss?
  }

  predicate IsHandOver(step: Step) {
    step.SpinDone? || step.ActivateRemote? || step.QueueRemote? || step.QueueLocal?
  }

  predicate IsDecide(step: Step) {
    step.SetState? || step.SchedLock? || step.Deactivate? || step.StayRunnable?
  }

  predicate IsSwitch(step: Step) {
    step.PickSame? || step.PickOther? || step.Finish?
  }

  /** `idle_balance` lets go of the run queue's lock for a while. */
  predicate IsRelock(step: Step) {
    step.DropLock? || step.RetakeLock?
  }

  predicate IsPending(step: Step) {
    step.PendTake? || step.PendLock? || step.PendActivate? || step.PendUnlock?
  }

  lemma TaskKeptByLook(s: State, step: Step, p: nat)
    requires Inv(s) && Enabled(s, step) && p < |s.tasks| && IsLook(step)
    ensures TaskOk(Apply(s, step), p)
  {
    assert TaskOk(s, p) && WakerOk(s, step.w);
    if !s.wakers[step.w].Idle? { assert TaskOk(s, Target(s.wakers[step.w])); }
  }

  lemma TaskKeptByHandOver(s: State, step: Step, p: nat)
    requires Inv(s) && Enabled(s, step) && p < |s.tasks| && IsHandOver(step)
    ensures TaskOk(Apply(s, step), p)
  {
    assert TaskOk(s, p) && CpuOk(s, s.tasks[p].cpu) && WakerOk(s, step.w);
    assert TaskOk(s, Target(s.wakers[step.w]));
    assert step.SpinDone? ==> CpuOk(s, step.dest);
  }

  lemma TaskKeptByDecide(s: State, step: Step, p: nat)
    requires Inv(s) && Enabled(s, step) && p < |s.tasks| && IsDecide(step)
    ensures TaskOk(Apply(s, step), p)
  {
    assert TaskOk(s, p) && CpuOk(s, step.c) && TaskOk(s, s.cpus[step.c].curr);
  }

  lemma TaskKeptBySwitch(s: State, step: Step, p: nat)
    requires Inv(s) && Enabled(s, step) && p < |s.tasks| && IsSwitch(step)
    ensures TaskOk(Apply(s, step), p)
  {
    assert TaskOk(s, p) && CpuOk(s, step.c) && TaskOk(s, s.cpus[step.c].curr);
  }

  lemma TaskKeptByRelock(s: State, step: Step, p: nat)
    requires Inv(s) && Enabled(s, step) && p < |s.tasks| && IsRelock(step)
    ensures TaskOk(Apply(s, step), p)
  {
    assert TaskOk(s, p);
  }

  lemma TaskKeptByPending(s: State, step: Step, p: nat)
    requires Inv(s) && Enabled(s, step) && p < |s.tasks| && IsPending(step)
    ensures TaskOk(Apply(s, step), p)
  {
    assert TaskOk(s, p) && CpuOk(s, step.c);
    assert step.PendActivate? ==> Listed(s, step.c, s.cpus[step.c].pending[0]);
  }

  lemma WakerKeptByLook(s: State, step: Step, w: nat)
    requires Inv(s) && Enabled(s, step) && w < |s.wakers| && IsLook(step)
    ensures WakerOk(Apply(s, step), w)
  {
    hide HeldPlaced, InFlight;
    assert WakerOk(s, w) && WakerOk(s, step.w);
    if !s.wakers[step.w].Idle? { assert TaskOk(s, Target(s.wakers[step.w])); }
  }

  lemma WakerKeptByHandOver(s: State, step: Step, w: nat)
    requires Inv(s) && Enabled(s, step) && w < |s.wakers| && IsHandOver(step)
    ensures WakerOk(Apply(s, step), w)
  {
    hide HeldPlaced, InFlight;
    assert WakerOk(s, w) && WakerOk(s, step.w) && TaskOk(s, Target(s.wakers[step.w]));
  }

  lemma WakerKeptByDecide(s: State, step: Step, w: nat)
    requires Inv(s) && Enabled(s, step) && w < |s.wakers| && IsDecide(step)
    ensures WakerOk(Apply(s, step), w)
  {
    hide HeldPlaced, InFlight;
    assert WakerOk(s, w) && CpuOk(s, step.c) && TaskOk(s, s.cpus[step.c].curr);
  }

  lemma WakerKeptBySwitch(s: State, step: Step, w: nat)
    requires Inv(s) && Enabled(s, step) && w < |s.wakers| && IsSwitch(step)
    ensures WakerOk(Apply(s, step), w)
  {
    hide HeldPlaced, InFlight;
    assert WakerOk(s, w) && CpuOk(s, step.c) && TaskOk(s, s.cpus[step.c].curr);
  }

  lemma WakerKeptByRelock(s: State, step: Step, w: nat)
    requires Inv(s) && Enabled(s, step) && w < |s.wakers| && IsRelock(step)
    ensures WakerOk(Apply(s, step), w)
  {
    hide HeldPlaced, InFlight, TaskOk, CpuOk;
    assert WakerOk(s, w);
  }

  lemma WakerKeptByPending(s: State, step: Step, w: nat)
    requires Inv(s) && Enabled(s, step) && w < |s.wakers| && IsPending(step)
    ensures WakerOk(Apply(s, step), w)
  {
    assert WakerOk(s, w) && CpuOk(s, step.c);
    assert step.PendActivate? ==> Listed(s, step.c, s.cpus[step.c].pending[0]);
    if !s.wakers[w].Idle? { assert TaskOk(s, Target(s.wakers[w])); }
  }

  lemma CpuKeptByLook(s: State, step: Step, c: nat)
    requires Inv(s) && Enabled(s, step) && c < |s.cpus| && IsLook(step)
    ensures CpuOk(Apply(s, step), c)
  {
    hide HeldPlaced, InFlight;
    assert CpuOk(s, c) && WakerOk(s, step.w);
    if !s.wakers[step.w].Idle? { assert TaskOk(s, Target(s.wakers[step.w])); }
  }

  lemma CpuKeptByHandOver(s: State, step: Step, c: nat)
    requires Inv(s) && Enabled(s, step) && c < |s.cpus| && IsHandOver(step)
    ensures CpuOk(Apply(s, step), c)
  {
    assert CpuOk(s, c) && WakerOk(s, step.w) && TaskOk(s, Target(s.wakers[step.w])) && TaskOk(s, s.cpus[c].curr);
  }

  lemma CpuKeptByDecide(s: State, step: Step, c: nat)
    requires Inv(s) && Enabled(s, step) && c < |s.cpus| && IsDecide(step)
    ensures CpuOk(Apply(s, step), c)
  {
    hide HeldPlaced, InFlight;
    assert CpuOk(s, c) && CpuOk(s, step.c) && TaskOk(s, s.cpus[step.c].curr);
  }

  lemma CpuKeptBySwitch(s: State, step: Step, c: nat)
    requires Inv(s) && Enabled(s, step) && c < |s.cpus| && IsSwitch(step)
    ensures CpuOk(Apply(s, step), c)
  {
    hide HeldPlaced, InFlight;
    assert CpuOk(s, c) && CpuOk(s, step.c) && TaskOk(s, s.cpus[step.c].curr);
  }

  lemma CpuKeptByRelock(s: State, step: Step, c: nat)
    requires Inv(s) && Enabled(s, step) && c < |s.cpus| && IsRelock(step)
    ensures CpuOk(Apply(s, step), c)
  {
    hide HeldPlaced, InFlight, TaskOk, WakerOk;
    assert CpuOk(s, c) && CpuOk(s, step.c);
  }

  lemma CpuKeptByActivation(s: State, at: nat, c: nat)
    requires Inv(s) && Enabled(s, PendActivate(at)) && c < |s.cpus|
    ensures CpuOk(Apply(s, PendActivate(at)), c)
  {
    hide HeldPlaced, InFlight, TaskOk, WakerOk;
    assert CpuOk(s, c) && CpuOk(s, at);
    assert Listed(s, at, s.cpus[at].pending[0]);
  }

  lemma CpuKeptByPending(s: State, step: Step, c: nat)
    requires Inv(s) && Enabled(s, step) && c < |s.cpus| && IsPending(step)
    ensures CpuOk(Apply(s, step), c)
  {
    hide HeldPlaced, InFlight, TaskOk, WakerOk;
    if step.PendActivate? {
      CpuKeptByActivation(s, step.c, c);
    } else {
      assert CpuOk(s, c) && CpuOk(s, step.c);
    }
  }

  lemma MigrateKeeps(s: State, q: nat, dest: nat)
    requires Inv(s) && Enabled(s, Migrate(q, dest))
    ensures Inv(Apply(s, Migrate(q, dest)))
  {
    var s' := Apply(s, Migrate(q, dest));
    assert TaskOk(s, q) && CpuOk(s, s.tasks[q].cpu) && CpuOk(s, dest);
    forall p | 0 <= p < |s'.tasks| ensures TaskOk(s', p) { assert TaskOk(s, p); }
    forall w | 0 <= w < |s'.wakers| ensures WakerOk(s', w) { assert WakerOk(s, w); }
    forall c | 0 <= c < |s'.cpus| ensures CpuOk(s', c) { assert CpuOk(s, c) && TaskOk(s, s.cpus[c].curr); }
  }

  /** Every step of every waker and CPU keeps the invariant. */
  lemma StepKeeps(s: State, step: Step)
    requires Inv(s) && Enabled(s, step)
    ensures Inv(Apply(s, step))
  {
    hide TaskOk, WakerOk, CpuOk;
    if step.Migrate? {
      MigrateKeeps(s, step.q, step.dest);
    } else {
      forall p | 0 <= p < |s.tasks| ensures TaskOk(Apply(s, step), p) {
        if IsLook(step) { TaskKeptByLook(s, step, p); }
        if IsHandOver(step) { TaskKeptByHandOver(s, step, p); }
        if IsDecide(step) { TaskKeptByDecide(s, step, p); }
        if IsSwitch(step) { TaskKeptBySwitch(s, step, p); }
        if IsRelock(step) { TaskKeptByRelock(s, step, p); }
        if IsPending(step) { TaskKeptByPending(s, step, p); }
      }
      forall w | 0 <= w < |s.wakers| ensures WakerOk(Apply(s, step), w) {
        if IsLook(step) { WakerKeptByLook(s, step, w); }
        if IsHandOver(step) { WakerKeptByHandOver(s, step, w); }
        if IsDecide(step) { WakerKeptByDecide(s, step, w); }
        if IsSwitch(step) { WakerKeptBySwitch(s, step, w); }
        if IsRelock(step) { WakerKeptByRelock(s, step, w); }
        if IsPending(step) { WakerKeptByPending(s, step, w); }
      }
      forall c | 0 <= c < |s.cpus| ensures CpuOk(Apply(s, step), c) {
        if IsLook(step) { CpuKeptByLook(s, step, c); }
        if IsHandOver(step) { CpuKeptByHandOver(s, step, c); }
        if IsDecide(step) { CpuKeptByDecide(s, step, c); }
        if IsSwitch(step) { CpuKeptBySwitch(s, step, c); }
        if IsRelock(step) { CpuKeptByRelock(s, step, c); }
        if IsPending(step) { CpuKeptByPending(s, step, c); }
      }
    }
  }

  // ---------- whole runs

  ghost predicate Init(s: State) {
    && (forall p :: 0 <= p < |s.tasks| ==> FreshTask(s, p))
    && (forall w :: 0 <= w < |s.wakers| ==> s.wakers[w].Idle?)
    && (forall c :: 0 <= c < |s.cpus| ==> FreshCpu(s, c))
  }

  /** A task that is runnable at the start counts as claimed and activated once. */
  predicate FreshTask(s: State, p: nat)
    requires p < |s.tasks|
  {
    var t := s.tasks[p];
    var n: nat := if t.onRq then 1 else 0;
    && t.cpu < |s.cpus| && t.piLock.Unowned? && !t.relative
    && t.state == (if t.onRq then Running else Asleep)
    && (t.onCpu <==> s.cpus[t.cpu].curr == p)
    && t.claims == n && t.activations == n && t.deactivations == 0
  }

  predicate FreshCpu(s: State, c: nat)
    requires c < |s.cpus|
  {
    var r := s.cpus[c];
    && r.curr < |s.tasks| && s.tasks[r.curr].cpu == c && s.tasks[r.curr].onRq
    && r.pc.InTask? && r.lock.Free? && r.wakeList == [] && r.pending == []
  }

  ghost predicate IsRun(run: seq<State>, steps: seq<Step>) {
    && |run| == |steps| + 1
    && Init(run[0])
    && forall i :: 0 <= i < |steps| ==> Enabled(run[i], steps[i]) && run[i + 1] == Apply(run[i], steps[i])
  }

  lemma InitKeeps(s: State)
    requires Init(s)
    ensures Inv(s)
  {
    forall p | 0 <= p < |s.tasks| ensures TaskOk(s, p) {
      assert FreshTask(s, p) && FreshCpu(s, s.tasks[p].cpu);
    }
    forall c | 0 <= c < |s.cpus| ensures CpuOk(s, c) { assert FreshCpu(s, c); }
  }

  lemma {:induction false} RunKeeps(run: seq<State>, steps: seq<Step>, i: nat)
    requires IsRun(run, steps) && i < |run|
    ensures Inv(run[i])
  {
    if i == 0 {
      InitKeeps(run[0]);
    } else {
      RunKeeps(run, steps, i - 1);
      StepKeeps(run[i - 1], steps[i - 1]);
    }
  }

  predicate OnList(s: State, c: nat, p: nat)
    requires c < |s.cpus|
  {
    p in s.cpus[c].wakeList || p in s.cpus[c].pending
  }

  predicate Uses(s: State, c: nat, p: nat)
    requires c < |s.cpus|
  {
    s.cpus[c].curr == p || s.cpus[c].pc == Switching(p)
  }

  /** In every interleaving: a task waiting on a wake list is on no run queue, waits on one CPU
      only and has not been activated for its last claim; a task off the run queue is asleep or
      has exactly one delivery under way, so no wake-up is lost; its vruntime is relative exactly
      while that delivery is under way; and no task is in use by two CPUs. */
  lemma WakeUpsAreSafe(run: seq<State>, steps: seq<Step>, i: nat, p: nat)
    requires IsRun(run, steps) && i < |run| && p < |run[i].tasks|
    ensures var s := run[i]; var t := s.tasks[p];
            && t.cpu < |s.cpus|
            && (forall c :: 0 <= c < |s.cpus| && OnList(s, c, p) ==>
                  !t.onRq && t.cpu == c && t.claims == t.activations + 1)
            && (!t.onRq ==> t.state.Asleep? || (t.state.Waking? && (HeldPlaced(s, p) != OnList(s, t.cpu, p))))
            && (t.relative <==> HeldPlaced(s, p) || OnList(s, t.cpu, p))
            && (forall c, d :: 0 <= c < |s.cpus| && 0 <= d < |s.cpus| && Uses(s, c, p) && Uses(s, d, p) ==> c == d)
  {
    RunKeeps(run, steps, i);
    var s := run[i];
    assert TaskOk(s, p);
    forall c | 0 <= c < |s.cpus|
      ensures OnList(s, c, p) ==> !s.tasks[p].onRq && s.tasks[p].cpu == c && s.tasks[p].state.Waking?
      ensures Uses(s, c, p) ==> s.tasks[p].cpu == c
    {
      assert CpuOk(s, c);
    }
  }

  /** One step activates a task only off the run queue and claims it only asleep. */
  lemma StepCounts(s: State, step: Step, p: nat)
    requires Inv(s) && Enabled(s, step) && p < |s.tasks|
    ensures |Apply(s, step).tasks| == |s.tasks|
    ensures var t, t' := s.tasks[p], Apply(s, step).tasks[p];
            && (t'.activations != t.activations ==> t'.activations == t.activations + 1 && !t.onRq && t'.onRq)
            && (t'.claims != t.claims ==> t'.claims == t.claims + 1 && !t.onRq && t.state.Asleep?)
  {
    hide HeldPlaced, InFlight;
    assert TaskOk(s, p);
    if IsHandOver(step) { assert WakerOk(s, step.w); }
    if step.PendActivate? {
      assert CpuOk(s, step.c);
      assert Listed(s, step.c, s.cpus[step.c].pending[0]);
    }
  }

  /** In every interleaving an activation finds the task off the run queue; every claim has had its
      activation, but for one whose delivery is under way; and every activation but the one of a task that
      is on the run queue has had its deactivation. */
  lemma ActivationsMatchClaims(run: seq<State>, steps: seq<Step>, i: nat, p: nat)
    requires IsRun(run, steps) && i < |steps| && p < |run[i].tasks|
    ensures |run[i + 1].tasks| == |run[i].tasks|
    ensures var t, t' := run[i].tasks[p], run[i + 1].tasks[p];
            && (t'.activations != t.activations ==> t'.activations == t.activations + 1 && !t.onRq && t'.onRq)
            && (t'.claims != t.claims ==> t'.claims == t.claims + 1 && !t.onRq && t.state.Asleep?)
            && t'.claims == t'.activations + (if t'.state.Waking? then 1 else 0)
            && t'.activations == t'.deactivations + (if t'.onRq then 1 else 0)
  {
    RunKeeps(run, steps, i);
    RunKeeps(run, steps, i + 1);
    StepCounts(run[i], steps[i], p);
    hide Apply, Enabled, Init, WakerOk, CpuOk, HeldPlaced, InFlight;
    assert TaskOk(run[i + 1], p);
  }

  predicate Activates(step: Step) {
    step.ActivateRemote? || step.QueueLocal? || step.PendActivate?
  }

  /** The task that a step puts on a run queue. */
  function Woken(s: State, step: Step): nat
    requires Enabled(s, step) && Activates(step)
  {
    if step.PendActivate? then s.cpus[step.c].pending[0] else Target(s.wakers[step.w])
  }

  /** In every interleaving, activation is told to re-base the vruntime exactly when it is stored relative,
      and leaves it absolute. */
  lemma RebasedExactlyWhenRelative(run: seq<State>, steps: seq<Step>, i: nat)
    requires IsRun(run, steps) && i < |steps| && Activates(steps[i])
    ensures var p := Woken(run[i], steps[i]);
            && p < |run[i].tasks| && run[i].tasks[p].relative == !steps[i].ActivateRemote?
            && p < |run[i + 1].tasks| && run[i + 1].tasks[p].onRq && !run[i + 1].tasks[p].relative
  {
    RunKeeps(run, steps, i);
    var s, step := run[i], steps[i];
    hide HeldPlaced, InFlight, Init;
    if step.PendActivate? {
      assert CpuOk(s, step.c) && Listed(s, step.c, s.cpus[step.c].pending[0]);
    } else {
      assert WakerOk(s, step.w);
    }
    assert TaskOk(s, Woken(s, step));
  }

  // ---------- a wake-up takes effect

  /** The steps with which a waker that has matched lets go of pi_lock. */
  predicate Delivers(step: Step) {
    step.RemoteHit? || step.ActivateRemote? || step.QueueRemote? || step.QueueLocal?
  }

  /** Runnable on a run queue, or claimed with one delivery under way. */
  ghost predicate Awake(s: State, p: nat)
    requires p < |s.tasks| && s.tasks[p].cpu < |s.cpus|
  {
    (s.tasks[p].state.Running? && s.tasks[p].onRq)
    || (s.tasks[p].state.Waking? && !s.tasks[p].onRq && InFlight(s, p) && !HeldPlaced(s, p))
  }

  /** Once a waker has let go, the task it matched is awake, and the waker is done. */
  lemma WakeTakesEffect(s: State, step: Step)
    requires Inv(s) && Enabled(s, step) && Delivers(step)
    ensures var p, s' := Target(s.wakers[step.w]), Apply(s, step);
            && p < |s'.tasks| && s'.tasks[p].cpu < |s'.cpus| && Awake(s', p)
            && s'.wakers[step.w].Idle? && s'.tasks[p].piLock.Unowned?
  {
    var p := Target(s.wakers[step.w]);
    assert WakerOk(s, step.w) && TaskOk(s, p);
    hide CpuOk;
    StepKeeps(s, step);
    assert TaskOk(Apply(s, step), p);
  }

  /** The task tells itself to sleep, as the current one of its CPU. */
  predicate FallsAsleep(s: State, step: Step, p: nat) {
    step.SetState? && step.state.Asleep? && step.c < |s.cpus| && s.cpus[step.c].curr == p
  }

  lemma StaysAwake(s: State, step: Step, p: nat)
    requires Inv(s) && Enabled(s, step) && p < |s.tasks| && !s.tasks[p].state.Asleep? && !FallsAsleep(s, step, p)
    ensures p < |Apply(s, step).tasks| && !Apply(s, step).tasks[p].state.Asleep?
  {
    hide TaskOk, WakerOk, CpuOk;
  }

  /** In every interleaving, after a waker that has matched lets go at step `i`, the task is not asleep again,
      and cannot be taken off its run queue, before it has told itself to sleep. */
  lemma {:induction false} WokenUntilItSleeps(run: seq<State>, steps: seq<Step>, i: nat, j: nat, p: nat)
    requires IsRun(run, steps) && i < j < |run|
    requires Delivers(steps[i]) && p == Target(run[i].wakers[steps[i].w])
    requires forall k :: i < k < j ==> !FallsAsleep(run[k], steps[k], p)
    ensures p < |run[j].tasks| && !run[j].tasks[p].state.Asleep?
    ensures j < |steps| && steps[j].Deactivate? ==> run[j].cpus[steps[j].c].curr != p
    decreases j
  {
    hide Init, Apply, Enabled, TaskOk, WakerOk, CpuOk, InFlight, HeldPlaced;
    RunKeeps(run, steps, j - 1);
    RunKeeps(run, steps, j);
    if j == i + 1 {
      WakeTakesEffect(run[i], steps[i]);
    } else {
      WokenUntilItSleeps(run, steps, i, j - 1, p);
      StaysAwake(run[j - 1], steps[j - 1], p);
    }
    if j < |steps| && steps[j].Deactivate? {
      SleepersLeave(run[j], steps[j].c);
    }
  }

  /** Only a task that has told itself to sleep is taken off its run queue. */
  lemma SleepersLeave(s: State, c: nat)
    requires Inv(s) && Enabled(s, Deactivate(c))
    ensures c < |s.cpus| && s.cpus[c].curr < |s.tasks| && s.tasks[s.cpus[c].curr].state.Asleep?
  {
    assert CpuOk(s, c) && TaskOk(s, s.cpus[c].curr);
  }

  /** What the steps of a CPU do to its current task: told to sleep it leaves the run queue, with a signal
      pending it does not and is runnable, and a task that is passed over is let go of. */
  lemma ScheduleTakesEffect(s: State, step: Step)
    requires Inv(s) && Enabled(s, step)
    ensures var s' := Apply(s, step);
            match step
            case SetState(c, state) => s'.tasks[s.cpus[c].curr].state == state
            case Deactivate(c) => !s'.tasks[s.cpus[c].curr].onRq && s'.tasks[s.cpus[c].curr].state.Asleep?
            case StayRunnable(c, signal) =>
              s'.tasks[s.cpus[c].curr].onRq && (signal ==> s'.tasks[s.cpus[c].curr].state.Running?)
            case PickSame(c) => s'.cpus[c].curr == s.cpus[c].curr && s'.cpus[c].pc.InTask? && s'.cpus[c].lock.Free?
            case PickOther(c, next, unlock) => s'.cpus[c].curr == next && s'.tasks[next].onCpu
            case Finish(c) => !s'.tasks[s.cpus[c].pc.prev].onCpu && s'.cpus[c].pc.InTask?
            case SpinDone(w, dest) =>
              var p := Target(s.wakers[w]); s'.tasks[p].cpu == dest && s'.tasks[p].state.Waking?
            case Migrate(q, dest) => s'.tasks[q].cpu == dest
            case _ => true
  {
    hide WakerOk;
    if step.Deactivate? || step.StayRunnable? {
      assert CpuOk(s, step.c) && TaskOk(s, s.cpus[step.c].curr);
    } else if step.Finish? {
      assert CpuOk(s, step.c);
    }
  }
}
