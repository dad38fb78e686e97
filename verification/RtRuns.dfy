/** Changes of real-time bandwidth by group and of the global limit, which may overlap: a new limit is
    written first, judged later and perhaps taken back, and a group change reads whatever is in force. */
module RtRuns {
  import opened Sequences
  import opened GroupTree
  import opened RtAdmission

  /** A write to the global limit: `Written` is in force and not judged yet, `Failed` was turned down and is
      still in force. `was` is the limit before it. */
  datatype Writer = Quiet | Written(was: Bandwidth) | Failed(was: Bandwidth)

  /** A group change, holding rt_constraints_mutex: it has made the first `k` calls of its walk. `settled`
      records that the changed group was checked against a limit that was not up for judgement. */
  datatype Setter = Idle | Walking(g: nat, want: Bandwidth, k: nat, settled: bool)

  datatype State = State(s: seq<Bandwidth>, limit: Bandwidth, writer: Writer, setter: Setter)

  datatype Step =
    | Begin(g: nat, want: Bandwidth)
    | CheckNext(seen: Bandwidth, busy: seq<bool>)
    | Commit
    | Write(want: Bandwidth)
    | Refuse
    | Judge(busy: seq<bool>)
    | Restore

  /** The limit that was accepted last, which comes back if a pending write fails. */
  function Settled(c: State): Bandwidth {
    if c.writer.Quiet? then c.limit else c.writer.was
  }

  ghost predicate Enabled(t: Tree, c: State, step: Step)
    requires Valid(t)
  {
    match step
    case Begin(g, want) => c.setter.Idle? && g < |c.s| && Sound(want)
    case CheckNext(seen, busy) =>
      c.setter.Walking? && c.setter.g < |c.s| && c.setter.k < |Trace(t, 0)|
      && |busy| == |c.s| == |t.parent| && Sound(seen)
    case Commit => c.setter.Walking? && c.setter.g < |c.s| && c.setter.k == |Trace(t, 0)|
    case Write(want) => c.writer.Quiet? && want.period < U64 && want.runtime < U64
    case Refuse => c.writer.Written? && !Sane(c.limit)
    case Judge(busy) => c.writer.Written? && Sane(c.limit) && c.setter.Idle? && |busy| == |c.s|
    case Restore => c.writer.Failed?
  }

  /** The settings a group change would give. */
  function Changed(c: State): seq<Bandwidth>
    requires c.setter.Walking? && c.setter.g < |c.s|
  {
    c.s[c.setter.g := c.setter.want]
  }

  ghost function Apply(t: Tree, c: State, step: Step): State
    requires Valid(t) && Enabled(t, c, step)
  {
    match step
    case Begin(g, want) => c.(setter := Walking(g, want, 0, false))
    case CheckNext(seen, busy) =>
      var e := Trace(t, 0)[c.setter.k];
      if e.Down? && Check(t, Changed(c), seen, busy, e.g) != 0 then c.(setter := Idle)
      else c.(setter := c.setter.(k := c.setter.k + 1,
                                  settled := c.setter.settled
                                             || (e == Down(c.setter.g) && c.writer.Quiet? && seen == c.limit)))
    case Commit => c.(s := Changed(c), setter := Idle)
    case Write(want) => c.(limit := want, writer := Written(c.limit))
    case Refuse => c.(writer := Failed(c.writer.was))
    case Judge(busy) =>
      c.(writer := if Schedulable(t, c.s, c.limit, busy) then Quiet else Failed(c.writer.was))
    case Restore => c.(limit := c.writer.was, writer := Quiet)
  }

  // ---------- what every interleaving keeps

  /** What the walk of a group change has established so far. */
  ghost predicate WalkOk(t: Tree, c: State)
    requires Valid(t) && |c.s| == |t.parent| && Settled(c).period > 0
  {
    c.setter.Walking? ==>
      && c.setter.g < |c.s| && Sound(c.setter.want) && c.setter.k <= |Trace(t, 0)|
      && (forall i :: 0 <= i < c.setter.k && Trace(t, 0)[i].Down? && Trace(t, 0)[i].g < |c.s| ==>
            Passes(t, Changed(c), Trace(t, 0)[i].g))
      && (c.setter.settled ==> Share(Changed(c), c.setter.g) <= ToRatio(Settled(c)))
  }

  ghost predicate Inv(t: Tree, c: State) {
    && Lawful(t, c.s) && Sane(Settled(c))
    && c.limit.period < U64 && c.limit.runtime < U64
    && WalkOk(t, c)
  }

  lemma CheckKeeps(t: Tree, c: State, seen: Bandwidth, busy: seq<bool>)
    requires Inv(t, c) && Enabled(t, c, CheckNext(seen, busy))
    ensures Inv(t, Apply(t, c, CheckNext(seen, busy)))
  {
    assert AllSound(t, c.s);
    hide Trace, ToRatio, Word, SumRatios, Lawful, Valid, Check, Passes, Share;
    var tr, k, s' := Trace(t, 0), c.setter.k, Changed(c);
    var e, c' := tr[k], Apply(t, c, CheckNext(seen, busy));
    if c'.setter.Walking? {
      if e.Down? && e.g < |c.s| { CheckedPasses(t, s', seen, busy, e.g); }
      assert forall i :: 0 <= i < k + 1 && tr[i].Down? && tr[i].g < |c.s| ==> i < k || i == k;
    }
  }

  lemma CommitKeeps(t: Tree, c: State)
    requires Inv(t, c) && Enabled(t, c, Commit)
    ensures Inv(t, Apply(t, c, Commit))
  {
    var tr, s' := Trace(t, 0), Changed(c);
    TraceEnters(t, 0);
    forall x | 0 <= x < |c.s| ensures Passes(t, s', x) {
      UnderRoot(t, x);
      assert Down(x) in tr;
      var i :| 0 <= i < |tr| && tr[i] == Down(x);
      hide Trace, Under, Passes;
      assert Passes(t, s', tr[i].g);
    }
    assert AllPass(t, s');
    PassedIsLawful(t, c.s, c.setter.g, c.setter.want);
  }

  lemma StepKeeps(t: Tree, c: State, step: Step)
    requires Inv(t, c) && Enabled(t, c, step)
    ensures Inv(t, Apply(t, c, step))
  {
    match step
    case CheckNext(seen, busy) => CheckKeeps(t, c, seen, busy);
    case Commit => CommitKeeps(t, c);
    case _ => hide Lawful, Passes, Schedulable, Trace;
  }

  // ---------- what the steps decide

  /** Settings change only when a group change is made, and the accepted limit only when a written one is judged
      and every group fits it. */
  lemma StepsDecide(t: Tree, c: State, step: Step)
    requires Inv(t, c) && Enabled(t, c, step)
    ensures var c' := Apply(t, c, step);
            && c'.s == (if step.Commit? then c.s[c.setter.g := c.setter.want] else c.s)
            && Settled(c') == (if step.Judge? && AllFit(t, c.s, c.limit, step.busy) then c.limit else Settled(c))
            && c'.limit == (match step case Write(want) => want case Restore => Settled(c) case _ => c.limit)
            && (step.Judge? ==> (c'.writer.Quiet? <==> AllFit(t, c.s, c.limit, step.busy)))
            && (step.Refuse? ==> !c'.writer.Quiet?)
  {
    hide ToRatio, SumRatios, Check, WalkOk, Trace;
    if step.Judge? { JudgedExactly(t, c.s, c.limit, step.busy); }
  }

  /** The next `n` calls of a walk that all see the limit `seen`, unless one stops it. */
  ghost function Checked(t: Tree, c: State, seen: Bandwidth, busy: seq<bool>, n: nat): State
    requires Valid(t)
  {
    if n == 0 then c
    else
      var d := Checked(t, c, seen, busy, n - 1);
      if Enabled(t, d, CheckNext(seen, busy)) then Apply(t, d, CheckNext(seen, busy)) else d
  }

  /** All of the first `n` calls pass. */
  ghost predicate PassedUpTo(t: Tree, s: seq<Bandwidth>, seen: Bandwidth, busy: seq<bool>, n: nat)
    requires Valid(t) && |t.parent| > 0 && n <= |Trace(t, 0)|
  {
    forall i :: 0 <= i < n && Trace(t, 0)[i].Down? ==> Check(t, s, seen, busy, Trace(t, 0)[i].g) == 0
  }

  /** One call: the walk goes on exactly if it is a way up or the group passes. */
  lemma OneCall(t: Tree, d: State, seen: Bandwidth, busy: seq<bool>)
    requires Valid(t) && Enabled(t, d, CheckNext(seen, busy))
    ensures var d', e := Apply(t, d, CheckNext(seen, busy)), Trace(t, 0)[d.setter.k];
            && d'.s == d.s
            && (d'.setter.Idle? || d'.setter == d.setter.(k := d.setter.k + 1, settled := d'.setter.settled))
            && (d'.setter.Walking? <==> (e.Down? ==> Check(t, Changed(d), seen, busy, e.g) == 0))
  {
    hide Check, Trace, Valid;
  }

  lemma PassedOneMore(t: Tree, s: seq<Bandwidth>, seen: Bandwidth, busy: seq<bool>, n: nat)
    requires Valid(t) && |t.parent| > 0 && n < |Trace(t, 0)|
    ensures PassedUpTo(t, s, seen, busy, n + 1) <==>
            PassedUpTo(t, s, seen, busy, n)
            && (Trace(t, 0)[n].Down? ==> Check(t, s, seen, busy, Trace(t, 0)[n].g) == 0)
  {
    hide Check, Trace, Valid;
  }

  lemma {:induction false} CheckedSoFar(t: Tree, c: State, seen: Bandwidth, busy: seq<bool>, n: nat)
    requires Valid(t) && |c.s| == |t.parent| == |busy| && Sound(seen) && n <= |Trace(t, 0)|
    requires c.setter.Walking? && c.setter.k == 0 && c.setter.g < |c.s|
    ensures var d := Checked(t, c, seen, busy, n);
            && d.s == c.s && (d.setter.Idle? || d.setter == c.setter.(k := n, settled := d.setter.settled))
            && (d.setter.Walking? <==> PassedUpTo(t, Changed(c), seen, busy, n))
  {
    hide Check, Trace, Valid, Apply;
    if n > 0 {
      CheckedSoFar(t, c, seen, busy, n - 1);
      PassedOneMore(t, Changed(c), seen, busy, n - 1);
      var d := Checked(t, c, seen, busy, n - 1);
      assert Checked(t, c, seen, busy, n)
          == if Enabled(t, d, CheckNext(seen, busy)) then Apply(t, d, CheckNext(seen, busy)) else d;
      hide PassedUpTo, Checked;
      if d.setter.Walking? { OneCall(t, d, seen, busy); }
    }
  }

  /** A walk under one limit ends in the change exactly if every group fits, the changed group with its new
      setting; otherwise it is given up with nothing changed. */
  lemma WalkDecides(t: Tree, c: State, seen: Bandwidth, busy: seq<bool>)
    requires Inv(t, c) && c.setter.Walking? && c.setter.k == 0 && Sound(seen) && |busy| == |c.s|
    ensures var d := Checked(t, c, seen, busy, |Trace(t, 0)|);
            && (Enabled(t, d, Commit) <==> AllFit(t, Changed(c), seen, busy))
            && (Enabled(t, d, Commit) ==> Apply(t, d, Commit).s == Changed(c))
            && (!Enabled(t, d, Commit) ==> d.setter.Idle? && d.s == c.s)
  {
    CheckedSoFar(t, c, seen, busy, |Trace(t, 0)|);
    VerdictIsExact(t, c.s, c.setter.g, c.setter.want, seen, busy);
    PassedIsSchedulable(t, Changed(c), seen, busy);
    hide Check, Trace, Lawful, WalkOk, AllFit, Schedulable, PassedUpTo, Checked;
  }

  lemma PassedIsSchedulable(t: Tree, s: seq<Bandwidth>, seen: Bandwidth, busy: seq<bool>)
    requires Valid(t) && |s| == |t.parent|
    ensures PassedUpTo(t, s, seen, busy, |Trace(t, 0)|) <==> Schedulable(t, s, seen, busy)
  {
    var tr := Trace(t, 0);
    WalkChecksAll(t, s, seen, busy);
    WalkIsReplay(t, 0, Visiting(t, s, seen, busy), Nop(), ());
    ReplayChecksAll(t, s, seen, busy, tr);
  }

  // ---------- within the limit

  /** Every group is within the limit accepted last. */
  ghost predicate Within(c: State)
    requires Settled(c).period > 0
  {
    forall x :: 0 <= x < |c.s| ==> Share(c.s, x) <= ToRatio(Settled(c))
  }

  /** The change about to be made is within it. */
  ghost predicate Fitting(c: State)
    requires Settled(c).period > 0 && c.setter.Walking? && c.setter.g < |c.s|
  {
    Share(Changed(c), c.setter.g) <= ToRatio(Settled(c))
  }

  /** A step leaves every group within the limit exactly if it is no group change or that change fits. */
  lemma StepWithinExactly(t: Tree, c: State, step: Step)
    requires Inv(t, c) && Enabled(t, c, step) && Within(c)
    ensures Settled(Apply(t, c, step)).period > 0
    ensures Within(Apply(t, c, step)) <==> (step.Commit? ==> Fitting(c))
  {
    var c' := Apply(t, c, step);
    StepKeeps(t, c, step);
    hide ToRatio, Trace, Valid, Lawful, WalkOk;
    match step
    case Commit =>
      assert forall x :: 0 <= x < |c.s| && x != c.setter.g ==> Share(c'.s, x) == Share(c.s, x);
    case Judge(busy) =>
      if Schedulable(t, c.s, c.limit, busy) {
        forall x | 0 <= x < |c.s| ensures Share(c.s, x) <= ToRatio(c.limit) {
          JudgedWithin(t, c.s, c.limit, busy, x);
        }
      }
    case _ =>
  }

  lemma JudgedWithin(t: Tree, s: seq<Bandwidth>, limit: Bandwidth, busy: seq<bool>, x: nat)
    requires AllSound(t, s) && |busy| == |s| && Sound(limit) && x < |s| && Schedulable(t, s, limit, busy)
    ensures Share(s, x) <= ToRatio(limit)
  {
    assert Check(t, s, limit, busy, x) == 0;
    hide ToRatio, SumRatios, Word;
  }

  // ---------- runs

  ghost predicate Start(t: Tree, c: State) {
    Initial(t, c.s, c.limit) && c.writer.Quiet? && c.setter.Idle?
  }

  ghost predicate IsRun(t: Tree, run: seq<State>, steps: seq<Step>) {
    && Valid(t) && |run| == |steps| + 1 && Start(t, run[0])
    && forall i :: 0 <= i < |steps| ==> Enabled(t, run[i], steps[i]) && run[i + 1] == Apply(t, run[i], steps[i])
  }

  lemma {:induction false} RunKeeps(t: Tree, run: seq<State>, steps: seq<Step>, i: nat)
    requires IsRun(t, run, steps) && i < |run|
    ensures Inv(t, run[i])
  {
    if i == 0 {
      InitialIsLawful(t, run[0].s, run[0].limit);
      hide Lawful;
    } else {
      RunKeeps(t, run, steps, i - 1);
      hide Inv;
      StepKeeps(t, run[i - 1], steps[i - 1]);
    }
  }

  /** In every interleaving of group changes and limit writes, groups below `g` none of which lies under another
      have together no more than `g`'s share, and that is at most the whole. */
  lemma RunsStayFair(t: Tree, run: seq<State>, steps: seq<Step>, i: nat, g: nat, a: set<nat>)
    requires IsRun(t, run, steps) && i < |run| && g < |t.parent|
    requires Antichain(t, a) && forall x :: x in a ==> Under(t, g, x)
    ensures var s := run[i].s; |s| == |t.parent| && SumIn(s, a, |s|) <= Share(s, g) <= UNIT
  {
    RunKeeps(t, run, steps, i);
    LawfulMeansFair(t, run[i].s, g, a);
  }

  ghost predicate AllWithin(run: seq<State>) {
    forall i :: 0 <= i < |run| ==> Settled(run[i]).period > 0 && Within(run[i])
  }

  ghost predicate AllFitting(run: seq<State>, steps: seq<Step>)
    requires |run| == |steps| + 1
  {
    forall i :: 0 <= i < |steps| && steps[i].Commit? ==> FittingAt(run[i])
  }

  ghost predicate FittingAt(c: State) {
    Settled(c).period > 0 && c.setter.Walking? && c.setter.g < |c.s| && Fitting(c)
  }

  lemma {:induction false} WithinUpTo(t: Tree, run: seq<State>, steps: seq<Step>, i: nat)
    requires IsRun(t, run, steps) && i < |run| && AllFitting(run, steps)
    ensures Settled(run[i]).period > 0 && Within(run[i])
  {
    if i == 0 {
      InitialIsLawful(t, run[0].s, run[0].limit);
    } else {
      WithinUpTo(t, run, steps, i - 1);
      RunKeeps(t, run, steps, i - 1);
      hide Inv, Within, Apply;
      assert steps[i - 1].Commit? ==> FittingAt(run[i - 1]);
      StepWithinExactly(t, run[i - 1], steps[i - 1]);
    }
  }

  /** A run keeps every group within the limit accepted last if and only if every group change it makes fits
      that limit at the time it is made. */
  lemma RunsWithinExactly(t: Tree, run: seq<State>, steps: seq<Step>)
    requires IsRun(t, run, steps)
    ensures AllWithin(run) <==> AllFitting(run, steps)
  {
    if AllFitting(run, steps) {
      forall i | 0 <= i < |run| ensures Settled(run[i]).period > 0 && Within(run[i]) { WithinUpTo(t, run, steps, i); }
    }
    if AllWithin(run) {
      forall i | 0 <= i < |steps| && steps[i].Commit? ensures FittingAt(run[i]) {
        RunKeeps(t, run, steps, i);
        assert Within(run[i]) && Within(run[i + 1]);
        hide Inv, Within, Apply;
        StepWithinExactly(t, run[i], steps[i]);
      }
    }
  }

  /** It is enough that each changed group was checked while no write was pending. */
  lemma SettledChecksSuffice(t: Tree, run: seq<State>, steps: seq<Step>)
    requires IsRun(t, run, steps)
    requires forall i :: 0 <= i < |steps| && steps[i].Commit? ==> run[i].setter.Walking? && run[i].setter.settled
    ensures AllWithin(run)
  {
    forall i | 0 <= i < |steps| && steps[i].Commit? ensures FittingAt(run[i]) {
      RunKeeps(t, run, steps, i);
      hide Lawful, Passes, Trace, ToRatio;
    }
    RunsWithinExactly(t, run, steps);
  }

  // ---------- a write that is overtaken

  /** A root group alone. */
  function Alone(): Tree {
    Tree([-1], [[]], [0])
  }

  const DEFAULT: Bandwidth := Bandwidth(1_000_000, 950_000)
  const WHOLE: Bandwidth := Bandwidth(1_000_000, 1_000_000)
  const TOO_MUCH: Bandwidth := Bandwidth(1_000_000, 2_000_000)

  lemma RatiosOfThese()
    ensures ToRatio(DEFAULT) < ToRatio(WHOLE) == UNIT
    ensures ToRatio(TOO_MUCH) >= UNIT && Share([WHOLE], 0) > ToRatio(DEFAULT)
  {
    RatioExact(DEFAULT);
    RatioExact(WHOLE);
    ShiftedAtMost(TOO_MUCH.runtime);
    WordAtMost(2 * UNIT);
  }

  lemma AloneIsOne()
    ensures Valid(Alone()) && Trace(Alone(), 0) == [Down(0), Up(0)]
  {
    assert TraceFrom(Alone(), 0, 0) == [Up(0)];
  }

  /** The whole of it passes while the limit is too much. */
  lemma WholePasses()
    ensures Check(Alone(), [WHOLE], TOO_MUCH, [false], 0) == 0
  {
    RatiosOfThese();
    WordAtMost(0);
    hide ToRatio, Word;
    assert SumRatios([], [WHOLE]) == 0;
  }

  function OvertakenSteps(): seq<Step> {
    [Write(TOO_MUCH), Begin(0, WHOLE), CheckNext(TOO_MUCH, [false]), CheckNext(TOO_MUCH, [false]), Commit,
     Refuse, Restore]
  }

  function OvertakenRun(): seq<State> {
    var l, w, m := DEFAULT, WHOLE, TOO_MUCH;
    [State([l], l, Quiet, Idle),
     State([l], m, Written(l), Idle),
     State([l], m, Written(l), Walking(0, w, 0, false)),
     State([l], m, Written(l), Walking(0, w, 1, false)),
     State([l], m, Written(l), Walking(0, w, 2, false)),
     State([w], m, Written(l), Idle),
     State([w], m, Failed(l), Idle),
     State([w], l, Quiet, Idle)]
  }

  ghost predicate Goes(t: Tree, c: State, step: Step, c': State) {
    Valid(t) && Enabled(t, c, step) && c' == Apply(t, c, step)
  }

  lemma OvertakenWalk()
    ensures var run, steps := OvertakenRun(), OvertakenSteps();
            forall i :: 1 <= i < 5 ==> Goes(Alone(), run[i], steps[i], run[i + 1])
  {
    var t, run, steps := Alone(), OvertakenRun(), OvertakenSteps();
    AloneIsOne();
    WholePasses();
    assert [DEFAULT][0 := WHOLE] == [WHOLE];
    hide ToRatio, Check, Trace, Valid, Schedulable;
    assert Goes(t, run[1], steps[1], run[2]);
    assert Goes(t, run[2], steps[2], run[3]);
    assert Goes(t, run[3], steps[3], run[4]);
    assert Goes(t, run[4], steps[4], run[5]);
  }

  lemma OvertakenLimit()
    ensures var run, steps := OvertakenRun(), OvertakenSteps();
            && Goes(Alone(), run[0], steps[0], run[1])
            && Goes(Alone(), run[5], steps[5], run[6]) && Goes(Alone(), run[6], steps[6], run[7])
  {
    AloneIsOne();
    hide ToRatio, Check, Trace, Valid, Schedulable;
  }

  /** Someone writes a runtime beyond the period, and before that is refused the root group is given the whole
      period: once the limit is back, the root group exceeds it. */
  lemma OvertakenWrite()
    ensures var run, steps := OvertakenRun(), OvertakenSteps();
            var end := run[|steps|];
            && IsRun(Alone(), run, steps) && end.writer.Quiet? && end.setter.Idle?
            && end.limit == run[0].limit == DEFAULT && !Within(end)
  {
    var t, run, steps := Alone(), OvertakenRun(), OvertakenSteps();
    AloneIsOne();
    RatiosOfThese();
    OvertakenWalk();
    OvertakenLimit();
    hide ToRatio, Trace, Valid, Share, Apply, Enabled;
    assert Start(t, run[0]);
    forall i | 0 <= i < |steps| ensures Enabled(t, run[i], steps[i]) && run[i + 1] == Apply(t, run[i], steps[i]) {
      assert Goes(t, run[i], steps[i], run[i + 1]);
    }
  }

  /** A period of zero can be in force in the middle of a walk, and the next check would divide by it. */
  lemma ZeroPeriodInForce() returns (run: seq<State>, steps: seq<Step>)
    ensures IsRun(Alone(), run, steps)
    ensures var c := run[|steps|]; c.setter.Walking? && c.setter.k < |Trace(Alone(), 0)| && c.limit.period == 0
  {
    var l, w, z := DEFAULT, WHOLE, Bandwidth(0, 950_000);
    AloneIsOne();
    hide ToRatio, Check, Trace, Valid;
    steps := [Begin(0, w), Write(z)];
    run := [State([l], l, Quiet, Idle),
            State([l], l, Quiet, Walking(0, w, 0, false)),
            State([l], z, Written(l), Walking(0, w, 0, false))];
    var t := Alone();
    assert Start(t, run[0]);
    assert Enabled(t, run[0], steps[0]) && run[1] == Apply(t, run[0], steps[0]);
    assert Enabled(t, run[1], steps[1]) && run[2] == Apply(t, run[1], steps[1]);
  }

  // ---------- the code

  class RtGroups {
    const t: Tree
    const cpus: nat
    var s: seq<Bandwidth>
    /** The global period and runtime in force, and whether they are up for judgement. */
    var limit: Bandwidth
    var writer: Writer
    /** The runtime each CPU's queue of each group was given. */
    var rqRuntime: seq<seq<nat>>

    /** As a state between two group changes. */
    ghost function Value(): State
      reads this
    {
      State(s, limit, writer, Idle)
    }

    ghost predicate Valid()
      reads this
    {
      && Inv(t, Value()) && |rqRuntime| == |s|
      && forall g :: 0 <= g < |s| ==> Given(rqRuntime[g], cpus, s[g].runtime)
    }

    constructor (t: Tree, cpus: nat, limit: Bandwidth)
      requires GroupTree.Valid(t) && Sane(limit)
      ensures Valid() && this.t == t && this.cpus == cpus && this.limit == limit && Start(t, Value())
      ensures Within(Value())
    {
      this.t := t;
      this.cpus := cpus;
      this.limit := limit;
      writer := Quiet;
      s := seq(|t.parent|, g => if g == 0 then limit else Bandwidth(limit.period, 0));
      rqRuntime := seq(|t.parent|, g => seq(cpus, k => if g == 0 then limit.runtime else 0));
      new;
      InitialIsLawful(t, s, limit);
      hide Lawful;
    }

    /** `tg_set_rt_bandwidth`, under whatever limit is in force; its period must not be zero. */
    method SetBandwidth(g: nat, want: Bandwidth, busy: seq<bool>) returns (err: int)
      requires Valid() && g < |s| == |busy| && Sound(want) && limit.period > 0
      modifies this`s, this`rqRuntime
      ensures Valid()
      ensures err == 0 <==> AllFit(t, old(s)[g := want], limit, busy)
      ensures err == 0 ==> s == old(s)[g := want]
      ensures err != 0 ==> s == old(s) && rqRuntime == old(rqRuntime)
      ensures err == 0 && old(Within(Value())) ==>
                (Within(Value()) <==> Share(s, g) <= ToRatio(Settled(Value())))
    {
      WalkChecksAll(t, s[g := want], limit, busy);
      VerdictIsExact(t, s, g, want, limit, busy);
      AcceptedKeeps(t, s, g, want, limit, busy);
      hide Check, Fits, ToRatio, SumRatios, Lawful;
      var v := WalkTgTreeFrom(t, 0, Visiting(t, s[g := want], limit, busy), Nop(), ());
      err := v.ret;
      if err != 0 { return; }
      s := s[g := want];
      var row := rqRuntime[g];
      for i := 0 to cpus
        invariant |row| == cpus && forall k :: 0 <= k < i ==> row[k] == want.runtime
      {
        row := row[i := want.runtime];
      }
      rqRuntime := rqRuntime[g := row];
    }

    /** `sched_rt_handler` first puts the new values in force. */
    method WriteLimit(want: Bandwidth)
      requires Valid() && writer.Quiet? && want.period < U64 && want.runtime < U64
      modifies this`limit, this`writer
      ensures Valid() && limit == want && Settled(Value()) == old(limit)
      ensures Value() == old(Value()).(limit := want, writer := Written(old(limit)))
    {
      hide Lawful;
      writer := Written(limit);
      limit := want;
    }

    /** `sched_rt_global_constraints`. */
    method JudgeLimit(busy: seq<bool>) returns (err: int)
      requires Valid() && writer.Written? && |busy| == |s|
      modifies this`writer
      ensures Valid() && limit == old(limit)
      ensures err == 0 <==> Sane(limit) && AllFit(t, s, limit, busy)
      ensures if err == 0 then writer.Quiet? && Within(Value()) else writer == Failed(old(writer.was))
    {
      assert AllSound(t, s);
      hide Lawful, Check, ToRatio, SumRatios, AllFit, Within;
      err := -EINVAL;
      if limit.period > 0 && (limit.runtime <= limit.period || limit.runtime == RUNTIME_INF) {
        WalkChecksAll(t, s, limit, busy);
        JudgedExactly(t, s, limit, busy);
        var v := WalkTgTreeFrom(t, 0, Visiting(t, s, limit, busy), Nop(), ());
        err := v.ret;
      }
      if err == 0 { FitMeansWithin(t, Value().(writer := Quiet), busy); }
      writer := if err == 0 then Quiet else Failed(writer.was);
    }

    /** ... which takes the old values back if that fails. */
    method RestoreLimit()
      requires Valid() && writer.Failed?
      modifies this`limit, this`writer
      ensures Valid() && writer.Quiet? && limit == old(writer.was) == Settled(old(Value()))
      ensures Value() == old(Value()).(limit := old(writer.was), writer := Quiet)
    {
      hide Lawful;
      limit := writer.was;
      writer := Quiet;
    }

    /** The handler with nothing in between: a limit is kept exactly if it is sane and every group fits it. */
    method SetLimit(want: Bandwidth, busy: seq<bool>) returns (err: int)
      requires Valid() && writer.Quiet? && |busy| == |s| && want.period < U64 && want.runtime < U64
      modifies this`limit, this`writer
      ensures Valid() && writer.Quiet?
      ensures err == 0 <==> Sane(want) && AllFit(t, s, want, busy)
      ensures limit == if err == 0 then want else old(limit)
      ensures err == 0 || old(Within(Value())) ==> Within(Value())
    {
      hide Inv, ToRatio;
      WriteLimit(want);
      err := JudgeLimit(busy);
      if err != 0 { RestoreLimit(); }
    }
  }

  lemma JudgedExactly(t: Tree, s: seq<Bandwidth>, limit: Bandwidth, busy: seq<bool>)
    requires Lawful(t, s) && |busy| == |s| && Sound(limit)
    ensures Schedulable(t, s, limit, busy) <==> AllFit(t, s, limit, busy)
  {
    assert s[0 := s[0]] == s;
    VerdictIsExact(t, s, 0, s[0], limit, busy);
  }

  lemma FitMeansWithin(t: Tree, c: State, busy: seq<bool>)
    requires |c.s| == |t.children| == |busy| && c.writer.Quiet? && c.limit.period > 0 && AllFit(t, c.s, c.limit, busy)
    ensures Within(c)
  {
    hide ToRatio, SumRatios;
    forall x | 0 <= x < |c.s| ensures Share(c.s, x) <= ToRatio(c.limit) { assert Fits(t, c.s, c.limit, busy, x); }
  }

  lemma AcceptedKeeps(t: Tree, s: seq<Bandwidth>, g: nat, want: Bandwidth, limit: Bandwidth, busy: seq<bool>)
    requires Lawful(t, s) && g < |s| == |busy| && Sound(want) && limit.period > 0
    ensures Schedulable(t, s[g := want], limit, busy) ==> Lawful(t, s[g := want])
  {
    var s' := s[g := want];
    if Schedulable(t, s', limit, busy) {
      forall x | 0 <= x < |s'| ensures Passes(t, s', x) {
        assert Check(t, s', limit, busy, x) == 0;
        CheckedPasses(t, s', limit, busy, x);
      }
      PassedIsLawful(t, s, g, want);
    }
  }

  ghost predicate Given(row: seq<nat>, cpus: nat, runtime: nat) {
    |row| == cpus && forall k :: 0 <= k < cpus ==> row[k] == runtime
  }
}
