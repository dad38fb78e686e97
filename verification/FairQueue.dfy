/** One unthrottled fair run queue: its timeline, its counters, its virtual clock and its hints. */
module FairQueues {
  import opened Wrap64
  import opened Timelines
  import opened Sequences

  // ---------- virtual time

  /** `max_vruntime` and `min_vruntime`. */
  function MaxV(a: u64, b: u64): u64 {
    if S64(b - a) > 0 then b else a
  }

  function MinV(a: u64, b: u64): u64 {
    if S64(b - a) < 0 then b else a
  }

  /** `update_min_vruntime`: where the clock would go, and where it goes. */
  function Candidate(se: seq<Entity>, curr: int, leftmost: int, min: u64): u64 {
    var v := if 0 <= curr < |se| then se[curr].vruntime else min;
    if !(0 <= leftmost < |se|) then v
    else if curr < 0 then se[leftmost].vruntime
    else MinV(v, se[leftmost].vruntime)
  }

  function MinAfter(se: seq<Entity>, curr: int, leftmost: int, min: u64): u64 {
    MaxV(min, Candidate(se, curr, leftmost, min))
  }

  /** The later of two times is one of them and is behind neither. */
  lemma MaxVNotBehind(a: u64, b: u64)
    ensures MaxV(a, b) == a || MaxV(a, b) == b
    ensures S64(a - MaxV(a, b)) <= 0 && S64(b - MaxV(a, b)) <= 0 && S64(MaxV(a, b) - a) >= 0
  {
    assert S64(b - a) > 0 ==> S64(a - b) < 0;
  }

  /** The queue's virtual clock never moves backwards, and is not left behind the time it is led to. */
  lemma ClockForward(se: seq<Entity>, curr: int, leftmost: int, min: u64)
    ensures var to, now := Candidate(se, curr, leftmost, min), MinAfter(se, curr, leftmost, min);
            S64(now - min) >= 0 && S64(to - now) <= 0 && (now == min || now == to)
  {
    MaxVNotBehind(min, Candidate(se, curr, leftmost, min));
  }

  /** `enqueue_entity`: the entity's virtual time is taken up from the queue's clock unless it comes from a
      sleep with its own. */
  function Rebased(v: u64, min: u64, wakeup: bool, waking: bool): u64 {
    if !wakeup || waking then U64(v + min) else v
  }

  /** `place_entity`: a sleeper is put no further back than `thresh`. */
  function PlacedAt(v: u64, min: u64, wakeup: bool, thresh: nat): u64 {
    if wakeup then MaxV(v, U64(min - thresh)) else v
  }

  /** `dequeue_entity`: an entity that does not go to sleep leaves with a time relative to the queue's clock. */
  function Leaving(v: u64, min: u64, sleep: bool): u64 {
    if sleep then v else U64(v - min)
  }

  /** Leaving one queue without a sleep and coming to another without a wake-up, an entity keeps its distance
      from the clock; so does one that task_waking_fair detached. Sleeping and waking where it was, it starts
      from the time it had. */
  lemma MigrationKeepsOffset(v: u64, src: u64, dst: u64)
    ensures Ahead(Rebased(Leaving(v, src, false), dst, false, false), dst) == Ahead(v, src)
    ensures Ahead(Rebased(U64(Leaving(v, src, true) - src), dst, true, true), dst) == Ahead(v, src)
    ensures Rebased(Leaving(v, src, true), dst, true, false) == v
  {
    var d: int := dst;
    WrapAdd(U64(v - src) + d, -d);
  }

  // ---------- the queue

  ghost function OnSet(se: seq<Entity>): set<nat> {
    set x | 0 <= x < |se| && se[x].onRq
  }

  function CountOn(se: seq<Entity>, k: nat): nat
    requires k <= |se|
  {
    if k == 0 then 0 else CountOn(se, k - 1) + if se[k - 1].onRq then 1 else 0
  }

  function LoadOn(se: seq<Entity>, k: nat): nat
    requires k <= |se|
  {
    if k == 0 then 0 else LoadOn(se, k - 1) + if se[k - 1].onRq then se[k - 1].weight else 0
  }

  function First(s: seq<nat>): int {
    if s == [] then -1 else s[0]
  }

  /** `tl` holds exactly the queued entities other than the running one, in order. */
  ghost predicate Kept(se: seq<Entity>, tl: seq<nat>, curr: int) {
    && Sorted(se, tl) && NoDup(tl)
    && forall x :: 0 <= x < |se| ==> (x in tl <==> se[x].onRq && x != curr)
  }

  ghost predicate Hint(se: seq<Entity>, h: int) {
    h == -1 || (0 <= h < |se| && se[h].onRq)
  }

  lemma {:induction false} SumsChange(se: seq<Entity>, id: nat, e: Entity, k: nat)
    requires id < |se| && k <= |se|
    ensures CountOn(se[id := e], k) == CountOn(se, k)
            + if id < k then (if e.onRq then 1 else 0) - (if se[id].onRq then 1 else 0) else 0
    ensures LoadOn(se[id := e], k) == LoadOn(se, k)
            + if id < k then (if e.onRq then e.weight else 0) - (if se[id].onRq then se[id].weight else 0) else 0
  {
    if k > 0 { SumsChange(se, id, e, k - 1); }
  }

  /** With positive weights, the load tells an empty queue from one that is not. */
  lemma {:induction false} LoadTellsEmpty(se: seq<Entity>, k: nat)
    requires k <= |se| && forall x :: 0 <= x < |se| ==> se[x].weight > 0
    ensures LoadOn(se, k) == 0 <==> CountOn(se, k) == 0
  {
    if k > 0 { LoadTellsEmpty(se, k - 1); }
  }

  lemma SortedFrame(se: seq<Entity>, se': seq<Entity>, tl: seq<nat>)
    requires Sorted(se, tl) && |se'| == |se|
    requires forall i :: 0 <= i < |tl| ==> se'[tl[i]].vruntime == se[tl[i]].vruntime
    ensures Sorted(se', tl)
  {
    hide S64;
    forall i, j | 0 <= i < j < |tl| ensures Diff(se', tl[i], tl[j]) <= 0 {
      assert Diff(se, tl[i], tl[j]) <= 0;
    }
  }

  lemma InsertSorted(se: seq<Entity>, a: seq<nat>, b: seq<nat>, id: nat, on: set<nat>)
    requires Sorted(se, a + b) && AllBefore(se, a, id) && AllAfter(se, b, id)
    requires Spread(se, on) && id in on && Elements(a + b) <= on
    ensures Sorted(se, a + [id] + b)
  {
    hide S64;
    var s, s' := a + b, a + [id] + b;
    forall i, j | 0 <= i < j < |s'| ensures s'[i] < |se| && s'[j] < |se| && Diff(se, s'[i], s'[j]) <= 0 {
      if j == |a| {
        assert s[i] in Elements(s);
        Transitive(se, on, id, a[i], id);
        Transitive(se, on, id, id, id);
        hide Spread, Diff;
      } else if i == |a| {
        assert s'[j] == b[j - |a| - 1];
      } else {
        assert s'[i] == s[if i < |a| then i else i - 1] && s'[j] == s[if j < |a| then j else j - 1];
      }
    }
    assert Known(se, s') by {
      forall i | 0 <= i < |s'| ensures s'[i] < |se| {
        if i != |a| { assert s'[i] == s[if i < |a| then i else i - 1]; }
      }
    }
  }

  lemma RemoveSorted(se: seq<Entity>, s: seq<nat>, k: nat)
    requires Sorted(se, s) && NoDup(s) && k < |s|
    ensures Sorted(se, s[..k] + s[k + 1..]) && NoDup(s[..k] + s[k + 1..])
    ensures forall x :: x in s[..k] + s[k + 1..] <==> x in s && x != s[k]
  {
    hide Diff;
    var r := s[..k] + s[k + 1..];
    assert forall i :: 0 <= i < |r| ==> r[i] == s[if i < k then i else i + 1];
    forall x | x in s && x != s[k] ensures x in r {
      var i :| 0 <= i < |s| && s[i] == x;
      assert r[if i < k then i else i - 1] == x;
    }
  }

  lemma InsertDistinct(a: seq<nat>, b: seq<nat>, id: nat)
    requires NoDup(a + b) && id !in a + b
    ensures NoDup(a + [id] + b)
    ensures forall x :: x in a + [id] + b <==> x in a + b || x == id
  {
    var s, s' := a + b, a + [id] + b;
    assert forall i :: 0 <= i < |s'| ==> s'[i] == if i < |a| then s[i] else if i == |a| then id else s[i - 1];
    assert s'[|a|] == id;
    forall i, j | 0 <= i < j < |s'| ensures s'[i] != s'[j] {
      if i != |a| && j != |a| {
        assert s[if i < |a| then i else i - 1] != s[if j < |a| then j else j - 1];
      } else if i == |a| {
        assert s'[j] in s;
      } else {
        assert s'[i] in s;
      }
    }
    forall x | x in s ensures x in s' {
      var i :| 0 <= i < |s| && s[i] == x;
      assert s'[if i < |a| then i else i + 1] == x;
    }
  }

  /** `tl` is in order and holds exactly the queued entities other than the running one and `id`, which
      is queued. */
  ghost predicate KeptBut(se: seq<Entity>, tl: seq<nat>, curr: int, id: nat) {
    && id < |se| && se[id].onRq && Sorted(se, tl) && NoDup(tl)
    && forall x :: 0 <= x < |se| ==> (x in tl <==> se[x].onRq && x != curr && x != id)
  }

  /** A queued entity that is not running takes its place. */
  lemma InsertKept(se: seq<Entity>, tl: seq<nat>, a: seq<nat>, b: seq<nat>, id: nat, curr: int)
    requires tl == a + b && KeptBut(se, tl, curr, id) && Spread(se, OnSet(se))
    requires AllBefore(se, a, id) && AllAfter(se, b, id) && id != curr
    ensures Kept(se, a + [id] + b, curr)
  {
    hide Diff;
    InsertDistinct(a, b, id);
    InsertSorted(se, a, b, id, OnSet(se));
  }

  /** Some tree with the given order. The colouring and rotations that `rb_insert_color` and `rb_erase`
      do after linking or unlinking a node change the shape and keep the order; callers know no more. */
  method Reshape(tl: seq<nat>) returns (t: Tree)
    ensures InOrder(t) == tl
  {
    t := Leaf;
    for k := |tl| downto 0
      invariant InOrder(t) == tl[k..]
    {
      t := Node(Leaf, tl[k], t);
    }
  }

  /** `wakeup_preempt_entity(x, left) < 1`: running `x` before `left` is not too unfair. */
  predicate NotTooUnfair(se: seq<Entity>, x: nat, left: nat, gran: nat)
    requires x < |se| && left < |se|
  {
    Diff(se, x, left) <= gran
  }

  /** There is such an entity, and it is ahead of the leftmost by no more than the leftmost's granularity. */
  ghost predicate Eligible(se: seq<Entity>, x: int, left: int, gran: nat -> nat)
    requires 0 <= left < |se|
  {
    0 <= x < |se| && Diff(se, x, left) <= gran(left)
  }

  /** The position of an entity in the order. */
  function Position(tl: seq<nat>, id: nat): (k: nat)
    requires id in tl
    ensures k < |tl| && tl[k] == id
  {
    if tl[0] == id then 0 else 1 + Position(tl[1..], id)
  }

  // ---------- one entity changes

  /** `update_curr`: the running entity's virtual time moves on by `weighted`, if it ran at all. */
  function Ticked(se: seq<Entity>, curr: int, exec: nat, weighted: nat): seq<Entity> {
    if 0 <= curr < |se| && exec != 0
    then se[curr := se[curr].(vruntime := U64(se[curr].vruntime + weighted))]
    else se
  }

  function TickedMin(se: seq<Entity>, curr: int, leftmost: int, min: u64, exec: nat): u64 {
    if 0 <= curr < |se| && exec != 0 then MinAfter(se, curr, leftmost, min) else min
  }

  /** Only the virtual time changes, of an entity that is not in the timeline. */
  lemma OutsideKept(se: seq<Entity>, tl: seq<nat>, curr: int, id: nat, v: u64)
    requires Kept(se, tl, curr) && id < |se| && id !in tl
    ensures var se' := se[id := se[id].(vruntime := v)];
            Kept(se', tl, curr) && OnSet(se') == OnSet(se)
            && CountOn(se', |se|) == CountOn(se, |se|) && LoadOn(se', |se|) == LoadOn(se, |se|)
  {
    var se' := se[id := se[id].(vruntime := v)];
    SumsChange(se, id, se'[id], |se|);
    hide Diff;
    SortedFrame(se, se', tl);
  }

  lemma SpreadSubset(se: seq<Entity>, se': seq<Entity>, on: set<nat>, on': set<nat>)
    requires Spread(se, on) && on' <= on && |se'| == |se|
    requires forall x :: x in on' && x < |se| ==> se'[x].vruntime == se[x].vruntime
    ensures Spread(se', on')
  {
    var base: int :| SpreadFrom(se, on, base);
    hide Ahead;
    assert SpreadFrom(se', on', base);
  }

  /** The entities once `id` is placed and queued. */
  function Arrived(se: seq<Entity>, min: u64, id: nat, wakeup: bool, thresh: nat): seq<Entity>
    requires id < |se|
  {
    se[id := se[id].(vruntime := PlacedAt(se[id].vruntime, min, wakeup, thresh), onRq := true)]
  }

  function WithV(se: seq<Entity>, id: nat, v: u64): seq<Entity>
    requires id < |se|
  {
    se[id := se[id].(vruntime := v)]
  }

  /** The entities once `id` is on the queue. */
  ghost function Coming(se: seq<Entity>, curr: int, leftmost: int, min: u64, id: nat, wakeup: bool, waking: bool,
                        thresh: nat, exec: nat, weighted: nat): seq<Entity>
    requires id < |se|
  {
    var se1 := Ticked(WithV(se, id, Rebased(se[id].vruntime, min, wakeup, waking)), curr, exec, weighted);
    Arrived(se1, TickedMin(se1, curr, leftmost, min, exec), id, wakeup, thresh)
  }

  /** How far the running entity is moved on. */
  function TickOf(x: int, curr: int, exec: nat, weighted: nat): nat {
    if x == curr && exec != 0 then weighted else 0
  }

  /** Everybody but `id` is as before, the running entity moved on. */
  ghost predicate OthersTicked(was: seq<Entity>, now: seq<Entity>, id: nat, curr: int, exec: nat, weighted: nat) {
    |now| == |was| && forall x :: 0 <= x < |was| && x != id ==>
      now[x] == if x == curr && exec != 0 then was[x].(vruntime := U64(was[x].vruntime + weighted)) else was[x]
  }

  /** The time an entity brings to a queue, before it is placed: its own, from a local wake-up, or its distance
      from the clock, and what it runs meanwhile if it is the running one. */
  function Base(v: u64, min: u64, wakeup: bool, waking: bool, tick: nat): u64 {
    U64(v + (if wakeup && !waking then 0 else min) + tick)
  }

  lemma BaseIsRebased(v: u64, min: u64, wakeup: bool, waking: bool, tick: nat)
    ensures U64(Rebased(v, min, wakeup, waking) + tick) == Base(v, min, wakeup, waking, tick)
    ensures Rebased(v, min, wakeup, waking) == Base(v, min, wakeup, waking, 0)
    ensures !wakeup || waking ==> U64(Base(v, min, wakeup, waking, 0) - min) == v
  {
    var m: int := min;
    WrapAdd(v + m, tick);
    WrapAdd(v + m, -m);
    assert U64(v) == v;
    hide U64;
  }

  /** What coming to a queue does to the entities. */
  lemma ComingMeans(se: seq<Entity>, curr: int, leftmost: int, min: u64, id: nat, wakeup: bool, waking: bool,
                    thresh: nat, exec: nat, weighted: nat)
    requires id < |se|
    ensures var v := Rebased(se[id].vruntime, min, wakeup, waking);
            var se1 := Ticked(WithV(se, id, v), curr, exec, weighted);
            var se' := Coming(se, curr, leftmost, min, id, wakeup, waking, thresh, exec, weighted);
            var base := Base(se[id].vruntime, min, wakeup, waking, TickOf(id, curr, exec, weighted));
            var clock := TickedMin(se1, curr, leftmost, min, exec);
            && OthersTicked(se, se', id, curr, exec, weighted)
            && se'[id] == se[id].(vruntime := PlacedAt(base, clock, wakeup, thresh), onRq := true)
  {
    hide MaxV, U64, S64, MinAfter, Rebased, Base, PlacedAt;
    BaseIsRebased(se[id].vruntime, min, wakeup, waking, weighted);
  }

  lemma PlacedMeans(base: u64, clock: u64, wakeup: bool, thresh: nat)
    ensures var p := PlacedAt(base, clock, wakeup, thresh);
            && (!wakeup ==> p == base)
            && (wakeup ==> S64(base - p) <= 0 && S64(U64(clock - thresh) - p) <= 0)
            && (wakeup ==> p == base || p == U64(clock - thresh))
  {
    MaxVNotBehind(base, U64(clock - thresh));
  }

  lemma ComingSpread(se: seq<Entity>, se': seq<Entity>, id: nat, v: u64, curr: int, exec: nat, weighted: nat)
    requires id < |se| == |se'| && !se[id].onRq && Spread(se, OnSet(se)) && Spread(se', OnSet(se'))
    requires var se1 := Ticked(WithV(se, id, v), curr, exec, weighted);
             forall x :: 0 <= x < |se| && x != id ==> se'[x] == se1[x]
    ensures OnSet(WithV(se, id, v)) == OnSet(se) && Spread(WithV(se, id, v), OnSet(se))
    ensures Spread(Ticked(WithV(se, id, v), curr, exec, weighted), OnSet(se))
  {
    SpreadSubset(se, WithV(se, id, v), OnSet(se), OnSet(se));
    assert OnSet(se) <= OnSet(se');
    SpreadSubset(se', Ticked(WithV(se, id, v), curr, exec, weighted), OnSet(se'), OnSet(se));
  }

  lemma KeptCurr(se: seq<Entity>, tl: seq<nat>, curr: nat)
    requires KeptBut(se, tl, curr, curr)
    ensures Kept(se, tl, curr)
  {
  }

  lemma ArrivedKept(se: seq<Entity>, tl: seq<nat>, curr: int, id: nat, min: u64, wakeup: bool, thresh: nat)
    requires Kept(se, tl, curr) && id < |se| && !se[id].onRq
    ensures var se' := Arrived(se, min, id, wakeup, thresh);
            && KeptBut(se', tl, curr, id)
            && CountOn(se', |se|) == CountOn(se, |se|) + 1 && LoadOn(se', |se|) == LoadOn(se, |se|) + se[id].weight
  {
    var se' := Arrived(se, min, id, wakeup, thresh);
    SumsChange(se, id, se'[id], |se|);
    hide Diff, MaxV;
    SortedFrame(se, se', tl);
  }

  /** The entities once `id` has left the queue. */
  function Gone(se: seq<Entity>, id: nat, min: u64, sleep: bool): seq<Entity>
    requires id < |se|
  {
    se[id := se[id].(onRq := false, vruntime := Leaving(se[id].vruntime, min, sleep))]
  }

  /** What leaving a queue does to the entities. */
  lemma TickedMeans(se: seq<Entity>, curr: int, exec: nat, weighted: nat, id: nat, clock: u64, sleep: bool)
    requires id < |se|
    ensures var se' := Gone(Ticked(se, curr, exec, weighted), id, clock, sleep);
            var v := U64(se[id].vruntime + TickOf(id, curr, exec, weighted));
            && OthersTicked(se, se', id, curr, exec, weighted)
            && !se'[id].onRq && se'[id].weight == se[id].weight
            && (sleep ==> se'[id].vruntime == v) && (!sleep ==> U64(se'[id].vruntime + clock) == v)
  {
    var v := U64(se[id].vruntime + TickOf(id, curr, exec, weighted));
    assert Ticked(se, curr, exec, weighted)[id].vruntime == v;
    var c: int := clock;
    WrapAdd(v - c, c);
    hide MaxV, S64;
  }

  lemma GoneHint(se: seq<Entity>, id: nat, min: u64, sleep: bool, h: int)
    requires id < |se| && Hint(se, h) && h != id
    ensures Hint(Gone(se, id, min, sleep), h)
  {
  }

  lemma GoneSpread(se: seq<Entity>, id: nat, min: u64, sleep: bool)
    requires id < |se| && Spread(se, OnSet(se))
    ensures var se' := Gone(se, id, min, sleep); Spread(se', OnSet(se'))
  {
    var se' := Gone(se, id, min, sleep);
    SpreadSubset(se, se', OnSet(se), OnSet(se'));
  }

  lemma QueuedInTimeline(se: seq<Entity>, tl: seq<nat>, curr: int, id: nat)
    requires Kept(se, tl, curr) && id < |se| && se[id].onRq
    ensures NoDup(tl) && (id != curr ==> id in tl)
  {
    hide Diff;
  }

  lemma GoneKept(se: seq<Entity>, tl: seq<nat>, curr: int, id: nat, min: u64, sleep: bool)
    requires Kept(se, tl, curr) && id < |se| && se[id].onRq
    ensures var se' := Gone(se, id, min, sleep);
            && |se'| == |se|
            && (if id == curr then Kept(se', tl, curr)
                else id in tl && var k := Position(tl, id); Kept(se', tl[..k] + tl[k + 1..], curr))
            && CountOn(se', |se|) == CountOn(se, |se|) - 1 && LoadOn(se', |se|) == LoadOn(se, |se|) - se[id].weight
  {
    var se' := Gone(se, id, min, sleep);
    SumsChange(se, id, se'[id], |se|);
    hide Diff;
    hide Position;
    if id == curr {
      SortedFrame(se, se', tl);
    } else {
      var k := Position(tl, id);
      RemoveSorted(se, tl, k);
      SortedFrame(se, se', tl[..k] + tl[k + 1..]);
      hide Sorted, NoDup;
      assert Kept(se', tl[..k] + tl[k + 1..], curr);
    }
  }

  lemma TakenKept(se: seq<Entity>, tl: seq<nat>, id: nat)
    requires Kept(se, tl, -1) && id < |se|
    ensures NoDup(tl)
    ensures if se[id].onRq then id in tl && var k := Position(tl, id); Kept(se, tl[..k] + tl[k + 1..], id)
            else Kept(se, tl, id)
  {
    hide Diff, Position;
    if se[id].onRq {
      var k := Position(tl, id);
      RemoveSorted(se, tl, k);
      hide Sorted, NoDup;
      assert Kept(se, tl[..k] + tl[k + 1..], id);
    }
  }

  ghost function Present(se: seq<Entity>, curr: int): set<nat> {
    set x | 0 <= x < |se| && (se[x].onRq || x == curr)
  }

  /** The time the clock is led to is the earliest of all queued entities and the running one. */
  lemma CandidateIsLeast(se: seq<Entity>, tl: seq<nat>, curr: int, min: u64)
    requires Kept(se, tl, curr) && -1 <= curr < |se| && Spread(se, Present(se, curr)) && Present(se, curr) != {}
    ensures exists x :: x in Present(se, curr) && se[x].vruntime == Candidate(se, curr, First(tl), min)
    ensures forall x :: x in Present(se, curr) ==> S64(Candidate(se, curr, First(tl), min) - se[x].vruntime) <= 0
  {
    hide S64;
    var present := Present(se, curr);
    if tl == [] {
      var x :| x in present;
      assert present == {x} && x == curr;
      Transitive(se, present, x, x, x);
    } else {
      var left: nat := tl[0];
      assert left in tl && left in present;
      var m := if curr < 0 || Diff(se, left, curr) < 0 then left else curr;
      assert se[m].vruntime == Candidate(se, curr, left, min);
      LeastOf(se, tl, curr, m);
      hide Candidate, Kept, Spread;
      assert forall x :: x in present ==> Diff(se, m, x) == S64(se[m].vruntime - se[x].vruntime);
    }
  }

  lemma LeastOf(se: seq<Entity>, tl: seq<nat>, curr: int, m: nat)
    requires Kept(se, tl, curr) && -1 <= curr < |se| && Spread(se, Present(se, curr)) && tl != []
    requires m == if curr < 0 || Diff(se, tl[0], curr) < 0 then tl[0] else curr
    ensures forall x :: x in Present(se, curr) ==> Diff(se, m, x) <= 0
  {
    var present, left := Present(se, curr), tl[0];
    LeftmostIsLeast(se, tl, curr);
    assert left in tl && left in present;
    hide Diff, Spread, Sorted;
    forall x | x in present ensures Diff(se, m, x) <= 0 {
      Transitive(se, present, m, left, x);
      Transitive(se, present, left, m, x);
    }
  }

  lemma {:induction false} SomeQueued(se: seq<Entity>, k: nat)
    requires k <= |se| && CountOn(se, k) > 0
    ensures exists x :: 0 <= x < k && se[x].onRq
  {
    if !se[k - 1].onRq { SomeQueued(se, k - 1); }
  }

  lemma LeftmostIsLeast(se: seq<Entity>, tl: seq<nat>, curr: int)
    requires Kept(se, tl, curr) && tl != []
    ensures forall x :: 0 <= x < |se| && se[x].onRq && x != curr ==> Diff(se, tl[0], x) <= 0
    ensures forall x :: 0 <= x < |se| ==> Diff(se, x, x) == 0
  {
    forall x | 0 <= x < |se| && se[x].onRq && x != curr ensures Diff(se, tl[0], x) <= 0 {
      var i :| 0 <= i < |tl| && tl[i] == x;
    }
  }

  class CfsRq {
    var se: seq<Entity>
    var tree: Tree
    var leftmost: int
    var curr: int
    var next: int
    var last: int
    var skip: int
    var minVruntime: u64
    var nrRunning: int
    var load: int

    ghost predicate Valid()
      reads this
    {
      && Kept(se, InOrder(tree), curr) && leftmost == First(InOrder(tree))
      && -1 <= curr < |se|
      && Spread(se, OnSet(se))
      && nrRunning == CountOn(se, |se|) && load == LoadOn(se, |se|)
      && Hint(se, next) && Hint(se, last) && Hint(se, skip)
    }

    /** `init_cfs_rq`: nothing queued, and the clock 2^20 before it wraps. */
    constructor (entities: seq<Entity>)
      requires forall x :: 0 <= x < |entities| ==> !entities[x].onRq
      ensures Valid() && se == entities && curr == next == last == skip == -1 && nrRunning == 0 && load == 0
      ensures minVruntime == M - 0x10_0000
    {
      se, tree, leftmost := entities, Leaf, -1;
      curr, next, last, skip := -1, -1, -1, -1;
      minVruntime := U64(-0x10_0000);
      nrRunning, load := 0, 0;
      new;
      NothingOn(se, |se|);
      assert SpreadFrom(se, OnSet(se), 0);
    }

    /** `__enqueue_entity`. */
    method InsertNode(id: nat, ghost on: set<nat>) returns (ghost a: seq<nat>, ghost b: seq<nat>)
      requires id < |se| && Sorted(se, InOrder(tree)) && leftmost == First(InOrder(tree))
      requires Spread(se, on) && id in on && Elements(InOrder(tree)) <= on
      modifies this`tree, this`leftmost
      ensures old(InOrder(tree)) == a + b && InOrder(tree) == a + [id] + b && leftmost == First(InOrder(tree))
      ensures AllBefore(se, a, id) && AllAfter(se, b, id)
    {
      var path, isLeftmost := FindLink(tree, se, id, on);
      a, b := Before(tree, path), After(tree, path);
      AtInOrder(tree, path);
      hide Diff, Before, After, At, IsLink, Spread;
      var node := Node(Leaf, id, Leaf);
      LinkInOrder(tree, path, node);
      assert InOrder(node) == [id];
      hide InOrder;
      if isLeftmost { leftmost := id; }
      tree := Link(tree, path, node);
      tree := Reshape(InOrder(tree));
    }

    method TakePlace(id: nat, ghost running: int)
      requires KeptBut(se, InOrder(tree), running, id) && id != running && Spread(se, OnSet(se))
      requires leftmost == First(InOrder(tree))
      modifies this`tree, this`leftmost
      ensures Kept(se, InOrder(tree), running) && leftmost == First(InOrder(tree))
    {
      ghost var tl := InOrder(tree);
      hide Diff, Spread, InOrder;
      assert Elements(tl) <= OnSet(se);
      ghost var a, b := InsertNode(id, OnSet(se));
      InsertKept(se, tl, a, b, id, running);
    }

    /** `__dequeue_entity`. */
    method RemoveNode(id: nat)
      requires id in InOrder(tree) && NoDup(InOrder(tree)) && leftmost == First(InOrder(tree))
      modifies this`tree, this`leftmost
      ensures var tl := old(InOrder(tree)); var k := Position(tl, id);
              InOrder(tree) == tl[..k] + tl[k + 1..]
      ensures leftmost == First(InOrder(tree))
    {
      var tl := InOrder(tree);
      var k := Position(tl, id);
      if leftmost == id { leftmost := First(tl[k + 1..]); }
      tree := Reshape(tl[..k] + tl[k + 1..]);
    }

    /** `update_min_vruntime`. */
    method UpdateMin()
      modifies this`minVruntime
      ensures minVruntime == MinAfter(se, curr, leftmost, old(minVruntime))
      ensures S64(minVruntime - old(minVruntime)) >= 0
    {
      ClockForward(se, curr, leftmost, minVruntime);
      var v := minVruntime;
      if 0 <= curr < |se| { v := se[curr].vruntime; }
      if 0 <= leftmost < |se| {
        v := if curr < 0 then se[leftmost].vruntime else MinV(v, se[leftmost].vruntime);
      }
      minVruntime := MaxV(minVruntime, v);
    }

    method UpdateCurr(exec: nat, weighted: nat)
      requires Valid() && Spread(Ticked(se, curr, exec, weighted), OnSet(se))
      modifies this`se, this`minVruntime
      ensures Valid() && se == Ticked(old(se), curr, exec, weighted)
      ensures curr >= 0 ==> se == WithV(old(se), curr, U64(old(se)[curr].vruntime + TickOf(curr, curr, exec, weighted)))
      ensures curr < 0 ==> se == old(se)
      ensures minVruntime == TickedMin(se, curr, leftmost, old(minVruntime), exec)
      ensures S64(minVruntime - old(minVruntime)) >= 0
    {
      if curr < 0 || exec == 0 { return; }
      OutsideKept(se, InOrder(tree), curr, curr, U64(se[curr].vruntime + weighted));
      hide Kept, Spread;
      se := WithV(se, curr, U64(se[curr].vruntime + weighted));
      UpdateMin();
    }

    /** `enqueue_entity`. */
    method EnqueueEntity(id: nat, wakeup: bool, waking: bool, thresh: nat, exec: nat, weighted: nat)
      requires Valid() && id < |se| && !se[id].onRq
      requires var se' := Coming(se, curr, leftmost, minVruntime, id, wakeup, waking, thresh, exec, weighted);
               Spread(se', OnSet(se'))
      modifies this
      ensures Valid() && curr == old(curr)
      ensures se == Coming(old(se), curr, old(leftmost), old(minVruntime), id, wakeup, waking, thresh, exec, weighted)
      ensures S64(minVruntime - old(minVruntime)) >= 0
      ensures wakeup ==> S64(U64(minVruntime - thresh) - se[id].vruntime) <= 0
      ensures |se| == |old(se)| && OthersTicked(old(se), se, id, curr, exec, weighted)
      ensures se[id].onRq && se[id].weight == old(se)[id].weight
      ensures var base := Base(old(se)[id].vruntime, old(minVruntime), wakeup, waking,
                               TickOf(id, curr, exec, weighted));
              && (!wakeup ==> se[id].vruntime == base)
              && (wakeup ==> S64(base - se[id].vruntime) <= 0)
              && (wakeup ==> se[id].vruntime == base || se[id].vruntime == U64(minVruntime - thresh))
      ensures !wakeup && id != curr ==> U64(se[id].vruntime - old(minVruntime)) == old(se)[id].vruntime
    {
      ghost var tick := TickOf(id, curr, exec, weighted);
      ghost var base := Base(se[id].vruntime, minVruntime, wakeup, waking, tick);
      ComingMeans(se, curr, leftmost, minVruntime, id, wakeup, waking, thresh, exec, weighted);
      BaseIsRebased(se[id].vruntime, minVruntime, wakeup, waking, tick);
      hide *;
      Queue(id, wakeup, waking, thresh, exec, weighted);
      PlacedMeans(base, minVruntime, wakeup, thresh);
    }

    method Queue(id: nat, wakeup: bool, waking: bool, thresh: nat, exec: nat, weighted: nat)
      requires Valid() && id < |se| && !se[id].onRq
      requires var se' := Coming(se, curr, leftmost, minVruntime, id, wakeup, waking, thresh, exec, weighted);
               Spread(se', OnSet(se'))
      modifies this
      ensures Valid() && curr == old(curr)
      ensures se == Coming(old(se), curr, old(leftmost), old(minVruntime), id, wakeup, waking, thresh, exec, weighted)
      ensures var v := Rebased(old(se)[id].vruntime, old(minVruntime), wakeup, waking);
              minVruntime == TickedMin(Ticked(WithV(old(se), id, v), curr, exec, weighted), curr, old(leftmost),
                                       old(minVruntime), exec)
      ensures S64(minVruntime - old(minVruntime)) >= 0
    {
      hide Diff, Spread, OnSet, S64, U64, MaxV, MinAfter, PlacedAt, Kept, InOrder, First, CountOn, LoadOn, Hint;
      ghost var se' := Coming(se, curr, leftmost, minVruntime, id, wakeup, waking, thresh, exec, weighted);
      var v := se[id].vruntime;
      if !wakeup || waking { v := U64(v + minVruntime); }
      ComingSpread(se, se', id, v, curr, exec, weighted);
      Carry(id, v);
      UpdateCurr(exec, weighted);
      Arrive(id, wakeup, thresh);
    }

    /** The second half of `enqueue_entity`: account for the entity, place it and put it in the timeline. */
    method Arrive(id: nat, wakeup: bool, thresh: nat)
      requires Valid() && id < |se| && !se[id].onRq
      requires var se' := Arrived(se, minVruntime, id, wakeup, thresh); Spread(se', OnSet(se'))
      modifies this`se, this`tree, this`leftmost, this`load, this`nrRunning
      ensures Valid() && se == Arrived(old(se), minVruntime, id, wakeup, thresh)
      ensures wakeup ==> S64(U64(minVruntime - thresh) - se[id].vruntime) <= 0
    {
      PlacedMeans(se[id].vruntime, minVruntime, wakeup, thresh);
      hide Diff, Spread, OnSet, S64, U64, Kept, KeptBut, InOrder, CountOn, LoadOn, MaxV, First, Hint, PlacedAt;
      Place(id, wakeup, thresh);
      if id != curr {
        TakePlace(id, curr);
      } else {
        KeptCurr(se, InOrder(tree), curr);
      }
    }

    /** Everything but the entity's place in the timeline. */
    method Place(id: nat, wakeup: bool, thresh: nat)
      requires Valid() && id < |se| && !se[id].onRq
      modifies this`se, this`load, this`nrRunning
      ensures se == Arrived(old(se), minVruntime, id, wakeup, thresh) && KeptBut(se, InOrder(tree), curr, id)
      ensures nrRunning == CountOn(se, |se|) && load == LoadOn(se, |se|)
      ensures Hint(se, next) && Hint(se, last) && Hint(se, skip)
    {
      ghost var se' := Arrived(se, minVruntime, id, wakeup, thresh);
      assert Hint(se', next) && Hint(se', last) && Hint(se', skip);
      hide Diff, Spread, OnSet, S64, U64, Kept, KeptBut, InOrder, CountOn, LoadOn, MaxV, First, Hint;
      ArrivedKept(se, InOrder(tree), curr, id, minVruntime, wakeup, thresh);
      load, nrRunning := load + se[id].weight, nrRunning + 1;
      var v := se[id].vruntime;
      if wakeup { v := MaxV(v, U64(minVruntime - thresh)); }
      se := se[id := se[id].(vruntime := v, onRq := true)];
    }

    /** The entity's virtual time as it was when it left another queue. */
    method Carry(id: nat, v: u64)
      requires Valid() && id < |se| && !se[id].onRq
      modifies this`se
      ensures Valid() && se == WithV(old(se), id, v)
    {
      assert id !in InOrder(tree);
      ghost var se' := WithV(se, id, v);
      assert Hint(se', next) && Hint(se', last) && Hint(se', skip);
      hide Diff, Spread, OnSet, Kept, InOrder, CountOn, LoadOn, First, Hint;
      OutsideKept(se, InOrder(tree), curr, id, v);
      WithVSpread(se, id, v);
      se := se[id := se[id].(vruntime := v)];
    }

    /** An entity that comes from another queue, with the relative time it left with. */
    method Adopt(id: nat, v: u64)
      requires Valid() && id < |se| && !se[id].onRq && id != curr
      requires var se' := Coming(WithV(se, id, v), curr, leftmost, minVruntime, id, false, false, 0, 0, 0);
               Spread(se', OnSet(se'))
      modifies this
      ensures Valid() && |se| == |old(se)| && se[id].onRq && U64(se[id].vruntime - old(minVruntime)) == v
    {
      hide Diff, Spread, S64, U64, Kept, InOrder, First, CountOn, LoadOn, Hint, OnSet, MinAfter, Coming, Base, Ticked,
           OthersTicked;
      Carry(id, v);
      EnqueueEntity(id, false, false, 0, 0, 0);
    }

    /** `clear_buddies`. */
    method ClearBuddies(id: int)
      modifies this`next, this`last, this`skip
      ensures next == (if old(next) == id then -1 else old(next))
      ensures last == (if old(last) == id then -1 else old(last))
      ensures skip == (if old(skip) == id then -1 else old(skip))
    {
      if last == id { last := -1; }
      if next == id { next := -1; }
      if skip == id { skip := -1; }
    }

    /** `dequeue_entity`: an entity that does not go to sleep leaves with a virtual time relative to `clock`, the
        queue's clock once the running entity is up to date. */
    method DequeueEntity(id: nat, sleep: bool, exec: nat, weighted: nat) returns (ghost clock: u64)
      requires Valid() && id < |se| && se[id].onRq && Spread(Ticked(se, curr, exec, weighted), OnSet(se))
      modifies this
      ensures Valid() && curr == old(curr)
      ensures S64(clock - old(minVruntime)) >= 0 && (curr < 0 || exec == 0 ==> clock == old(minVruntime))
      ensures minVruntime == MinAfter(se, curr, leftmost, clock)
      ensures |se| == |old(se)| && OthersTicked(old(se), se, id, curr, exec, weighted)
      ensures !se[id].onRq && se[id].weight == old(se)[id].weight
      ensures var v := U64(old(se)[id].vruntime + TickOf(id, curr, exec, weighted));
              && (sleep ==> se[id].vruntime == v)
              && (!sleep ==> U64(se[id].vruntime + clock) == v)
      ensures next == (if old(next) == id then -1 else old(next))
      ensures last == (if old(last) == id then -1 else old(last))
      ensures skip == (if old(skip) == id then -1 else old(skip))
    {
      hide Kept, Diff, Spread, OnSet, S64, InOrder, CountOn, LoadOn, First, MinAfter, U64, Leaving;
      UpdateCurr(exec, weighted);
      clock := minVruntime;
      TickedMeans(old(se), curr, exec, weighted, id, clock, sleep);
      ClearBuddies(id);
      Depart(id, sleep);
      UpdateMin();
    }

    method Depart(id: nat, sleep: bool)
      requires Valid() && id < |se| && se[id].onRq && next != id && last != id && skip != id
      modifies this`se, this`tree, this`leftmost, this`load, this`nrRunning
      ensures Valid() && se == Gone(old(se), id, minVruntime, sleep)
    {
      hide Kept, NoDup, Hint, Diff, Spread, OnSet, U64, S64, InOrder, CountOn, LoadOn, First, Position, Gone, Leaving;
      ghost var tl := InOrder(tree);
      QueuedInTimeline(se, tl, curr, id);
      GoneKept(se, tl, curr, id, minVruntime, sleep);
      GoneSpread(se, id, minVruntime, sleep);
      GoneHint(se, id, minVruntime, sleep, next);
      GoneHint(se, id, minVruntime, sleep, last);
      GoneHint(se, id, minVruntime, sleep, skip);
      if id != curr { RemoveNode(id); }
      load, nrRunning := load - se[id].weight, nrRunning - 1;
      Release(id, sleep);
    }

    method Release(id: nat, sleep: bool)
      requires id < |se|
      modifies this`se
      ensures se == Gone(old(se), id, minVruntime, sleep)
    {
      var v := se[id].vruntime;
      if !sleep { v := U64(v - minVruntime); }
      se := se[id := se[id].(onRq := false, vruntime := v)];
    }

    /** `set_next_entity`. */
    method SetNextEntity(id: nat)
      requires Valid() && curr == -1 && id < |se|
      modifies this`tree, this`leftmost, this`curr
      ensures Valid() && curr == id
    {
      hide Kept, NoDup, Diff, Spread, OnSet, S64, InOrder, CountOn, LoadOn, First, Hint;
      TakenKept(se, InOrder(tree), id);
      if se[id].onRq { RemoveNode(id); }
      curr := id;
    }

    /** `put_prev_entity`. */
    method PutPrevEntity(exec: nat, weighted: nat)
      requires Valid() && curr >= 0 && Spread(Ticked(se, curr, exec, weighted), OnSet(se))
      modifies this
      ensures Valid() && curr == -1
      ensures se == if old(se)[old(curr)].onRq then Ticked(old(se), old(curr), exec, weighted) else old(se)
      ensures next == old(next) && last == old(last) && skip == old(skip)
    {
      hide Diff, Spread, OnSet, S64, InOrder, CountOn, LoadOn;
      if se[curr].onRq {
        UpdateCurr(exec, weighted);
        TakePlace(curr, -1);
      }
      curr := -1;
    }

    /** `set_next_buddy`, `set_last_buddy` and `set_skip_buddy` on this queue; a SCHED_IDLE task is not marked.
        The hints stay good exactly when the entity is queued. */
    method SetNextBuddy(id: nat, idle: bool)
      requires Valid() && id < |se|
      modifies this`next
      ensures next == if idle then old(next) else id
      ensures Valid() <==> idle || se[id].onRq
    {
      if !idle { next := id; }
    }

    method SetLastBuddy(id: nat, idle: bool)
      requires Valid() && id < |se|
      modifies this`last
      ensures last == if idle then old(last) else id
      ensures Valid() <==> idle || se[id].onRq
    {
      if !idle { last := id; }
    }

    method SetSkipBuddy(id: nat)
      requires Valid() && id < |se|
      modifies this`skip
      ensures skip == id
      ensures Valid() <==> se[id].onRq
    {
      skip := id;
    }

    /** The choice of `pick_next_entity`: the leftmost entity, or a preferred one that is not too far
        ahead of it. */
    method Choose(gran: nat -> nat) returns (id: nat)
      requires Valid() && curr == -1 && nrRunning > 0
      ensures leftmost >= 0 && id < |se| && se[id].onRq && id in InOrder(tree)
      ensures forall x :: 0 <= x < |se| && se[x].onRq ==> Diff(se, leftmost, x) <= 0
      ensures Diff(se, id, leftmost) <= gran(leftmost)
      ensures Eligible(se, next, leftmost, gran) ==> id == next
      ensures !Eligible(se, next, leftmost, gran) && Eligible(se, last, leftmost, gran) ==> id == last
      ensures !Eligible(se, next, leftmost, gran) && !Eligible(se, last, leftmost, gran) ==>
                var tl := InOrder(tree);
                id == if skip == leftmost && |tl| > 1 && Eligible(se, tl[1], leftmost, gran) then tl[1] else leftmost
    {
      SomeQueued(se, |se|);
      LeftmostIsLeast(se, InOrder(tree), curr);
      var tl := InOrder(tree);
      var left: nat := leftmost;
      assert forall x :: 0 <= x < |se| ==> (x in tl <==> se[x].onRq);
      assert |tl| > 1 ==> tl[1] < |se| && tl[1] in tl;
      hide Kept, S64, Diff, Spread, OnSet, CountOn, LoadOn, InOrder;
      id := left;
      if skip == id && |tl| > 1 && NotTooUnfair(se, tl[1], left, gran(left)) {
        id := tl[1];
      }
      if last >= 0 && NotTooUnfair(se, last, left, gran(left)) { id := last; }
      if next >= 0 && NotTooUnfair(se, next, left, gran(left)) { id := next; }
    }

    /** `pick_next_entity`. */
    method PickNextEntity(gran: nat -> nat) returns (id: nat)
      requires Valid() && curr == -1 && nrRunning > 0
      modifies this`next, this`last, this`skip
      ensures Valid() && leftmost >= 0 && id < |se| && se[id].onRq && id in InOrder(tree)
      ensures forall x :: 0 <= x < |se| && se[x].onRq ==> Diff(se, leftmost, x) <= 0
      ensures Diff(se, id, leftmost) <= gran(leftmost)
      ensures next != id && last != id && skip != id
      ensures next == (if old(next) == id then -1 else old(next))
      ensures last == (if old(last) == id then -1 else old(last))
      ensures skip == (if old(skip) == id then -1 else old(skip))
    {
      id := Choose(gran);
      hide Kept, S64, Diff, Spread, OnSet, CountOn, LoadOn, InOrder;
      ClearBuddies(id);
    }
  }

  /** `__migrate_task` for an entity that is queued and not running: it is as far from the clock of the queue it
      comes to as it was from the clock of the one it left. */
  method Migrate(src: CfsRq, dst: CfsRq, id: nat)
    requires src != dst && src.Valid() && dst.Valid() && id < |src.se| && id < |dst.se|
    requires src.se[id].onRq && id != src.curr && !dst.se[id].onRq && id != dst.curr
    requires var se := WithV(dst.se, id, U64(src.se[id].vruntime - src.minVruntime));
             var se' := Coming(se, dst.curr, dst.leftmost, dst.minVruntime, id, false, false, 0, 0, 0);
             Spread(se', OnSet(se'))
    modifies src, dst
    ensures src.Valid() && dst.Valid() && |src.se| == old(|src.se|) && |dst.se| == old(|dst.se|)
    ensures !src.se[id].onRq && dst.se[id].onRq
    ensures Ahead(dst.se[id].vruntime, old(dst.minVruntime)) == old(Ahead(src.se[id].vruntime, src.minVruntime))
  {
    ghost var v, m := src.se[id].vruntime, src.minVruntime;
    assert Ticked(src.se, src.curr, 0, 0) == src.se;
    hide Diff, Spread, S64, U64, Kept, InOrder, First, CountOn, LoadOn, Hint, OnSet, MinAfter, Coming, Base, Ticked,
         OthersTicked;
    ghost var clock := src.DequeueEntity(id, false, 0, 0);
    RelativeOf(src.se[id].vruntime, v, m);
    dst.Adopt(id, src.se[id].vruntime);
  }

  lemma WithVSpread(se: seq<Entity>, id: nat, v: u64)
    requires id < |se| && !se[id].onRq && Spread(se, OnSet(se))
    ensures OnSet(WithV(se, id, v)) == OnSet(se) && Spread(WithV(se, id, v), OnSet(se))
  {
    SpreadSubset(se, WithV(se, id, v), OnSet(se), OnSet(se));
  }

  lemma RelativeOf(r: u64, v: u64, m: u64)
    requires U64(r + m) == U64(v + 0)
    ensures r == U64(v - m)
  {
    var c: int := m;
    WrapAdd(r + c, -c);
  }

  lemma {:induction false} NothingOn(se: seq<Entity>, k: nat)
    requires k <= |se| && forall x :: 0 <= x < |se| ==> !se[x].onRq
    ensures CountOn(se, k) == 0 && LoadOn(se, k) == 0
  {
    if k > 0 { NothingOn(se, k - 1); }
  }
}
