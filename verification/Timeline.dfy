/** The time-ordered tree of a fair run queue, with its cached leftmost node. */
module Timelines {
  import opened Wrap64

  /** A schedulable entity. Virtual time is an unsigned 64-bit counter that wraps around. */
  datatype Entity = Entity(vruntime: u64, weight: nat, onRq: bool)

  // ---------- comparing virtual times

  /** `(s64)(x->vruntime - y->vruntime)`. */
  function Diff(se: seq<Entity>, x: nat, y: nat): int
    requires x < |se| && y < |se|
  {
    S64(se[x].vruntime - se[y].vruntime)
  }

  /** How far a virtual time lies ahead of `base`. */
  function Ahead(v: int, base: int): nat {
    U64(v - base)
  }

  /** All the virtual times of `on` lie in one half of the clock. */
  ghost predicate SpreadFrom(se: seq<Entity>, on: set<nat>, base: int) {
    forall x :: x in on ==> x < |se| && Ahead(se[x].vruntime, base) < HALF
  }

  ghost predicate Spread(se: seq<Entity>, on: set<nat>) {
    exists base: int :: SpreadFrom(se, on, base)
  }

  /** Within half of the clock, the wrapped comparison is the comparison of integers. */
  lemma DiffIsAhead(v: int, w: int, base: int)
    requires Ahead(v, base) < HALF && Ahead(w, base) < HALF
    ensures S64(v - w) == Ahead(v, base) - Ahead(w, base)
  {
    var a, b := Ahead(v, base), Ahead(w, base);
    var i, j := (v - base) / M, (w - base) / M;
    assert v - w == a - b + M * (i - j);
    assert (v - w) % M == (a - b) % M by { ModShift(a - b, i - j); }
  }

  lemma ModShift(x: int, k: int)
    ensures (x + M * k) % M == x % M
  {
  }

  // ---------- trees

  datatype Tree = Leaf | Node(left: Tree, id: nat, right: Tree)

  function InOrder(t: Tree): seq<nat> {
    match t
    case Leaf => []
    case Node(l, id, r) => InOrder(l) + [id] + InOrder(r)
  }

  datatype Dir = L | R

  /** A link of the tree, named by the way to it. */
  predicate IsLink(t: Tree, path: seq<Dir>) {
    path == [] || (t.Node? && IsLink(if path[0].L? then t.left else t.right, path[1..]))
  }

  function At(t: Tree, path: seq<Dir>): Tree
    requires IsLink(t, path)
  {
    if path == [] then t else At(if path[0].L? then t.left else t.right, path[1..])
  }

  /** `rb_link_node`. */
  function Link(t: Tree, path: seq<Dir>, n: Tree): Tree
    requires IsLink(t, path)
  {
    if path == [] then n
    else if path[0].L? then Node(Link(t.left, path[1..], n), t.id, t.right)
    else Node(t.left, t.id, Link(t.right, path[1..], n))
  }

  ghost function Before(t: Tree, path: seq<Dir>): seq<nat>
    requires IsLink(t, path)
  {
    if path == [] then []
    else if path[0].L? then Before(t.left, path[1..])
    else InOrder(t.left) + [t.id] + Before(t.right, path[1..])
  }

  ghost function After(t: Tree, path: seq<Dir>): seq<nat>
    requires IsLink(t, path)
  {
    if path == [] then []
    else if path[0].L? then After(t.left, path[1..]) + [t.id] + InOrder(t.right)
    else After(t.right, path[1..])
  }

  lemma {:induction false} LinkInOrder(t: Tree, path: seq<Dir>, n: Tree)
    requires IsLink(t, path)
    ensures InOrder(Link(t, path, n)) == Before(t, path) + InOrder(n) + After(t, path)
  {
    if path != [] { LinkInOrder(if path[0].L? then t.left else t.right, path[1..], n); }
  }

  lemma {:induction false} AtInOrder(t: Tree, path: seq<Dir>)
    requires IsLink(t, path)
    ensures InOrder(t) == Before(t, path) + InOrder(At(t, path)) + After(t, path)
  {
    if path != [] { AtInOrder(if path[0].L? then t.left else t.right, path[1..]); }
  }

  /** One step further down. */
  lemma {:induction false} Deeper(t: Tree, path: seq<Dir>, d: Dir)
    requires IsLink(t, path) && At(t, path).Node?
    ensures var n := At(t, path);
            IsLink(t, path + [d]) && At(t, path + [d]) == if d.L? then n.left else n.right
    ensures var n := At(t, path);
            Before(t, path + [d]) == Before(t, path) + if d.L? then [] else InOrder(n.left) + [n.id]
    ensures var n := At(t, path);
            After(t, path + [d]) == (if d.L? then [n.id] + InOrder(n.right) else []) + After(t, path)
  {
    if path == [] {
      assert [d][1..] == [];
    } else {
      assert (path + [d])[1..] == path[1..] + [d];
      Deeper(if path[0].L? then t.left else t.right, path[1..], d);
    }
  }

  // ---------- order

  ghost predicate Known(se: seq<Entity>, s: seq<nat>) {
    forall i :: 0 <= i < |s| ==> s[i] < |se|
  }

  /** In order of virtual time. */
  ghost predicate Sorted(se: seq<Entity>, s: seq<nat>) {
    Known(se, s) && forall i, j :: 0 <= i < j < |s| ==> Diff(se, s[i], s[j]) <= 0
  }

  ghost predicate AllBefore(se: seq<Entity>, s: seq<nat>, id: nat) {
    id < |se| && Known(se, s) && forall i :: 0 <= i < |s| ==> Diff(se, id, s[i]) >= 0
  }

  ghost predicate AllAfter(se: seq<Entity>, s: seq<nat>, id: nat) {
    id < |se| && Known(se, s) && forall i :: 0 <= i < |s| ==> Diff(se, id, s[i]) < 0
  }

  ghost function Elements(s: seq<nat>): set<nat> {
    set i | 0 <= i < |s| :: s[i]
  }

  lemma Transitive(se: seq<Entity>, on: set<nat>, x: nat, y: nat, z: nat)
    requires Spread(se, on) && x in on && y in on && z in on && x < |se| && y < |se| && z < |se|
    ensures Diff(se, x, z) == Diff(se, x, y) + Diff(se, y, z) && Diff(se, y, x) == -Diff(se, x, y)
  {
    var base: int :| SpreadFrom(se, on, base);
    var u, v, w := se[x].vruntime, se[y].vruntime, se[z].vruntime;
    DiffIsAhead(u, w, base);
    DiffIsAhead(u, v, base);
    DiffIsAhead(v, w, base);
    DiffIsAhead(v, u, base);
    hide S64, Ahead;
  }

  /** Whatever stands after an entity that `id` precedes, `id` precedes too. */
  lemma PrecedesRest(se: seq<Entity>, on: set<nat>, s: seq<nat>, k: nat, id: nat, rest: seq<nat>)
    requires Sorted(se, s) && k < |s| && id < |se| && Spread(se, on) && id in on && Elements(s) <= on
    requires rest <= s[k + 1..] && Diff(se, id, s[k]) < 0
    ensures AllAfter(se, rest, id)
  {
    forall i | 0 <= i < |rest| ensures rest[i] < |se| && Diff(se, id, rest[i]) < 0 {
      assert rest[i] == s[k + 1 + i];
      assert s[k] in Elements(s) && s[k + 1 + i] in Elements(s);
      Transitive(se, on, id, s[k], s[k + 1 + i]);
    }
  }

  lemma FollowsRest(se: seq<Entity>, on: set<nat>, s: seq<nat>, j: nat, k: nat, id: nat)
    requires Sorted(se, s) && j <= k < |s| && id < |se| && Spread(se, on) && id in on && Elements(s) <= on
    requires Diff(se, id, s[k]) >= 0
    ensures AllBefore(se, s[j..k], id)
  {
    forall i | 0 <= i < k - j ensures Diff(se, id, s[j..k][i]) >= 0 {
      assert s[j..k][i] == s[j + i];
      assert s[k] in Elements(s) && s[j + i] in Elements(s);
      Transitive(se, on, id, s[k], s[j + i]);
      Transitive(se, on, s[j + i], s[k], id);
    }
  }

  lemma MiddleOf(a: seq<nat>, l: seq<nat>, id: nat, r: seq<nat>, b: seq<nat>)
    ensures var s, k := a + (l + [id] + r) + b, |a| + |l|;
            k < |s| && s[k] == id && s[|a|..k] == l && r <= s[k + 1..]
  {
  }

  /** The node at a link stands in the middle of the order. */
  lemma Middle(t: Tree, path: seq<Dir>)
    requires IsLink(t, path) && At(t, path).Node?
    ensures var n := At(t, path);
            var s, k := InOrder(t), |Before(t, path)| + |InOrder(n.left)|;
            k < |s| && s[k] == n.id && s[|Before(t, path)|..k] == InOrder(n.left) && InOrder(n.right) <= s[k + 1..]
  {
    AtInOrder(t, path);
    var n := At(t, path);
    MiddleOf(Before(t, path), InOrder(n.left), n.id, InOrder(n.right), After(t, path));
    assert InOrder(n) == InOrder(n.left) + [n.id] + InOrder(n.right);
    hide *;
  }

  lemma GoLeft(t: Tree, path: seq<Dir>, se: seq<Entity>, on: set<nat>, id: nat)
    requires IsLink(t, path) && At(t, path).Node? && id < |se| && id in on && Spread(se, on)
    requires Sorted(se, InOrder(t)) && Elements(InOrder(t)) <= on && At(t, path).id < |se|
    requires Diff(se, id, At(t, path).id) < 0 && AllAfter(se, After(t, path), id)
    ensures AllAfter(se, [At(t, path).id] + InOrder(At(t, path).right) + After(t, path), id)
  {
    var n := At(t, path);
    Middle(t, path);
    PrecedesRest(se, on, InOrder(t), |Before(t, path)| + |InOrder(n.left)|, id, InOrder(n.right));
    hide Diff, Spread, Sorted, InOrder, At, IsLink;
  }

  lemma GoRight(t: Tree, path: seq<Dir>, se: seq<Entity>, on: set<nat>, id: nat)
    requires IsLink(t, path) && At(t, path).Node? && id < |se| && id in on && Spread(se, on)
    requires Sorted(se, InOrder(t)) && Elements(InOrder(t)) <= on && At(t, path).id < |se|
    requires Diff(se, id, At(t, path).id) >= 0 && AllBefore(se, Before(t, path), id)
    ensures AllBefore(se, Before(t, path) + (InOrder(At(t, path).left) + [At(t, path).id]), id)
  {
    var n := At(t, path);
    Middle(t, path);
    var j := |Before(t, path)|;
    FollowsRest(se, on, InOrder(t), j, j + |InOrder(n.left)|, id);
    hide Diff, Spread, Sorted, InOrder, At, IsLink;
  }

  /** The descent of `__enqueue_entity`. */
  method FindLink(t: Tree, se: seq<Entity>, id: nat, ghost on: set<nat>) returns (path: seq<Dir>, leftmost: bool)
    requires id < |se| && Sorted(se, InOrder(t))
    requires Spread(se, on) && id in on && Elements(InOrder(t)) <= on
    ensures IsLink(t, path) && At(t, path).Leaf?
    ensures AllBefore(se, Before(t, path), id) && AllAfter(se, After(t, path), id)
    ensures leftmost <==> Before(t, path) == []
  {
    path, leftmost := [], true;
    var link := t;
    assert Before(t, path) == [] && After(t, path) == [] && IsLink(t, path) && At(t, path) == t;
    hide Diff, Spread, Elements, InOrder, IsLink, At, Before, After;
    while link.Node?
      invariant IsLink(t, path) && At(t, path) == link
      invariant AllBefore(se, Before(t, path), id) && AllAfter(se, After(t, path), id)
      invariant leftmost <==> Before(t, path) == []
      decreases link
    {
      var entry := link.id;
      Middle(t, path);
      if Diff(se, id, entry) < 0 {
        GoLeft(t, path, se, on, id);
        Deeper(t, path, L);
        path := path + [L];
        link := link.left;
      } else {
        GoRight(t, path, se, on, id);
        Deeper(t, path, R);
        path := path + [R];
        link := link.right;
        leftmost := false;
      }
    }
  }
}
