/** The cache of user structures: hash chains by namespace and uid, and reference counts that are
    dropped without the lock except for the last. */
module UidCache {
  import opened Bits
  import opened Sequences

  /** `UIDHASH_BITS`. */
  const BITS: nat

  datatype Bucket = Bucket(ns: nat, hash: nat)

  /** `__uidhashfn`. */
  function UidHash(uid: nat): nat {
    And(ShiftRight(uid, BITS) + uid, Pow2(BITS) - 1)
  }

  /** A bucket always exists: the high and the low part of the uid, added up in a ring of the table's size. */
  lemma HashInTable(uid: nat)
    ensures UidHash(uid) < Pow2(BITS)
    ensures UidHash(uid) == (uid / Pow2(BITS) + uid) % Pow2(BITS)
  {
    hide Pow2, ShiftRight, And;
    MaskLow(ShiftRight(uid, BITS) + uid, BITS);
    ShiftIsQuotient(uid, BITS);
  }

  datatype Life = New | Hashed | Freed

  /** A user structure. `refs` records how many references callers hold. */
  datatype User = User(ns: nat, uid: nat, count: int, life: Life, refs: nat)

  function BucketOf(ns: nat, uid: nat): Bucket {
    Bucket(ns, UidHash(uid))
  }

  type Table = map<Bucket, seq<nat>>

  function Chain(table: Table, b: Bucket): seq<nat> {
    if b in table then table[b] else []
  }

  /** The first structure of a chain with this uid. */
  function FindIn(users: seq<User>, chain: seq<nat>, uid: nat): (r: Option<nat>)
    ensures r.Some? ==> r.value in chain && r.value < |users| && users[r.value].uid == uid
    ensures r.None? ==> forall i :: 0 <= i < |chain| && chain[i] < |users| ==> users[chain[i]].uid != uid
  {
    if chain == [] then None
    else if chain[0] < |users| && users[chain[0]].uid == uid then Some(chain[0])
    else FindIn(users, chain[1..], uid)
  }

  function Taken(users: seq<User>, id: nat): seq<User>
    requires id < |users|
  {
    users[id := users[id].(count := users[id].count + 1, refs := users[id].refs + 1)]
  }

  /** The structure has one reference more, and nothing else changes. */
  predicate OneMore(was: seq<User>, now: seq<User>, id: nat) {
    && id < |was| == |now| && (forall j :: 0 <= j < |was| && j != id ==> now[j] == was[j])
    && now[id].count == was[id].count + 1 && now[id].refs == was[id].refs + 1
    && now[id].ns == was[id].ns && now[id].uid == was[id].uid && now[id].life == was[id].life
  }

  /** `hlist_del`: unlink one node. */
  function Without(chain: seq<nat>, id: nat): seq<nat> {
    if chain == [] then []
    else if chain[0] == id then chain[1..]
    else [chain[0]] + Without(chain[1..], id)
  }

  lemma {:induction false} WithoutElements(chain: seq<nat>, id: nat)
    requires NoDup(chain)
    ensures NoDup(Without(chain, id))
    ensures forall x :: x in Without(chain, id) <==> x in chain && x != id
  {
    if chain != [] {
      assert chain == [chain[0]] + chain[1..];
      if chain[0] == id {
        assert id !in chain[1..];
      } else {
        WithoutElements(chain[1..], id);
        assert chain[0] !in chain[1..];
      }
    }
  }

  lemma OneMoreInFront(chain: seq<nat>, id: nat)
    requires NoDup(chain) && id !in chain
    ensures NoDup([id] + chain)
  {
  }

  // ---------- interleaved calls

  /** Where a call is between its critical sections. */
  datatype Pc =
    | Idle
    | Missed(ns: nat, uid: nat)           // alloc_uid found nothing
    | Made(id: nat, ns: nat, uid: nat)    // alloc_uid has a new structure
    | Freeing(id: nat)                    // free_uid saw the last reference and waits for the lock

  datatype State = State(users: seq<User>, table: Table, pcs: seq<Pc>)

  datatype Step =
    | FindUser(ns: nat, uid: nat)
    | AllocLook(t: nat, ns: nat, uid: nat)
    | AllocNew(t: nat)
    | AllocFail(t: nat)
    | AllocInsert(t: nat)
    | FreeFast(id: nat)
    | FreeLast(t: nat, id: nat)
    | FreeLocked(t: nat)

  ghost predicate Enabled(s: State, step: Step) {
    match step
    case FindUser(ns, uid) => true
    case AllocLook(t, ns, uid) => t < |s.pcs| && s.pcs[t].Idle?
    case AllocNew(t) => t < |s.pcs| && s.pcs[t].Missed?
    case AllocFail(t) => t < |s.pcs| && s.pcs[t].Missed?
    case AllocInsert(t) => t < |s.pcs| && s.pcs[t].Made? && s.pcs[t].id < |s.users|
    case FreeFast(id) => id < |s.users| && s.users[id].refs > 0 && s.users[id].count != 1
    case FreeLast(t, id) =>
      t < |s.pcs| && s.pcs[t].Idle? && id < |s.users| && s.users[id].refs > 0 && s.users[id].count == 1
    case FreeLocked(t) => t < |s.pcs| && s.pcs[t].Freeing? && s.pcs[t].id < |s.users|
  }

  /** `uid_hash_find` under the lock, with the reference it takes. */
  function Found(s: State, ns: nat, uid: nat): Option<nat> {
    FindIn(s.users, Chain(s.table, BucketOf(ns, uid)), uid)
  }

  function Looked(s: State, ns: nat, uid: nat): State {
    match Found(s, ns, uid)
    case None => s
    case Some(id) => s.(users := Taken(s.users, id))
  }

  ghost function Apply(s: State, step: Step): State
    requires Enabled(s, step)
  {
    match step
    case FindUser(ns, uid) => Looked(s, ns, uid)
    case AllocLook(t, ns, uid) =>
      if Found(s, ns, uid).Some? then Looked(s, ns, uid) else s.(pcs := s.pcs[t := Missed(ns, uid)])
    case AllocNew(t) =>
      s.(users := s.users + [User(s.pcs[t].ns, s.pcs[t].uid, 1, New, 0)],
         pcs := s.pcs[t := Made(|s.users|, s.pcs[t].ns, s.pcs[t].uid)])
    case AllocFail(t) => s.(pcs := s.pcs[t := Idle])
    case AllocInsert(t) =>
      var id := s.pcs[t].id;
      var ns, uid := s.pcs[t].ns, s.pcs[t].uid;
      var u := s.users[id];
      var s1 := s.(pcs := s.pcs[t := Idle]);
      var b := BucketOf(ns, uid);
      if Found(s, ns, uid).Some?
      then var s2 := Looked(s1, ns, uid); s2.(users := s2.users[id := s2.users[id].(life := Freed)])
      else s1.(users := s.users[id := u.(life := Hashed, refs := 1)], table := s.table[b := [id] + Chain(s.table, b)])
    case FreeFast(id) =>
      var u := s.users[id];
      s.(users := s.users[id := u.(count := u.count - 1, refs := u.refs - 1)])
    case FreeLast(t, id) =>
      var u := s.users[id];
      s.(users := s.users[id := u.(refs := u.refs - 1)], pcs := s.pcs[t := Freeing(id)])
    case FreeLocked(t) =>
      var id := s.pcs[t].id;
      var u := s.users[id];
      var b := BucketOf(u.ns, u.uid);
      if u.count - 1 != 0
      then s.(users := s.users[id := u.(count := u.count - 1)], pcs := s.pcs[t := Idle])
      else s.(users := s.users[id := u.(count := 0, life := Freed)], pcs := s.pcs[t := Idle],
              table := s.table[b := Without(Chain(s.table, b), id)])
  }

  // ---------- the invariant

  /** How many of the first `k` calls are giving up a last reference to `id`. */
  function Givers(pcs: seq<Pc>, id: nat, k: nat): nat
    requires k <= |pcs|
  {
    if k == 0 then 0 else Givers(pcs, id, k - 1) + if pcs[k - 1] == Freeing(id) then 1 else 0
  }

  /** A hashed structure's count is its references and it is in its own bucket; nothing refers to a freed
      one. */
  ghost predicate UserOk(s: State, id: nat)
    requires id < |s.users|
  {
    var u := s.users[id];
    match u.life
    case Hashed =>
      && u.count == u.refs + Givers(s.pcs, id, |s.pcs|) && u.count >= 1
      && id in Chain(s.table, BucketOf(u.ns, u.uid))
    case New => u.count == 1 && u.refs == 0 && Givers(s.pcs, id, |s.pcs|) == 0
    case Freed => u.refs == 0 && Givers(s.pcs, id, |s.pcs|) == 0
  }

  /** What stands in a chain is hashed and belongs there, and stands there once. */
  ghost predicate ChainOk(s: State, b: Bucket) {
    NoDup(Chain(s.table, b))
    && forall id :: id in Chain(s.table, b) ==>
      id < |s.users| && s.users[id].life == Hashed && BucketOf(s.users[id].ns, s.users[id].uid) == b
  }

  ghost predicate PcOk(s: State, t: nat)
    requires t < |s.pcs|
  {
    match s.pcs[t]
    case Idle => true
    case Missed(_, _) => true
    case Made(id, ns, uid) =>
      id < |s.users| && s.users[id].life == New && s.users[id].ns == ns && s.users[id].uid == uid
    case Freeing(id) => id < |s.users| && s.users[id].life == Hashed
  }

  /** At most one structure per namespace and uid. */
  ghost predicate OneEach(s: State) {
    forall i, j :: 0 <= i < j < |s.users| && s.users[i].life == Hashed && s.users[j].life == Hashed ==>
      s.users[i].ns != s.users[j].ns || s.users[i].uid != s.users[j].uid
  }

  ghost predicate OwnNew(s: State) {
    forall t, t' :: 0 <= t < t' < |s.pcs| && s.pcs[t].Made? && s.pcs[t'].Made? ==> s.pcs[t].id != s.pcs[t'].id
  }

  ghost predicate Inv(s: State) {
    && (forall id :: 0 <= id < |s.users| ==> UserOk(s, id))
    && (forall b :: ChainOk(s, b))
    && (forall t :: 0 <= t < |s.pcs| ==> PcOk(s, t))
    && OneEach(s) && OwnNew(s)
  }

  lemma {:induction false} GiversChange(pcs: seq<Pc>, t: nat, pc: Pc, id: nat, k: nat)
    requires t < |pcs| && k <= |pcs|
    ensures Givers(pcs[t := pc], id, k) == Givers(pcs, id, k)
            + if t < k then (if pc == Freeing(id) then 1 else 0) - (if pcs[t] == Freeing(id) then 1 else 0) else 0
  {
    if k > 0 { GiversChange(pcs, t, pc, id, k - 1); }
  }

  lemma {:induction false} NoGivers(s: State, id: nat, k: nat)
    requires k <= |s.pcs| && (forall t :: 0 <= t < |s.pcs| ==> PcOk(s, t)) && id >= |s.users|
    ensures Givers(s.pcs, id, k) == 0
  {
    if k > 0 {
      assert PcOk(s, k - 1);
      NoGivers(s, id, k - 1);
    }
  }

  /** The table is a map: a lookup finds exactly the hashed structure with that namespace and uid. */
  lemma FoundIsHashed(s: State, ns: nat, uid: nat)
    requires Inv(s)
    ensures Found(s, ns, uid).Some? ==>
              var id := Found(s, ns, uid).value;
              id < |s.users| && s.users[id].life == Hashed && s.users[id].ns == ns && s.users[id].uid == uid
    ensures Found(s, ns, uid).None? ==>
              forall id :: 0 <= id < |s.users| && s.users[id].life == Hashed ==>
                !(s.users[id].ns == ns && s.users[id].uid == uid)
  {
    var b := BucketOf(ns, uid);
    assert ChainOk(s, b);
    if Found(s, ns, uid).None? {
      forall id | 0 <= id < |s.users| && s.users[id].life == Hashed
        ensures !(s.users[id].ns == ns && s.users[id].uid == uid)
      {
        assert UserOk(s, id);
        if BucketOf(s.users[id].ns, s.users[id].uid) == b {
          var i :| 0 <= i < |Chain(s.table, b)| && Chain(s.table, b)[i] == id;
        }
      }
    }
  }

  // ---------- every step keeps it

  /** Counts and references of one hashed structure change together; nothing else does. */
  lemma CountKeeps(s: State, s': State, id: nat)
    requires Inv(s) && id < |s.users| && s.users[id].life == Hashed
    requires s'.table == s.table && s'.pcs == s.pcs
    requires exists c: int, r: nat :: s'.users == s.users[id := s.users[id].(count := c, refs := r)]
                                      && c == r + Givers(s.pcs, id, |s.pcs|) && c >= 1
    ensures Inv(s')
  {
    forall i | 0 <= i < |s'.users| ensures UserOk(s', i) { assert UserOk(s, i); }
    forall b ensures ChainOk(s', b) { assert ChainOk(s, b); }
    forall t | 0 <= t < |s'.pcs| ensures PcOk(s', t) { assert PcOk(s, t); }
  }

  lemma LookKeeps(s: State, ns: nat, uid: nat)
    requires Inv(s)
    ensures Inv(Looked(s, ns, uid))
  {
    FoundIsHashed(s, ns, uid);
    if Found(s, ns, uid).Some? {
      var id := Found(s, ns, uid).value;
      assert UserOk(s, id);
      var u := s.users[id];
      assert Looked(s, ns, uid).users == s.users[id := u.(count := u.count + 1, refs := u.refs + 1)];
      CountKeeps(s, Looked(s, ns, uid), id);
    }
  }

  lemma FreeFastKeeps(s: State, id: nat)
    requires Inv(s) && Enabled(s, FreeFast(id))
    ensures Inv(Apply(s, FreeFast(id)))
  {
    assert UserOk(s, id);
    var u := s.users[id];
    assert Apply(s, FreeFast(id)).users == s.users[id := u.(count := u.count - 1, refs := u.refs - 1)];
    CountKeeps(s, Apply(s, FreeFast(id)), id);
  }

  /** A call that holds no structure moves on. */
  lemma PcKeeps(s: State, t: nat, pc: Pc)
    requires Inv(s) && t < |s.pcs| && !s.pcs[t].Freeing? && (pc.Idle? || pc.Missed?)
    ensures Inv(s.(pcs := s.pcs[t := pc]))
  {
    var s' := s.(pcs := s.pcs[t := pc]);
    forall i | 0 <= i < |s'.users| ensures UserOk(s', i) {
      assert UserOk(s, i);
      GiversChange(s.pcs, t, pc, i, |s.pcs|);
      hide Givers;
    }
    forall b ensures ChainOk(s', b) { assert ChainOk(s, b); }
    forall u | 0 <= u < |s'.pcs| ensures PcOk(s', u) { assert PcOk(s, u); }
  }

  lemma NewKeeps(s: State, t: nat)
    requires Inv(s) && Enabled(s, AllocNew(t))
    ensures Inv(Apply(s, AllocNew(t)))
  {
    var s' := Apply(s, AllocNew(t));
    forall i | 0 <= i < |s'.users| ensures UserOk(s', i) {
      if i < |s.users| { assert UserOk(s, i); } else { NoGivers(s, i, |s.pcs|); }
      GiversChange(s.pcs, t, s'.pcs[t], i, |s.pcs|);
      hide Givers;
    }
    forall b ensures ChainOk(s', b) { assert ChainOk(s, b); }
    forall u | 0 <= u < |s'.pcs| ensures PcOk(s', u) { assert PcOk(s, u); }
    forall u, v | 0 <= u < v < |s'.pcs| && s'.pcs[u].Made? && s'.pcs[v].Made? ensures s'.pcs[u].id != s'.pcs[v].id {
      assert PcOk(s, u) && PcOk(s, v);
    }
  }

  /** A structure made in vain goes back to the allocator. */
  lemma DiscardKeeps(s: State, t: nat)
    requires Inv(s) && Enabled(s, AllocInsert(t))
    ensures var id := s.pcs[t].id;
            Inv(s.(pcs := s.pcs[t := Idle], users := s.users[id := s.users[id].(life := Freed)]))
  {
    var id := s.pcs[t].id;
    var s' := s.(pcs := s.pcs[t := Idle], users := s.users[id := s.users[id].(life := Freed)]);
    assert PcOk(s, t);
    forall i | 0 <= i < |s'.users| ensures UserOk(s', i) {
      assert UserOk(s, i);
      GiversChange(s.pcs, t, Idle, i, |s.pcs|);
      hide Givers;
    }
    forall b ensures ChainOk(s', b) { assert ChainOk(s, b); }
    forall u | 0 <= u < |s'.pcs| ensures PcOk(s', u) { assert PcOk(s, u); }
  }

  lemma AddedKeeps(s: State, t: nat)
    requires Inv(s) && Enabled(s, AllocInsert(t))
    requires Found(s, s.pcs[t].ns, s.pcs[t].uid).None?
    ensures Inv(Apply(s, AllocInsert(t)))
  {
    var s', id := Apply(s, AllocInsert(t)), s.pcs[t].id;
    var u := s.users[id];
    assert PcOk(s, t) && UserOk(s, id);
    FoundIsHashed(s, u.ns, u.uid);
    var own := BucketOf(u.ns, u.uid);
    assert ChainOk(s, own);
    OneMoreInFront(Chain(s.table, own), id);
    hide UidHash, FindIn, NoDup;
    forall i | 0 <= i < |s'.users| ensures UserOk(s', i) {
      assert UserOk(s, i);
      GiversChange(s.pcs, t, Idle, i, |s.pcs|);
      hide Givers;
    }
    forall b ensures ChainOk(s', b) { assert ChainOk(s, b); }
    forall v | 0 <= v < |s'.pcs| ensures PcOk(s', v) { assert PcOk(s, v); }
  }

  lemma InsertKeeps(s: State, t: nat)
    requires Inv(s) && Enabled(s, AllocInsert(t))
    ensures Inv(Apply(s, AllocInsert(t)))
  {
    var id := s.pcs[t].id;
    var u, ns, uid := s.users[id], s.pcs[t].ns, s.pcs[t].uid;
    assert PcOk(s, t);
    if Found(s, ns, uid).Some? {
      DiscardKeeps(s, t);
      FoundIsHashed(s, ns, uid);
      var d := s.(pcs := s.pcs[t := Idle], users := s.users[id := u.(life := Freed)]);
      var up := Found(s, ns, uid).value;
      assert UserOk(d, up);
      var w := s.users[up];
      assert Apply(s, AllocInsert(t)).users == d.users[up := w.(count := w.count + 1, refs := w.refs + 1)];
      CountKeeps(d, Apply(s, AllocInsert(t)), up);
    } else {
      AddedKeeps(s, t);
    }
  }

  lemma FreeLastKeeps(s: State, t: nat, id: nat)
    requires Inv(s) && Enabled(s, FreeLast(t, id))
    ensures Inv(Apply(s, FreeLast(t, id)))
  {
    var s' := Apply(s, FreeLast(t, id));
    assert UserOk(s, id);
    forall i | 0 <= i < |s'.users| ensures UserOk(s', i) {
      assert UserOk(s, i);
      GiversChange(s.pcs, t, Freeing(id), i, |s.pcs|);
      hide Givers;
    }
    forall b ensures ChainOk(s', b) { assert ChainOk(s, b); }
    forall u | 0 <= u < |s'.pcs| ensures PcOk(s', u) { assert PcOk(s, u); }
  }

  lemma {:induction false} GiverCounts(pcs: seq<Pc>, t: nat, k: nat)
    requires t < k <= |pcs| && pcs[t].Freeing?
    ensures Givers(pcs, pcs[t].id, k) >= 1
  {
    if t < k - 1 { GiverCounts(pcs, t, k - 1); }
  }

  lemma {:induction false} TwoGivers(pcs: seq<Pc>, t: nat, u: nat, k: nat)
    requires t < u < k <= |pcs| && pcs[t].Freeing? && pcs[t] == pcs[u]
    ensures Givers(pcs, pcs[t].id, k) >= 2
  {
    if u < k - 1 { TwoGivers(pcs, t, u, k - 1); } else { GiverCounts(pcs, t, k - 1); }
  }

  lemma FreeLockedKeeps(s: State, t: nat)
    requires Inv(s) && Enabled(s, FreeLocked(t))
    ensures Inv(Apply(s, FreeLocked(t)))
  {
    var s', id := Apply(s, FreeLocked(t)), s.pcs[t].id;
    var u := s.users[id];
    assert PcOk(s, t) && UserOk(s, id);
    GiverCounts(s.pcs, t, |s.pcs|);
    var own := BucketOf(u.ns, u.uid);
    assert ChainOk(s, own);
    WithoutElements(Chain(s.table, own), id);
    hide UidHash, Without, NoDup;
    forall i | 0 <= i < |s'.users| ensures UserOk(s', i) {
      assert UserOk(s, i);
      GiversChange(s.pcs, t, Idle, i, |s.pcs|);
      hide Givers;
    }
    forall b ensures ChainOk(s', b) { assert ChainOk(s, b); }
    forall v | 0 <= v < |s'.pcs| ensures PcOk(s', v) {
      assert PcOk(s, v);
      if v < t && s.pcs[v] == s.pcs[t] { TwoGivers(s.pcs, v, t, |s.pcs|); }
      if t < v && s.pcs[v] == s.pcs[t] { TwoGivers(s.pcs, t, v, |s.pcs|); }
    }
  }

  lemma StepKeeps(s: State, step: Step)
    requires Inv(s) && Enabled(s, step)
    ensures Inv(Apply(s, step))
  {
    match step
    case FindUser(ns, uid) => LookKeeps(s, ns, uid);
    case AllocLook(t, ns, uid) =>
      LookKeeps(s, ns, uid);
      PcKeeps(s, t, Missed(ns, uid));
    case AllocNew(t) => NewKeeps(s, t);
    case AllocFail(t) => PcKeeps(s, t, Idle);
    case AllocInsert(t) => InsertKeeps(s, t);
    case FreeFast(id) => FreeFastKeeps(s, id);
    case FreeLast(t, id) => FreeLastKeeps(s, t, id);
    case FreeLocked(t) => FreeLockedKeeps(s, t);
  }

  // ---------- a plain map

  ghost predicate Is(u: User, ns: nat, uid: nat) {
    u.life == Hashed && u.ns == ns && u.uid == uid
  }

  /** There is only one answer a lookup can give. */
  lemma FoundUnique(s: State, ns: nat, uid: nat, id: nat)
    requires Inv(s) && id < |s.users| && Is(s.users[id], ns, uid)
    ensures Found(s, ns, uid) == Some(id)
  {
    FoundIsHashed(s, ns, uid);
    hide FindIn, UidHash;
  }

  lemma NoneFound(s: State, ns: nat, uid: nat)
    requires Inv(s) && forall id :: 0 <= id < |s.users| ==> !Is(s.users[id], ns, uid)
    ensures Found(s, ns, uid).None?
  {
    FoundIsHashed(s, ns, uid);
    hide FindIn, UidHash;
  }

  /** What a step does to the map from namespace and uid to structures. */
  ghost function MapAfter(s: State, step: Step, ns: nat, uid: nat): Option<nat>
    requires Enabled(s, step)
  {
    if step.AllocInsert? && s.pcs[step.t].ns == ns && s.pcs[step.t].uid == uid && Found(s, ns, uid).None?
    then Some(s.pcs[step.t].id)
    else if step.FreeLocked? && Found(s, ns, uid) == Some(s.pcs[step.t].id) && s.users[s.pcs[step.t].id].count == 1
    then None
    else Found(s, ns, uid)
  }

  /** Lookups see a plain map: alloc_uid adds the one entry that is missing, the last free_uid takes away
      its own, and no other step changes any answer. */
  lemma BehavesAsMap(s: State, step: Step, ns: nat, uid: nat)
    requires Inv(s) && Enabled(s, step)
    ensures Found(Apply(s, step), ns, uid) == MapAfter(s, step, ns, uid)
  {
    hide UidHash, FindIn, Givers, Without, NoDup;
    var s' := Apply(s, step);
    StepKeeps(s, step);
    FoundIsHashed(s, ns, uid);
    if step.AllocInsert? { FoundIsHashed(s, s.users[s.pcs[step.t].id].ns, s.users[s.pcs[step.t].id].uid); }
    if step.FindUser? || step.AllocLook? { FoundIsHashed(s, step.ns, step.uid); }
    assert (step.AllocInsert? || step.FreeLocked?) ==> PcOk(s, step.t);
    assert step.FreeFast? || step.FreeLast? ==> UserOk(s, step.id);
    match MapAfter(s, step, ns, uid)
    case Some(id) => FoundUnique(s', ns, uid, id);
    case None => NoneFound(s', ns, uid);
  }

  // ---------- runs

  /** `uid_cache_init`: only root, with two references. */
  ghost predicate Initial(s: State) {
    && s.users == [User(0, 0, 2, Hashed, 2)] && s.table == map[BucketOf(0, 0) := [0]]
    && forall t :: 0 <= t < |s.pcs| ==> s.pcs[t].Idle?
  }

  ghost predicate IsRun(s: State, steps: seq<Step>)
    decreases |steps|
  {
    steps == [] || (Enabled(s, steps[0]) && IsRun(Apply(s, steps[0]), steps[1..]))
  }

  ghost function After(s: State, steps: seq<Step>): State
    requires IsRun(s, steps)
    decreases |steps|
  {
    if steps == [] then s else After(Apply(s, steps[0]), steps[1..])
  }

  lemma {:induction false} IdleGivesNothing(pcs: seq<Pc>, id: nat, k: nat)
    requires k <= |pcs| && forall t :: 0 <= t < |pcs| ==> pcs[t].Idle?
    ensures Givers(pcs, id, k) == 0
  {
    if k > 0 { IdleGivesNothing(pcs, id, k - 1); }
  }

  lemma InitKeeps(s: State)
    requires Initial(s)
    ensures Inv(s)
  {
    IdleGivesNothing(s.pcs, 0, |s.pcs|);
    hide UidHash, Givers;
  }

  lemma {:induction false} InvAlong(s: State, steps: seq<Step>)
    requires Inv(s) && IsRun(s, steps)
    ensures Inv(After(s, steps))
    decreases |steps|
  {
    if steps != [] {
      StepKeeps(s, steps[0]);
      InvAlong(Apply(s, steps[0]), steps[1..]);
    }
  }

  /** In every reachable state: whatever a chain holds is live, in its own bucket and alone with its key,
      and its count is the number of references held or being given up, at least one. */
  lemma RunsAreSafe(s: State, steps: seq<Step>, b: Bucket, id: nat)
    requires Initial(s) && IsRun(s, steps) && id in Chain(After(s, steps).table, b)
    ensures var e := After(s, steps);
            && id < |e.users| && e.users[id].life == Hashed && b == BucketOf(e.users[id].ns, e.users[id].uid)
            && e.users[id].count == e.users[id].refs + Givers(e.pcs, id, |e.pcs|) && e.users[id].count >= 1
            && (forall j :: 0 <= j < |e.users| && Is(e.users[j], e.users[id].ns, e.users[id].uid) ==> j == id)
            && NoDup(Chain(e.table, b))
  {
    InitKeeps(s);
    InvAlong(s, steps);
    var e := After(s, steps);
    hide UidHash, Givers, IsRun;
    assert ChainOk(e, b);
    assert UserOk(e, id);
  }

  /** A held reference keeps its structure alive and in the table. */
  lemma HeldStaysHashed(s: State, steps: seq<Step>, id: nat)
    requires Initial(s) && IsRun(s, steps)
    ensures var e := After(s, steps);
            id < |e.users| && e.users[id].refs > 0 ==>
              e.users[id].life == Hashed && Found(e, e.users[id].ns, e.users[id].uid) == Some(id)
  {
    InitKeeps(s);
    InvAlong(s, steps);
    var e := After(s, steps);
    if id < |e.users| && e.users[id].refs > 0 {
      assert UserOk(e, id);
      FoundUnique(e, e.users[id].ns, e.users[id].uid, id);
    }
  }

  // ---------- references

  /** The structure a step hands to its caller. */
  ghost function Handed(s: State, step: Step): Option<nat>
    requires Enabled(s, step)
  {
    match step
    case FindUser(ns, uid) => Found(s, ns, uid)
    case AllocLook(t, ns, uid) => Found(s, ns, uid)
    case AllocInsert(t) =>
      if Found(s, s.pcs[t].ns, s.pcs[t].uid).Some? then Found(s, s.pcs[t].ns, s.pcs[t].uid) else Some(s.pcs[t].id)
    case _ => None
  }

  /** The structure a caller gives up with a step. */
  function GivenUp(step: Step): Option<nat> {
    if step.FreeFast? || step.FreeLast? then Some(step.id) else None
  }

  /** The structure whose count a step takes one off. */
  ghost function Dropped(s: State, step: Step): Option<nat>
    requires Enabled(s, step)
  {
    if step.FreeFast? then Some(step.id) else if step.FreeLocked? then Some(s.pcs[step.t].id) else None
  }

  function RefsOf(s: State, id: nat): nat {
    if id < |s.users| then s.users[id].refs else 0
  }

  function One(o: Option<nat>, id: nat): int {
    if o == Some(id) then 1 else 0
  }

  /** Whatever a call hands out is the structure for the namespace and uid it was asked for. */
  lemma HandedIsAskedFor(s: State, step: Step)
    requires Inv(s) && Enabled(s, step) && Handed(s, step).Some?
    ensures var id, s' := Handed(s, step).value, Apply(s, step);
            && id < |s'.users|
            && (step.FindUser? || step.AllocLook? ==> Is(s'.users[id], step.ns, step.uid))
            && (step.AllocInsert? ==> Is(s'.users[id], s.pcs[step.t].ns, s.pcs[step.t].uid))
            && (step.AllocLook? || step.AllocInsert? ==> s'.pcs[step.t].Idle?)
  {
    if step.AllocInsert? {
      FoundIsHashed(s, s.pcs[step.t].ns, s.pcs[step.t].uid);
      assert PcOk(s, step.t);
    } else {
      FoundIsHashed(s, step.ns, step.uid);
    }
    hide UidHash, FindIn, Givers;
  }

  /** A lookup that finds a structure takes one reference to it and touches nothing else; one that does not
      find any changes no structure. */
  lemma LookupTakesOne(s: State, step: Step)
    requires Inv(s) && Enabled(s, step) && (step.FindUser? || step.AllocLook?)
    ensures var r := Found(s, step.ns, step.uid);
            && (r.Some? ==> OneMore(s.users, Apply(s, step).users, r.value) && Apply(s, step).pcs == s.pcs)
            && (r.None? ==> Apply(s, step).users == s.users)
            && (r.None? && step.AllocLook? ==> Apply(s, step).pcs[step.t] == Missed(step.ns, step.uid))
  {
    FoundIsHashed(s, step.ns, step.uid);
    hide UidHash, FindIn, Givers;
  }

  /** References are handed out and given up one at a time. */
  lemma RefsMove(s: State, step: Step, id: nat)
    requires Inv(s) && Enabled(s, step)
    ensures RefsOf(Apply(s, step), id) == RefsOf(s, id) + One(Handed(s, step), id) - One(GivenUp(step), id)
  {
    if step.FindUser? || step.AllocLook? { FoundIsHashed(s, step.ns, step.uid); }
    if step.AllocInsert? {
      FoundIsHashed(s, s.pcs[step.t].ns, s.pcs[step.t].uid);
      assert PcOk(s, step.t) && UserOk(s, s.pcs[step.t].id);
    }
    hide UidHash, FindIn, Givers, Without;
  }

  /** So are counts, except that the last reference is counted until the lock is held. */
  lemma CountsMove(s: State, step: Step, id: nat)
    requires Inv(s) && Enabled(s, step) && id < |s.users| && s.users[id].life == Hashed
    ensures id < |Apply(s, step).users|
    ensures Apply(s, step).users[id].count == s.users[id].count + One(Handed(s, step), id) - One(Dropped(s, step), id)
    ensures Apply(s, step).users[id].life == Hashed <==> Apply(s, step).users[id].count > 0
  {
    if step.FindUser? || step.AllocLook? { FoundIsHashed(s, step.ns, step.uid); }
    if step.AllocInsert? {
      FoundIsHashed(s, s.pcs[step.t].ns, s.pcs[step.t].uid);
      assert PcOk(s, step.t);
    }
    assert UserOk(s, id);
    if step.FreeFast? || step.FreeLast? { assert UserOk(s, step.id); }
    hide UidHash, FindIn, Givers, Without;
  }

  /** References handed out less those given up, along a run. */
  ghost function Balance(s: State, steps: seq<Step>, id: nat): int
    requires IsRun(s, steps)
    decreases |steps|
  {
    if steps == [] then 0
    else One(Handed(s, steps[0]), id) - One(GivenUp(steps[0]), id) + Balance(Apply(s, steps[0]), steps[1..], id)
  }

  lemma {:induction false} RefsAlong(s: State, steps: seq<Step>, id: nat)
    requires Inv(s) && IsRun(s, steps)
    ensures RefsOf(After(s, steps), id) == RefsOf(s, id) + Balance(s, steps, id)
    decreases |steps|
  {
    if steps != [] {
      hide Inv;
      RefsMove(s, steps[0], id);
      StepKeeps(s, steps[0]);
      RefsAlong(Apply(s, steps[0]), steps[1..], id);
    }
  }

  /** In every run: as long as more references to a structure were handed out than given up, it is live and a
      lookup finds it. */
  lemma HandedOutStaysHashed(s: State, steps: seq<Step>, id: nat)
    requires Initial(s) && IsRun(s, steps) && RefsOf(s, id) + Balance(s, steps, id) > 0
    ensures var e := After(s, steps);
            id < |e.users| && e.users[id].life == Hashed && Found(e, e.users[id].ns, e.users[id].uid) == Some(id)
  {
    InitKeeps(s);
    RefsAlong(s, steps, id);
    HeldStaysHashed(s, steps, id);
  }

  // ---------- the critical sections

  class UidTable {
    var users: seq<User>
    var table: Table

    ghost function With(pcs: seq<Pc>): State
      reads this
    {
      State(users, table, pcs)
    }

    /** `uid_hash_find`. */
    method HashFind(uid: nat, b: Bucket, ghost pcs: seq<Pc>) returns (r: Option<nat>)
      requires ChainOk(With(pcs), b)
      modifies this`users
      ensures r == FindIn(old(users), Chain(table, b), uid)
      ensures r.None? ==> users == old(users)
      ensures r.Some? ==> OneMore(old(users), users, r.value)
      ensures users == if r.None? then old(users) else Taken(old(users), r.value)
    {
      var chain := Chain(table, b);
      hide UidHash;
      assert chain[0..] == chain;
      for i := 0 to |chain|
        invariant users == old(users) && FindIn(users, chain, uid) == FindIn(users, chain[i..], uid)
      {
        assert chain[i..][1..] == chain[i + 1..];
        assert chain[i] in chain;
        if users[chain[i]].uid == uid {
          r := Some(chain[i]);
          users := Taken(users, chain[i]);
          return;
        }
      }
      r := None;
    }

    /** The second critical section of `alloc_uid`: somebody else's structure, or the new one. */
    method InsertOrFind(id: nat, ns: nat, uid: nat, ghost pcs: seq<Pc>, ghost t: nat) returns (up: nat)
      requires Inv(With(pcs)) && Enabled(With(pcs), AllocInsert(t)) && pcs[t] == Made(id, ns, uid)
      modifies this
      ensures With(pcs[t := Idle]) == Apply(old(With(pcs)), AllocInsert(t))
      ensures up < |users| && Is(users[up], ns, uid)
      ensures up == id || (up < |old(users)| && users[up].count == old(users)[up].count + 1 && users[id].life == Freed)
    {
      var u := users[id];
      var b := BucketOf(ns, uid);
      FoundIsHashed(With(pcs), ns, uid);
      assert PcOk(With(pcs), t) && ChainOk(With(pcs), b);
      hide UidHash, FindIn, UserOk, ChainOk, PcOk, OneEach, OwnNew;
      var r := HashFind(uid, b, pcs);
      if r.Some? {
        users := users[id := users[id].(life := Freed)];
        up := r.value;
      } else {
        users := users[id := u.(life := Hashed, refs := 1)];
        table := table[b := [id] + Chain(table, b)];
        up := id;
      }
    }

    /** The locked part of `free_uid`, with `free_user` for the last reference. */
    method DropLocked(id: nat, ghost pcs: seq<Pc>, ghost t: nat)
      requires Enabled(With(pcs), FreeLocked(t)) && pcs[t] == Freeing(id)
      modifies this
      ensures With(pcs[t := Idle]) == Apply(old(With(pcs)), FreeLocked(t))
    {
      users := users[id := users[id].(count := users[id].count - 1)];
      if users[id].count == 0 {
        var b := BucketOf(users[id].ns, users[id].uid);
        table := table[b := Without(Chain(table, b), id)];
        users := users[id := users[id].(life := Freed)];
      }
    }
  }
}
