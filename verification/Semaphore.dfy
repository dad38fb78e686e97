/** The semaphore of the thread library: a counter and a linked queue of waiting threads. */
module Semaphores {
  import opened Sequences

  /** A semaphore as a value: its counter and the threads waiting, longest first. */
  datatype Sem = Sem(count: int, waiters: seq<nat>)

  // ---------- the critical sections on values

  /** A thread proceeds, or queues up and is to suspend itself. */
  function Downed(s: Sem, self: nat): Sem {
    if s.count > 0 then s.(count := s.count - 1) else s.(waiters := s.waiters + [self])
  }

  function Proceeds(s: Sem): bool {
    s.count > 0
  }

  /** What `sthread_sem_down` returns: not whether the semaphore was granted, but whether at once. */
  function DownCode(s: Sem): int {
    if s.count > 0 then 0 else -1
  }

  function Tried(s: Sem): Sem {
    if s.count > 0 then s.(count := s.count - 1) else s
  }

  /** With nobody waiting the counter goes up; otherwise the semaphore is handed to the first waiter. */
  function Upped(s: Sem): Sem {
    if s.waiters == [] then s.(count := s.count + 1) else s.(waiters := s.waiters[1..])
  }

  function Woken(s: Sem): Option<nat> {
    if s.waiters == [] then None else Some(s.waiters[0])
  }

  /** The variant that counts before it looks. */
  function DownedAd(s: Sem, self: nat): Sem {
    if s.count - 1 >= 0 then s.(count := s.count - 1) else Sem(s.count - 1, s.waiters + [self])
  }

  function ProceedsAd(s: Sem): bool {
    s.count - 1 >= 0
  }

  /** Its try is content with a counter of zero. */
  function TriedAd(s: Sem): Sem {
    if s.count >= 0 then s.(count := s.count - 1) else s
  }

  function TriesAd(s: Sem): bool {
    s.count >= 0
  }

  function UppedAd(s: Sem): Sem {
    if s.waiters == [] then s.(count := s.count + 1) else Sem(s.count + 1, s.waiters[1..])
  }

  // ---------- the linked queue

  class Node {
    var data: nat
    var next: Node?

    constructor (data: nat)
      ensures this.data == data && next == null
    {
      this.data := data;
      next := null;
    }
  }

  /** `nodes` are the nodes of the queue in order. `head` is the last of them, `start` the first; once
      the queue has run empty `head` still points to the node freed last. */
  class Semaphore {
    var count: int
    var threads: int
    var head: Node?
    var start: Node?
    ghost var nodes: seq<Node>

    ghost predicate Valid()
      reads this, nodes
    {
      && threads == |nodes|
      && start == (if nodes == [] then null else nodes[0])
      && (nodes != [] ==> head == nodes[|nodes| - 1])
      && (forall i, j :: 0 <= i < j < |nodes| ==> nodes[i] != nodes[j])
      && forall i {:trigger nodes[i]} :: 0 <= i < |nodes| ==>
           nodes[i].next == if i + 1 < |nodes| then nodes[i + 1] else null
    }

    ghost function Waiters(): (w: seq<nat>)
      reads this, nodes
      ensures |w| == |nodes|
    {
      seq(|nodes|, i requires 0 <= i < |nodes| reads this, nodes => nodes[i].data)
    }

    ghost function Value(): Sem
      reads this, nodes
    {
      Sem(count, Waiters())
    }

    /** `sthread_sem_init`. */
    constructor (count: int)
      ensures Valid() && Value() == Sem(count, []) && nodes == []
    {
      this.count := count;
      threads := 0;
      head, start := null, null;
      nodes := [];
    }

    /** `insertNode`. */
    method InsertNode(data: nat)
      requires Valid()
      modifies this`threads, this`head, this`start, this`nodes, nodes
      ensures Valid() && Waiters() == old(Waiters()) + [data]
      ensures fresh(nodes[|nodes| - 1]) && nodes[..|nodes| - 1] == old(nodes)
    {
      var temp := new Node(data);
      if threads == 0 {
        head := temp;
        start := temp;
      } else {
        head.next := temp;
        head := temp;
      }
      threads := threads + 1;
      nodes := nodes + [temp];
    }

    /** `removeNode`; the caller frees the node. */
    method RemoveNode() returns (temp: Node)
      requires Valid() && nodes != []
      modifies this`threads, this`start, this`nodes
      ensures Valid() && Waiters() == old(Waiters())[1..]
      ensures temp == old(nodes)[0] && temp.data == old(Waiters())[0] && temp !in nodes && nodes == old(nodes)[1..]
    {
      temp := start;
      start := start.next;
      threads := threads - 1;
      nodes := nodes[1..];
    }

    /** The critical section of `sthread_sem_down`, with the code the call is going to return: -1 if the
        caller has to suspend itself first, although it has the semaphore once it returns. */
    method Down(self: nat) returns (ret: int)
      requires Valid()
      modifies this, nodes
      ensures Valid() && Value() == Downed(old(Value()), self)
      ensures ret == DownCode(old(Value())) && (ret == 0 <==> old(count) > 0)
      ensures forall x :: x in nodes ==> fresh(x) || x in old(nodes)
    {
      if count > 0 {
        count := count - 1;
        ret := 0;
      } else {
        InsertNode(self);
        ret := -1;
      }
    }

    /** `sthread_sem_try_down`. */
    method TryDown() returns (got: bool)
      requires Valid()
      modifies this`count
      ensures Valid() && Value() == Tried(old(Value())) && got == Proceeds(old(Value()))
    {
      got := count > 0;
      if got { count := count - 1; }
    }

    /** The critical section of `sthread_sem_up`: the thread to wake, if any. */
    method Up() returns (wake: Option<nat>)
      requires Valid()
      modifies this`count, this`threads, this`start, this`nodes
      ensures Valid() && Value() == Upped(old(Value())) && wake == Woken(old(Value()))
      ensures wake.Some? <==> old(Waiters()) != []
      ensures wake.Some? ==> old(Waiters()) == [wake.value] + Waiters() && count == old(count)
      ensures wake.None? ==> Waiters() == [] && count == old(count) + 1
      ensures forall x :: x in nodes ==> x in old(nodes)
    {
      if threads <= 0 {
        count := count + 1;
        wake := None;
      } else {
        var node := RemoveNode();
        wake := Some(node.data);
      }
    }

    /** The variant's critical sections. */
    method DownAd(self: nat) returns (proceed: bool)
      requires Valid()
      modifies this, nodes
      ensures Valid() && Value() == DownedAd(old(Value()), self) && proceed == ProceedsAd(old(Value()))
    {
      count := count - 1;
      proceed := count >= 0;
      assert Waiters() == old(Waiters());
      if !proceed {
        InsertNode(self);
        assert Value() == Sem(old(count) - 1, old(Waiters()) + [self]);
      }
    }

    method TryDownAd() returns (got: bool)
      requires Valid()
      modifies this`count
      ensures Valid() && Value() == TriedAd(old(Value())) && got == TriesAd(old(Value()))
      ensures got ==> count == old(count) - 1 >= -1
      ensures !got ==> count == old(count) < 0
    {
      got := count >= 0;
      if got { count := count - 1; }
    }

    method UpAd() returns (wake: Option<nat>)
      requires Valid()
      modifies this`count, this`threads, this`start, this`nodes
      ensures Valid() && Value() == UppedAd(old(Value())) && wake == Woken(old(Value()))
    {
      count := count + 1;
      if threads <= 0 {
        wake := None;
      } else {
        var node := RemoveNode();
        wake := Some(node.data);
      }
    }
  }
}
