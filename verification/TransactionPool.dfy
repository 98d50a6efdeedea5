/** A memory manager that keeps released transactions for reuse. */
module TransactionPool {
  import opened Common

  // ---------------------------------------------------------------------
  // The pool as a stack
  // ---------------------------------------------------------------------

  /** The pooled transactions, top first, those in use, and how many were ever created. */
  datatype Pool<T> = Pool(stack: seq<T>, live: set<T>, created: nat)

  /** One call, with the transaction that it handed out or took back. */
  datatype Op<T> = Allocate(got: T) | Free(given: T)

  /** Only live transactions are given back; a new one is made when none is pooled. */
  predicate Can<T(==)>(s: Pool<T>, op: Op<T>) {
    match op
    case Allocate(t) => if s.stack != [] then t == s.stack[0] else t !in s.live
    case Free(t) => t in s.live
  }

  function Next<T(==)>(s: Pool<T>, op: Op<T>): Pool<T>
    requires Can(s, op)
  {
    match op
    case Allocate(t) =>
      if s.stack != [] then Pool(s.stack[1..], s.live + {t}, s.created)
      else Pool([], s.live + {t}, s.created + 1)
    case Free(t) => Pool([t] + s.stack, s.live - {t}, s.created)
  }

  /** Each transaction is pooled once or in use, never both. */
  ghost predicate Inv<T>(s: Pool<T>) {
    && (forall i, j :: 0 <= i < j < |s.stack| ==> s.stack[i] != s.stack[j])
    && (forall t <- s.stack :: t !in s.live)
    && s.created == |s.stack| + |s.live|
  }

  lemma StepKeeps<T>(s: Pool<T>, op: Op<T>)
    requires Inv(s) && Can(s, op)
    ensures Inv(Next(s, op))
  {
    match op
    case Allocate(t) =>
      if s.stack != [] {
        assert s.stack == [s.stack[0]] + s.stack[1..];
        assert forall u <- s.stack[1..] :: u in s.stack;
      }
    case Free(t) =>
      assert |s.live| == |s.live - {t}| + 1;
  }

  ghost predicate Possible<T>(s: Pool<T>, ops: seq<Op<T>>)
    decreases |ops|
  {
    ops == [] || (Can(s, ops[0]) && Possible(Next(s, ops[0]), ops[1..]))
  }

  ghost function Run<T>(s: Pool<T>, ops: seq<Op<T>>): Pool<T>
    requires Possible(s, ops)
    decreases |ops|
  {
    if ops == [] then s else Run(Next(s, ops[0]), ops[1..])
  }

  /** The largest number of transactions in use at once. */
  ghost function Peak<T>(s: Pool<T>, ops: seq<Op<T>>): nat
    requires Possible(s, ops)
    decreases |ops|
  {
    if ops == [] then |s.live| else Max(|s.live|, Peak(Next(s, ops[0]), ops[1..]))
  }

  lemma {:induction false} RunKeeps<T>(s: Pool<T>, ops: seq<Op<T>>)
    requires Inv(s) && Possible(s, ops)
    ensures Inv(Run(s, ops))
    ensures Run(s, ops).created == Max(s.created, Peak(s, ops))
    decreases |ops|
  {
    if ops != [] {
      StepKeeps(s, ops[0]);
      RunKeeps(Next(s, ops[0]), ops[1..]);
    }
  }

  /** From an empty manager, whatever the calls, no transaction is both pooled and in
      use, and no more are ever created than were in use at one time. */
  lemma NeverMoreThanInUse<T>(ops: seq<Op<T>>)
    requires Possible(Pool([], {}, 0), ops)
    ensures Inv(Run(Pool([], {}, 0), ops))
    ensures Run(Pool([], {}, 0), ops).created == Peak(Pool([], {}, 0), ops)
  {
    RunKeeps(Pool([], {}, 0), ops);
  }

  lemma {:induction false} RunAppend<T>(s: Pool<T>, a: seq<Op<T>>, b: seq<Op<T>>)
    requires Possible(s, a) && Possible(Run(s, a), b)
    ensures Possible(s, a + b) && Run(s, a + b) == Run(Run(s, a), b)
    decreases |a|
  {
    if a == [] {
      assert a + b == b;
    } else {
      RunAppend(Next(s, a[0]), a[1..], b);
      assert (a + b)[1..] == a[1..] + b;
    }
  }

  function Frees<T>(ts: seq<T>): seq<Op<T>> {
    if ts == [] then [] else [Op.Free(ts[0])] + Frees(ts[1..])
  }

  function Reversed<T>(ts: seq<T>): seq<T> {
    if ts == [] then [] else Reversed(ts[1..]) + [ts[0]]
  }

  function Allocates<T>(ts: seq<T>): seq<Op<T>> {
    if ts == [] then [] else [Op.Allocate(ts[0])] + Allocates(ts[1..])
  }

  function Elements<T(==)>(ts: seq<T>): set<T> {
    set t | t in ts
  }

  lemma ElementsCons<T>(ts: seq<T>)
    requires ts != []
    ensures Elements(ts) == {ts[0]} + Elements(ts[1..])
  {
    assert ts == [ts[0]] + ts[1..];
  }

  lemma FreesCons<T>(ts: seq<T>)
    requires ts != []
    ensures Frees(ts)[0] == Op.Free(ts[0]) && Frees(ts)[1..] == Frees(ts[1..])
    ensures Allocates(ts)[0] == Op.Allocate(ts[0]) && Allocates(ts)[1..] == Allocates(ts[1..])
  {
  }

  /** Giving back a list of live transactions stacks them with the last on top. */
  lemma {:induction false} FreesStack<T>(s: Pool<T>, ts: seq<T>)
    requires forall i :: 0 <= i < |ts| ==> ts[i] in s.live
    requires forall i, j :: 0 <= i < j < |ts| ==> ts[i] != ts[j]
    ensures Possible(s, Frees(ts))
    ensures Run(s, Frees(ts)) == Pool(Reversed(ts) + s.stack, s.live - Elements(ts), s.created)
    decreases |ts|
  {
    if ts == [] {
      assert s.live - Elements(ts) == s.live;
    } else {
      hide Frees, Elements;
      var rest := ts[1..];
      var t := Next(s, Op.Free(ts[0]));
      forall i | 0 <= i < |rest|
        ensures rest[i] in t.live
      {
        assert rest[i] == ts[i + 1];
      }
      FreesStack(t, rest);
      FreesCons(ts);
      ElementsCons(ts);
      assert Reversed(rest) + [ts[0]] + s.stack == Reversed(rest) + ([ts[0]] + s.stack);
      assert t.live - Elements(rest) == s.live - Elements(ts);
    }
  }

  lemma {:induction false} AllocatesUnstack<T>(s: Pool<T>, ts: seq<T>, rest: seq<T>)
    requires s.stack == ts + rest
    ensures Possible(s, Allocates(ts))
    ensures Run(s, Allocates(ts)) == Pool(rest, s.live + Elements(ts), s.created)
    decreases |ts|
  {
    if ts == [] {
      assert s.stack == rest && s.live + Elements(ts) == s.live;
    } else {
      hide Allocates, Elements;
      var t := Next(s, Op.Allocate(ts[0]));
      assert s.stack[1..] == ts[1..] + rest;
      AllocatesUnstack(t, ts[1..], rest);
      FreesCons(ts);
      ElementsCons(ts);
      assert t.live + Elements(ts[1..]) == s.live + Elements(ts);
    }
  }

  lemma {:induction false} ReversedElements<T>(ts: seq<T>)
    ensures Elements(Reversed(ts)) == Elements(ts)
  {
    if ts != [] {
      ReversedElements(ts[1..]);
      assert ts == [ts[0]] + ts[1..];
      assert Elements(Reversed(ts)) == Elements(Reversed(ts[1..])) + {ts[0]};
    }
  }

  /** Giving back any list of live transactions and allocating as often again hands
      them out in the opposite order, and leaves pool, live set and count as they were. */
  lemma LastInFirstOut<T>(s: Pool<T>, ts: seq<T>)
    requires forall i :: 0 <= i < |ts| ==> ts[i] in s.live
    requires forall i, j :: 0 <= i < j < |ts| ==> ts[i] != ts[j]
    ensures Possible(s, Frees(ts) + Allocates(Reversed(ts)))
    ensures Run(s, Frees(ts) + Allocates(Reversed(ts))) == s
  {
    FreesStack(s, ts);
    var t := Run(s, Frees(ts));
    AllocatesUnstack(t, Reversed(ts), s.stack);
    RunAppend(s, Frees(ts), Allocates(Reversed(ts)));
    ReversedElements(ts);
    assert s.live - Elements(ts) + Elements(ts) == s.live;
  }

  // ---------------------------------------------------------------------
  // The linked list
  // ---------------------------------------------------------------------

  class Payload {
    constructor () {}
  }

  class Access {
    var trans: Payload?
    var next: Access?
    var prev: Access?

    constructor ()
      ensures trans == null && next == null && prev == null
    {
      trans, next, prev := null, null, null;
    }
  }

  ghost function NodeAt(nodes: seq<Access>, i: int): Access? {
    if 0 <= i < |nodes| then nodes[i] else null
  }

  ghost predicate Distinct(nodes: seq<Access>) {
    forall i, j :: 0 <= i < j < |nodes| ==> nodes[i] != nodes[j]
  }

  ghost predicate Linked(nodes: seq<Access>)
    reads nodes
  {
    && (forall i {:trigger nodes[i].next} :: 0 <= i < |nodes| ==> nodes[i].next == NodeAt(nodes, i + 1))
    && (forall i {:trigger nodes[i].prev} :: 0 <= i < |nodes| ==> nodes[i].prev == NodeAt(nodes, i - 1))
  }

  /** The nodes from the border on hold the stack, top first. */
  ghost predicate Carries(nodes: seq<Access>, border: nat, stack: seq<Payload>)
    reads nodes
  {
    |nodes| == border + |stack| && forall j {:trigger nodes[j].trans} :: border <= j < |nodes| ==>
      nodes[j].trans == stack[j - border]
  }

  /** A doubly linked list whose nodes before freeList stand empty; empties is the
      last of those. Allocating and freeing move the border by one. */
  class MemoryManager {
    var freeList: Access?
    var empties: Access?
    ghost var nodes: seq<Access>
    ghost var border: nat
    ghost var pool: Pool<Payload>

    ghost predicate Valid()
      reads this, nodes
    {
      && Distinct(nodes) && Linked(nodes) && Carries(nodes, border, pool.stack)
      && freeList == NodeAt(nodes, border) && empties == NodeAt(nodes, border - 1)
      && Inv(pool)
    }

    constructor ()
      ensures Valid() && pool == Pool([], {}, 0) && nodes == []
    {
      freeList, empties := null, null;
      nodes, border, pool := [], 0, Pool([], {}, 0);
    }

    /** The pooled transaction given back last, or a new one when none is pooled. */
    method Allocate() returns (t: Payload)
      requires Valid()
      modifies this
      ensures Valid() && nodes == old(nodes)
      ensures Can(old(pool), Op.Allocate(t)) && pool == Next(old(pool), Op.Allocate(t))
      ensures old(pool).stack == [] ==> fresh(t)
    {
      hide Inv;
      if freeList != null {
        t := freeList.trans;
        empties := freeList;
        freeList := freeList.next;
        border := border + 1;
      } else {
        t := new Payload();
      }
      StepKeeps(pool, Op.Allocate(t));
      pool := Next(pool, Op.Allocate(t));
    }

    /** A node in front of the list when no empty one is left. */
    method Extend()
      requires Valid() && empties == null
      modifies this, nodes
      ensures Valid() && pool == old(pool)
      ensures |nodes| == |old(nodes)| + 1 && nodes[1..] == old(nodes) && fresh(nodes[0]) && empties == nodes[0]
    {
      hide Inv;
      var node := new Access();
      node.next := freeList;
      if freeList != null {
        freeList.prev := node;
      }
      empties := node;
      ghost var rest := nodes;
      nodes := [node] + nodes;
      border := 1;
      assert Linked(nodes) by {
        forall i | 0 <= i < |nodes|
          ensures nodes[i].next == NodeAt(nodes, i + 1) && nodes[i].prev == NodeAt(nodes, i - 1)
        {
          assert i > 0 ==> nodes[i] == rest[i - 1];
        }
      }
    }

    /** The transaction goes on top of the pool. */
    method Free(t: Payload)
      requires Valid() && Can(pool, Op.Free(t))
      modifies this, nodes
      ensures Valid() && pool == Next(old(pool), Op.Free(t))
      ensures fresh(set n <- nodes | n !in old(nodes))
    {
      hide Inv, Linked, Carries, Distinct;
      if empties == null {
        Extend();
      }
      Replace(t);
    }

    method Replace(t: Payload)
      requires Valid() && empties != null && Can(pool, Op.Free(t))
      modifies this, nodes
      ensures Valid() && pool == Next(old(pool), Op.Free(t)) && nodes == old(nodes)
    {
      hide Inv, Linked, Carries, Distinct;
      StepKeeps(pool, Op.Free(t));
      FillNode(t);
      pool := Next(pool, Op.Free(t));
    }

    /** The last empty node takes the transaction and becomes the top of the pool. */
    method FillNode(t: Payload)
      requires Valid() && empties != null
      modifies this`freeList, this`empties, this`border, nodes
      ensures Linked(nodes) && Carries(nodes, border, [t] + pool.stack)
      ensures freeList == NodeAt(nodes, border) && empties == NodeAt(nodes, border - 1)
    {
      hide Inv;
      ghost var k := border - 1;
      freeList := empties;
      assert freeList == nodes[k];
      empties := freeList.prev;
      freeList.trans := t;
      border := k;
      assert Linked(nodes) by { hide Carries, Distinct; }
      assert Carries(nodes, border, [t] + pool.stack) by {
        hide Linked;
        forall j | border <= j < |nodes|
          ensures nodes[j].trans == ([t] + pool.stack)[j - border]
        {
          assert j > k ==> nodes[k] != nodes[j];
        }
      }
    }
  }
}
