/**
 The memory pool of util.c: a stack of block addresses. `Pool` is its state as a value, the
 specification and what the thread protocols work on; `UtilMemPool` is the pool, updated in place.
 Addresses are unbounded integers.
 */
module MemPool {
  import opened Ownership
  import opened Results
  import opened RingQueue

  datatype Pool<T> = Pool(memArray: seq<T>, validNum: nat) {

    predicate Valid() { validNum <= |memArray| }

    /** The free blocks; the last one is handed out next. */
    function Free(): seq<T>
      requires Valid()
    {
      memArray[..validNum]
    }

    function Push(block: T): Pool<T>
      requires Valid()
    {
      if validNum < |memArray| then Pool(memArray[validNum := block], validNum + 1) else this
    }

    function Pop(): Pool<T>
      requires Valid()
    {
      if validNum > 0 then this.(validNum := validNum - 1) else this
    }

    function Top(): T
      requires Valid() && validNum > 0
    {
      memArray[validNum - 1]
    }
  }

  lemma PoolPush<T>(p: Pool<T>, block: T)
    requires p.Valid()
    ensures p.Push(block).Valid() && |p.Push(block).memArray| == |p.memArray|
    ensures p.Push(block).Free() == if p.validNum < |p.memArray| then p.Free() + [block] else p.Free()
  {}

  lemma PoolPop<T>(p: Pool<T>)
    requires p.Valid()
    ensures p.Pop().Valid() && p.Pop().memArray == p.memArray
    ensures p.validNum > 0 ==> p.Free() == p.Pop().Free() + [p.Top()]
    ensures p.validNum == 0 ==> p.Pop() == p
  {}

  // ---- Storage handed out

  /** Address of block `i`: the init loop steps from one to the next by `unit`. */
  function Block(top: int, unit: nat, i: nat): int {
    if i == 0 then top else Block(top, unit, i - 1) + unit
  }

  lemma {:induction false} BlockAddress(top: int, unit: nat, i: nat)
    ensures Block(top, unit, i) == top + i * unit
  {
    if i > 0 {
      BlockAddress(top, unit, i - 1);
      assert (i - 1) * unit + unit == i * unit;
    }
  }

  function Blocks(top: int, unit: nat, count: nat): seq<int> {
    seq(count, i requires 0 <= i < count => Block(top, unit, i))
  }

  function InitPool(top: int, unit: nat, count: nat): Pool<int> {
    Pool(Blocks(top, unit, count), count)
  }

  lemma {:induction false} BlockApart(top: int, unit: nat, i: nat, j: nat)
    requires i < j
    ensures Block(top, unit, i) + unit <= Block(top, unit, j)
  {
    if i + 1 < j { BlockApart(top, unit, i, j - 1); }
  }

  /** One use of the pool by its clients: they return only blocks they hold. */
  datatype PoolOp = Take | Return(block: int)

  datatype Ledger = Ledger(pool: Pool<int>, out: seq<int>)

  ghost predicate Allowed(s: Ledger, op: PoolOp) {
    s.pool.Valid() && (op.Return? ==> op.block in s.out)
  }

  function WithoutFirst(s: seq<int>, x: int): seq<int>
    requires x in s
  {
    if s[0] == x then s[1..] else [s[0]] + WithoutFirst(s[1..], x)
  }

  ghost function LedgerStep(s: Ledger, op: PoolOp): Ledger
    requires Allowed(s, op)
  {
    match op
    case Take => if s.pool.validNum > 0 then Ledger(s.pool.Pop(), s.out + [s.pool.Top()]) else s
    case Return(b) => Ledger(s.pool.Push(b), WithoutFirst(s.out, b))
  }

  /** The free and the outstanding blocks together are exactly the blocks carved from the region. */
  ghost predicate Accounted(s: Ledger, all: seq<int>) {
    && s.pool.Valid() && |s.pool.memArray| == |all|
    && multiset(s.pool.Free()) + multiset(s.out) == multiset(all)
    && s.pool.validNum + |s.out| == |all|
  }

  lemma {:induction false} WithoutFirstCounts(s: seq<int>, x: int)
    requires x in s
    ensures multiset(s) == multiset(WithoutFirst(s, x)) + multiset{x}
    ensures |WithoutFirst(s, x)| == |s| - 1
  {
    assert s == [s[0]] + s[1..];
    if s[0] != x {
      WithoutFirstCounts(s[1..], x);
    }
  }

  lemma LedgerStepKeeps(s: Ledger, op: PoolOp, all: seq<int>)
    requires Accounted(s, all) && Allowed(s, op)
    ensures Accounted(LedgerStep(s, op), all)
    ensures op.Return? ==> LedgerStep(s, op).pool.Free() == s.pool.Free() + [op.block]
  {
    match op
    case Take => PoolPop(s.pool);
    case Return(b) =>
      WithoutFirstCounts(s.out, b);
      PoolPush(s.pool, b);
  }

  /** `states` is a run of the pool that starts as `utilMemPoolInit` leaves it. */
  ghost predicate PoolRun(top: int, unit: nat, count: nat, states: seq<Ledger>, ops: seq<PoolOp>) {
    && |states| == |ops| + 1
    && states[0] == Ledger(InitPool(top, unit, count), [])
    && forall i: nat | i < |ops| :: Allowed(states[i], ops[i]) && states[i + 1] == LedgerStep(states[i], ops[i])
  }

  lemma {:induction false} RunAccounted(top: int, unit: nat, count: nat, states: seq<Ledger>, ops: seq<PoolOp>, n: nat)
    requires PoolRun(top, unit, count, states, ops) && n < |states|
    ensures Accounted(states[n], Blocks(top, unit, count))
  {
    if n == 0 {
      assert Blocks(top, unit, count)[..count] == Blocks(top, unit, count);
    } else {
      RunAccounted(top, unit, count, states, ops, n - 1);
      LedgerStepKeeps(states[n - 1], ops[n - 1], Blocks(top, unit, count));
    }
  }

  lemma BlocksDistinct(top: int, unit: nat, count: nat)
    requires 0 < unit
    ensures Distinct(Blocks(top, unit, count))
  {
    forall i, j | 0 <= i < j < count ensures Block(top, unit, i) != Block(top, unit, j) {
      BlockApart(top, unit, i, j);
    }
  }

  /** Some block of `unit` bytes contains the byte at address b. */
  ghost predicate Covers(blocks: seq<int>, unit: nat, b: int) {
    exists x :: x in blocks && x <= b < x + unit
  }

  lemma {:induction false} BlockOf(top: int, unit: nat, count: nat, b: int)
    requires top <= b < Block(top, unit, count)
    ensures Covers(Blocks(top, unit, count), unit, b)
  {
    var last := Block(top, unit, count - 1);
    assert Blocks(top, unit, count) == Blocks(top, unit, count - 1) + [last];
    if b < last {
      BlockOf(top, unit, count - 1, b);
      var x :| x in Blocks(top, unit, count - 1) && x <= b < x + unit;
      assert x in Blocks(top, unit, count);
    } else {
      assert last in Blocks(top, unit, count);
    }
  }

  lemma BlocksInside(top: int, unit: nat, count: nat, b: int)
    requires Covers(Blocks(top, unit, count), unit, b)
    ensures top <= b < Block(top, unit, count)
  {
    var x :| x in Blocks(top, unit, count) && x <= b < x + unit;
    var i: nat :| i < count && Blocks(top, unit, count)[i] == x;
    if i > 0 { BlockApart(top, unit, 0, i); }
    BlockApart(top, unit, i, count);
  }

  lemma LiveBlocks(s: Ledger, top: int, unit: nat, count: nat)
    requires 0 < unit && Accounted(s, Blocks(top, unit, count))
    ensures Distinct(s.pool.Free() + s.out)
    ensures forall x :: x in s.pool.Free() + s.out <==> x in Blocks(top, unit, count)
  {
    var live, all := s.pool.Free() + s.out, Blocks(top, unit, count);
    BlocksDistinct(top, unit, count);
    RearrangedDistinct(live, all);
    assert forall x :: x in live <==> x in multiset(live);
    assert forall x :: x in all <==> x in multiset(all);
  }

  lemma DistinctBlocksApart(top: int, unit: nat, count: nat, x: int, y: int)
    requires x in Blocks(top, unit, count) && y in Blocks(top, unit, count) && x != y
    ensures x + unit <= y || y + unit <= x
  {
    var a: nat :| a < count && Blocks(top, unit, count)[a] == x;
    var b: nat :| b < count && Blocks(top, unit, count)[b] == y;
    if a < b { BlockApart(top, unit, a, b); } else { BlockApart(top, unit, b, a); }
  }

  /**
   After any run in which clients return only blocks they hold: no two blocks, free or held,
   overlap; together they cover the region exactly; and validNum is the size less the number held.
   */
  lemma PoolStorageDisjoint(top: int, unit: nat, count: nat, states: seq<Ledger>, ops: seq<PoolOp>, n: nat)
    requires 0 < unit
    requires PoolRun(top, unit, count, states, ops) && n < |states|
    ensures var s := states[n];
      && s.pool.Valid()
      && s.pool.validNum == count - |s.out|
      && (var live := s.pool.Free() + s.out;
          && (forall i, j | 0 <= i < j < |live| :: live[i] + unit <= live[j] || live[j] + unit <= live[i])
          && (forall b :: Covers(live, unit, b) <==> top <= b < top + count * unit))
  {
    BlockAddress(top, unit, count);
    RunAccounted(top, unit, count, states, ops, n);
    var s, all := states[n], Blocks(top, unit, count);
    var live := s.pool.Free() + s.out;
    LiveBlocks(s, top, unit, count);
    forall i, j | 0 <= i < j < |live|
      ensures live[i] + unit <= live[j] || live[j] + unit <= live[i]
    {
      DistinctBlocksApart(top, unit, count, live[i], live[j]);
    }
    forall b ensures Covers(live, unit, b) <==> top <= b < Block(top, unit, count) {
      assert Covers(live, unit, b) == Covers(all, unit, b);
      if top <= b < Block(top, unit, count) { BlockOf(top, unit, count, b); }
      if Covers(all, unit, b) { BlocksInside(top, unit, count, b); }
    }
  }

  // ---- The pool itself

  class UtilMemPool {
    const memArray: array<int>
    const size: nat
    var validNum: nat

    ghost function State(): Pool<int>
      reads this, memArray
    {
      Pool(memArray[..], validNum)
    }

    ghost predicate Valid()
      reads this, memArray
    {
      State().Valid() && memArray.Length == size
    }

    constructor (top: int, unit: nat, count: nat)
      ensures Valid() && fresh(memArray) && size == count
      ensures State() == InitPool(top, unit, count)
    {
      memArray := new int[count];
      size, validNum := count, count;
      new;
      var mem := top;
      for index := 0 to count
        modifies memArray
        invariant mem == Block(top, unit, index)
        invariant forall k | 0 <= k < index :: memArray[k] == Block(top, unit, k)
      {
        memArray[index] := mem;
        mem := mem + unit;
      }
      assert memArray[..] == Blocks(top, unit, count);
    }

    /** A pop that waits is enabled only when a block is free. */
    method Pop(wait: bool) returns (block: Option<int>)
      requires Valid() && (wait ==> validNum > 0)
      modifies this
      ensures Valid()
      ensures State() == old(State()).Pop()
      ensures block == if old(validNum) > 0 then Some(old(State()).Top()) else None
    {
      block := None;
      if validNum > 0 {
        validNum := validNum - 1;
        block := Some(memArray[validNum]);
      }
    }

    method Push(block: int) returns (ok: bool)
      requires Valid()
      modifies this, memArray
      ensures Valid()
      ensures ok == (old(validNum) < size)
      ensures State() == old(State()).Push(block)
    {
      ok := false;
      if validNum < size {
        memArray[validNum] := block;
        validNum := validNum + 1;
        ok := true;
      }
      assert State() == old(State()).Push(block);
    }
  }
}
