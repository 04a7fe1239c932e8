/**
 The ring queue of util.c. `Ring` is its state as a value: the specification, and the queue that
 the thread protocols work on. `UtilQueue` is the queue itself, updated in place.
 Every operation holds the queue's lock throughout, so each is one atomic step.
 */
module RingQueue {
  import opened Results

  datatype Ring<T> = Ring(slots: seq<T>, readIndex: nat, writeIndex: nat, validNum: nat) {

    predicate Valid() {
      && validNum <= |slots|
      && (slots == [] ==> readIndex == writeIndex == 0)
      && (slots != [] ==> readIndex < |slots| && writeIndex == (readIndex + validNum) % |slots|)
    }

    /** The slot `i` places after the head. */
    function Slot(i: nat): nat {
      if readIndex + i < |slots| then readIndex + i else readIndex + i - |slots|
    }

    /** The queued items, oldest first. */
    function Contents(): (q: seq<T>)
      requires Valid()
      ensures |q| == validNum
    {
      seq(validNum, i requires 0 <= i < validNum => slots[Slot(i)])
    }

    function Push(x: T): Ring<T>
      requires Valid()
    {
      if validNum < |slots| then
        this.(slots := slots[writeIndex := x], writeIndex := (writeIndex + 1) % |slots|, validNum := validNum + 1)
      else this
    }

    function Pop(): Ring<T>
      requires Valid()
    {
      if validNum > 0 then
        this.(readIndex := (readIndex + 1) % |slots|, validNum := validNum - 1)
      else this
    }

    /** Overwrites a slot through a pointer obtained by peeking. */
    function Write(slot: nat, x: T): Ring<T>
      requires slot < |slots|
    {
      this.(slots := slots[slot := x])
    }
  }

  function EmptyRing<T>(slots: seq<T>): Ring<T> {
    Ring(slots, 0, 0, 0)
  }

  lemma ModWrap(i: nat, n: nat)
    requires i < 2 * n
    ensures i % n == if i < n then i else i - n
  {
    if i >= n { assert i == n + (i - n); }
  }

  lemma {:induction false} PushContents<T>(r: Ring<T>, x: T)
    requires r.Valid()
    ensures r.Push(x).Valid() && |r.Push(x).slots| == |r.slots|
    ensures r.Push(x).Contents() == if r.validNum < |r.slots| then r.Contents() + [x] else r.Contents()
  {
    var n := |r.slots|;
    if r.validNum < n {
      ModWrap(r.readIndex + r.validNum, n);
      ModWrap(r.writeIndex + 1, n);
      ModWrap(r.readIndex + r.validNum + 1, n);
    }
  }

  lemma {:induction false} PopContents<T>(r: Ring<T>)
    requires r.Valid()
    ensures r.Pop().Valid() && r.Pop().slots == r.slots
    ensures r.Pop().Contents() == if r.validNum > 0 then r.Contents()[1..] else r.Contents()
  {
    var n := |r.slots|;
    if r.validNum > 0 {
      ModWrap(r.readIndex + 1, n);
      ModWrap(r.readIndex + r.validNum, n);
      ModWrap(r.Pop().readIndex + (r.validNum - 1), n);
    }
  }

  lemma WriteHead<T>(r: Ring<T>, x: T)
    requires r.Valid() && r.validNum > 0
    ensures r.Write(r.readIndex, x).Valid()
    ensures r.Write(r.readIndex, x).Contents() == r.Contents()[0 := x]
  {}

  /** A push never lands on a slot that is still queued, nor, with a free place to spare, on the one just popped. */
  lemma {:induction false} PushMisses<T>(r: Ring<T>, x: T, slot: nat)
    requires r.Valid() && slot < |r.slots|
    requires (exists i: nat :: i < r.validNum && slot == r.Slot(i))
          || (r.validNum + 1 < |r.slots| && r.readIndex == (slot + 1) % |r.slots|)
    ensures r.Push(x).slots[slot] == r.slots[slot]
  {
    var n := |r.slots|;
    if r.validNum < n {
      ModWrap(r.readIndex + r.validNum, n);
      ModWrap(slot + 1, n);
    }
  }

  // ---- Any interleaving of operations against a bounded FIFO

  /** Edit is a store through the pointer that the last peek gave, to the item at the head. */
  datatype Op<T> = OpPush(item: T) | OpPop | OpPeek | OpEdit(item: T)

  /** What a caller sees of one operation. */
  datatype Reply<T> = Done | Refused | Got(item: T) | Head(head: Option<T>, count: nat)

  function RingStep<T>(r: Ring<T>, op: Op<T>): (Ring<T>, Reply<T>)
    requires r.Valid()
  {
    match op
    case OpPush(x) => (r.Push(x), if r.validNum < |r.slots| then Done else Refused)
    case OpPop => (r.Pop(), if r.validNum > 0 then Got(r.slots[r.readIndex]) else Refused)
    case OpPeek => (r, Head(if r.validNum > 0 then Some(r.slots[r.readIndex]) else None, r.validNum))
    case OpEdit(x) => if r.validNum > 0 then (r.Write(r.readIndex, x), Done) else (r, Refused)
  }

  /** The same operations on a list that holds at most `size` items. */
  function FifoStep<T>(q: seq<T>, size: nat, op: Op<T>): (seq<T>, Reply<T>) {
    match op
    case OpPush(x) => if |q| < size then (q + [x], Done) else (q, Refused)
    case OpPop => if q != [] then (q[1..], Got(q[0])) else (q, Refused)
    case OpPeek => (q, Head(if q != [] then Some(q[0]) else None, |q|))
    case OpEdit(x) => if q != [] then (q[0 := x], Done) else (q, Refused)
  }

  lemma {:induction false} StepRefines<T>(r: Ring<T>, op: Op<T>)
    requires r.Valid()
    ensures var (r', reply) := RingStep(r, op);
            && r'.Valid() && |r'.slots| == |r.slots|
            && FifoStep(r.Contents(), |r.slots|, op) == (r'.Contents(), reply)
  {
    match op
    case OpPush(x) => PushContents(r, x);
    case OpPop => PopContents(r);
    case OpPeek =>
    case OpEdit(x) => if r.validNum > 0 { WriteHead(r, x); }
  }

  ghost function RingRun<T>(r: Ring<T>, ops: seq<Op<T>>): (out: (Ring<T>, seq<Reply<T>>))
    requires r.Valid()
    decreases |ops|
  {
    if ops == [] then (r, [])
    else
      var (r', reply) := RingStep(r, ops[0]);
      StepRefines(r, ops[0]);
      var (last, replies) := RingRun(r', ops[1..]);
      (last, [reply] + replies)
  }

  function FifoRun<T>(q: seq<T>, size: nat, ops: seq<Op<T>>): (seq<T>, seq<Reply<T>>)
    decreases |ops|
  {
    if ops == [] then (q, [])
    else
      var (q', reply) := FifoStep(q, size, ops[0]);
      var (last, replies) := FifoRun(q', size, ops[1..]);
      (last, [reply] + replies)
  }

  /**
   Over every run, the ring answers exactly as the bounded list does and keeps
   writeIndex == (readIndex + validNum) % size.
   */
  lemma {:induction false} RingRefinesFifo<T>(r: Ring<T>, ops: seq<Op<T>>)
    requires r.Valid()
    ensures var (r', replies) := RingRun(r, ops);
            && r'.Valid() && |r'.slots| == |r.slots|
            && FifoRun(r.Contents(), |r.slots|, ops) == (r'.Contents(), replies)
    decreases |ops|
  {
    if ops != [] {
      StepRefines(r, ops[0]);
      RingRefinesFifo(RingStep(r, ops[0]).0, ops[1..]);
    }
  }

  /** What an accepted push puts in, and what a pop takes out. */
  function In<T>(op: Op<T>, reply: Reply<T>): seq<T> {
    if op.OpPush? && reply.Done? then [op.item] else []
  }

  function Out<T>(reply: Reply<T>): seq<T> {
    if reply.Got? then [reply.item] else []
  }

  function Pushed<T>(ops: seq<Op<T>>, replies: seq<Reply<T>>): seq<T>
    requires |ops| == |replies|
    decreases |ops|
  {
    if ops == [] then [] else In(ops[0], replies[0]) + Pushed(ops[1..], replies[1..])
  }

  function Popped<T>(replies: seq<Reply<T>>): seq<T> {
    if replies == [] then [] else Out(replies[0]) + Popped(replies[1..])
  }

  lemma StepConserves<T>(q: seq<T>, size: nat, op: Op<T>)
    requires !op.OpEdit?
    ensures var (q', reply) := FifoStep(q, size, op); q + In(op, reply) == Out(reply) + q'
  {}

  lemma {:induction false} FifoConserves<T>(q: seq<T>, size: nat, ops: seq<Op<T>>)
    requires forall op <- ops :: !op.OpEdit?
    ensures |FifoRun(q, size, ops).1| == |ops|
    ensures var (q', replies) := FifoRun(q, size, ops);
            q + Pushed(ops, replies) == Popped(replies) + q'
    decreases |ops|
  {
    if ops != [] {
      var (q1, reply) := FifoStep(q, size, ops[0]);
      var (q', replies) := FifoRun(q1, size, ops[1..]);
      FifoConserves(q1, size, ops[1..]);
      StepConserves(q, size, ops[0]);
      assert ([reply] + replies)[1..] == replies;
      Regroup(q, In(ops[0], reply), Out(reply), q1, Pushed(ops[1..], replies), Popped(replies), q');
    }
  }

  lemma Regroup<T>(q: seq<T>, i: seq<T>, o: seq<T>, q1: seq<T>, pushed: seq<T>, popped: seq<T>, q': seq<T>)
    requires q + i == o + q1 && q1 + pushed == popped + q'
    ensures q + (i + pushed) == (o + popped) + q'
  {
    assert q + (i + pushed) == (q + i) + pushed == o + (q1 + pushed) == (o + popped) + q';
  }

  /** With no edits, items come out in the order they went in, none lost and none twice. */
  lemma {:induction false} FirstInFirstOut<T>(r: Ring<T>, ops: seq<Op<T>>)
    requires r.Valid() && forall op <- ops :: !op.OpEdit?
    ensures |RingRun(r, ops).1| == |ops|
    ensures var (r', replies) := RingRun(r, ops);
            && r'.Valid()
            && r.Contents() + Pushed(ops, replies) == Popped(replies) + r'.Contents()
  {
    RingRefinesFifo(r, ops);
    FifoConserves(r.Contents(), |r.slots|, ops);
  }

  /** A run of pushes leaves the head where it was, with the value it had. */
  lemma {:induction false} HeadSurvivesPushes<T>(r: Ring<T>, items: seq<T>)
    requires r.Valid() && r.validNum > 0
    ensures PushAll(r, items).Valid() && PushAll(r, items).validNum > 0
    ensures PushAll(r, items).readIndex == r.readIndex
    ensures PushAll(r, items).slots[r.readIndex] == r.slots[r.readIndex]
    decreases |items|
  {
    if items != [] {
      PushContents(r, items[0]);
      assert r.readIndex == r.Slot(0);
      PushMisses(r, items[0], r.readIndex);
      HeadSurvivesPushes(r.Push(items[0]), items[1..]);
    }
  }

  ghost function PushAll<T>(r: Ring<T>, items: seq<T>): Ring<T>
    requires r.Valid()
    decreases |items|
  {
    if items == [] then r
    else
      PushContents(r, items[0]);
      PushAll(r.Push(items[0]), items[1..])
  }

  // ---- The queue itself

  class UtilQueue<T(0)> {
    const queueArray: array<T>
    const size: nat
    var validNum: nat
    var readIndex: nat
    var writeIndex: nat

    ghost function State(): Ring<T>
      reads this, queueArray
    {
      Ring(queueArray[..], readIndex, writeIndex, validNum)
    }

    ghost predicate Valid()
      reads this, queueArray
    {
      State().Valid() && queueArray.Length == size
    }

    constructor (count: nat)
      ensures Valid() && fresh(queueArray) && size == count
      ensures State() == EmptyRing(queueArray[..]) && State().Contents() == []
    {
      queueArray := new T[count];
      size := count;
      validNum, readIndex, writeIndex := 0, 0, 0;
    }

    /** A push that waits is enabled only when there is room. */
    method Push(item: T, wait: bool) returns (ok: bool)
      requires Valid() && (wait ==> validNum < size)
      modifies this, queueArray
      ensures Valid()
      ensures ok == (old(validNum) < size)
      ensures State() == old(State()).Push(item)
      ensures State().Contents() == if ok then old(State().Contents()) + [item] else old(State().Contents())
    {
      ghost var before := State();
      PushContents(before, item);
      hide Ring<T>.Contents;
      ok := validNum < size;
      if ok {
        queueArray[writeIndex] := item;
        writeIndex := (writeIndex + 1) % size;
        validNum := validNum + 1;
      }
      assert State() == before.Push(item);
    }

    /** A pop that waits is enabled only when there is an item. */
    method Pop(wait: bool) returns (item: Option<T>)
      requires Valid() && (wait ==> validNum > 0)
      modifies this
      ensures Valid()
      ensures State() == old(State()).Pop()
      ensures item == if old(validNum) > 0 then Some(old(State().Contents()[0])) else None
      ensures State().Contents() == if item.Some? then old(State().Contents())[1..] else old(State().Contents())
    {
      ghost var before := State();
      PopContents(before);
      item := None;
      if validNum > 0 {
        item := Some(queueArray[readIndex]);
        readIndex := (readIndex + 1) % size;
        validNum := validNum - 1;
      }
      assert State() == before.Pop();
    }

    /** The slot of the head, through which the caller may read and write it, and the number queued. */
    method Peek() returns (slot: Option<nat>, count: nat)
      requires Valid()
      ensures count == validNum == |State().Contents()|
      ensures slot == if count > 0 then Some(readIndex) else None
      ensures slot.Some? ==> slot.value < size && queueArray[slot.value] == State().Contents()[0]
    {
      slot, count := None, validNum;
      if validNum > 0 { slot := Some(readIndex); }
    }
  }
}
