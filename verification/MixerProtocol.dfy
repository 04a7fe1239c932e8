/**
 PCM blocks between the audio post-processor's thread and the mixer library's callback, as a
 state machine: each step is one region that a lock protects, or what a thread does alone
 between two such regions. The callback edits the head of the queue in place and reads a slot
 that it has already popped, so the queue is modelled down to its slots.
 The decoder, the display's status and the caller that asks for the stop are the environment.
 */
module MixerProtocol {
  import opened Bytes
  import opened Ownership
  import opened RingQueue
  import opened Timestamps

  /** One sample of all channels; numbers stand for them. */
  type Sample = int

  /** A queued block: which one, how many of its samples have been handed out, and its time. */
  datatype PcmInfo = PcmInfo(block: nat, index: nat, pts: Timestamp)

  /** Where the post-processor's thread is. */
  datatype Producer =
    | Idle
    | Filling(block: nat, pts: Timestamp)   // took a block from the pool for the decoder to fill
    | Filled(block: nat, pts: Timestamp)    // the decoder filled it
    | Stopped

  /** Where the callback is. `req` samples are still to be put behind `out`. */
  datatype Mixer =
    | Outside
    | Called(stop: bool)                                          // bReqStop as read on entry
    | Looking(slot: nat, num: nat, req: nat, out: seq<Sample>)    // what the last peek gave
    | Used(slot: nat, req: nat, out: seq<Sample>)                 // used its block up, about to pop it
    | Popped(slot: nat, req: nat, out: seq<Sample>)               // popped it, about to give the block back
    | Returned(req: nat, out: seq<Sample>)                        // about to peek again
    | Ended                                                       // bSequence is cleared

  /** What a callback handed to the mixer library. */
  datatype Delivery = Delivery(samples: nat, out: seq<Sample>, pad: nat, queueSeenEmpty: bool)

  datatype State = State(
    pool: seq<nat>, queue: Ring<PcmInfo>, producer: Producer, mixer: Mixer,
    pcm: seq<seq<Sample>>,              // what each block holds
    ready: bool, reqStop: bool,         // STATUS_READY of the audio; bReqStop
    want: nat,                          // samples that the current callback was asked for
    pushed: seq<seq<Sample>>,           // blocks queued so far
    delivered: seq<Sample>,             // samples copied out so far
    log: seq<Delivery>)                 // callbacks so far

  datatype Step =
    | TakeBlock(pts: Timestamp) | Decode(data: seq<Sample>) | DecodeFails | PushBlock | Finish
    | CallBack(samples: nat) | Look(videoReady: bool) | Copy | Pop | GiveBack | LookAgain | Deliver
    | RequestStop

  const NONE: PcmInfo := PcmInfo(0, 0, Timestamp(0, 0))

  /** The entry that the producer queues for the block it has filled. */
  function Fresh(p: Producer): PcmInfo
    requires p.Filled?
  {
    PcmInfo(p.block, 0, p.pts)
  }

  function Head(q: Ring<PcmInfo>, slot: nat): PcmInfo {
    if slot < |q.slots| then q.slots[slot] else NONE
  }

  function Samples(pcm: seq<seq<Sample>>, b: nat): seq<Sample> {
    if b < |pcm| then pcm[b] else []
  }

  function Cut(s: seq<Sample>, from: nat, count: nat): seq<Sample> {
    if from + count <= |s| then s[from..from + count] else []
  }

  predicate Enabled(auSample: nat, s: State, step: Step) {
    match step
    case TakeBlock(_) => s.producer.Idle? && s.pool != []
    case Decode(data) => s.producer.Filling? && |data| == auSample
    case DecodeFails => s.producer.Filling?
    case PushBlock => s.producer.Filled? && s.queue.validNum < |s.queue.slots|
    case Finish => s.producer.Idle?
    case CallBack(_) => s.mixer.Outside?
    case Look(_) => s.mixer.Called?
    case Copy => s.mixer.Looking? && s.mixer.req > 0 && s.mixer.num > 0 && s.mixer.slot < |s.queue.slots|
    case Pop => s.mixer.Used?
    case GiveBack => s.mixer.Popped?
    case LookAgain => s.mixer.Returned?
    case Deliver => s.mixer.Looking? && (s.mixer.req == 0 || s.mixer.num == 0)
    case RequestStop => s.producer.Stopped?
  }

  /** What a delivery records. */
  function Handed(s: State): Delivery
    requires s.mixer.Looking?
  {
    Delivery(s.want, s.mixer.out, s.mixer.req, s.mixer.num == 0)
  }

  function Next(auSample: nat, s: State, step: Step): State
    requires s.queue.Valid() && Enabled(auSample, s, step)
  {
    match step
    case TakeBlock(pts) => s.(pool := s.pool[..|s.pool| - 1], producer := Filling(s.pool[|s.pool| - 1], pts))
    case Decode(data) =>
      var b := s.producer.block;
      s.(pcm := if b < |s.pcm| then s.pcm[b := data] else s.pcm, producer := Filled(b, s.producer.pts))
    case DecodeFails => s.(pool := PushIfRoom(s.pool, |s.pcm|, s.producer.block), producer := Stopped)
    case PushBlock =>
      s.(queue := s.queue.Push(Fresh(s.producer)), pushed := s.pushed + [Samples(s.pcm, s.producer.block)],
         producer := Idle)
    case Finish => s.(producer := Stopped)
    case CallBack(samples) => s.(mixer := Called(s.reqStop), want := samples)
    case Look(videoReady) => AfterLook(s, videoReady)
    case Copy => AfterCopy(auSample, s)
    case Pop => s.(queue := s.queue.Pop(), mixer := Popped(s.mixer.slot, s.mixer.req, s.mixer.out))
    case GiveBack =>
      s.(pool := PushIfRoom(s.pool, |s.pcm|, Head(s.queue, s.mixer.slot).block),
         mixer := Returned(s.mixer.req, s.mixer.out))
    case LookAgain => s.(mixer := Looking(s.queue.readIndex, s.queue.validNum, s.mixer.req, s.mixer.out))
    case Deliver => s.(log := s.log + [Handed(s)], mixer := Outside)
    case RequestStop => s.(reqStop := true)
  }

  /** The first peek: nothing is delivered before the audio has been seen ready and while the video is not. */
  function AfterLook(s: State, videoReady: bool): State
    requires s.mixer.Called?
  {
    var num := s.queue.validNum;
    var t := s.(ready := s.ready || num >= |s.pcm|);
    if !videoReady || !t.ready then t.(mixer := Outside)
    else if num == 0 then
      if s.mixer.stop then t.(mixer := Ended, reqStop := false) else t.(mixer := Outside)
    else t.(mixer := Looking(s.queue.readIndex, num, s.want, []))
  }

  /** Copies what is left of the head's block, or as much of it as is still wanted. */
  function AfterCopy(auSample: nat, s: State): State
    requires s.mixer.Looking? && s.mixer.slot < |s.queue.slots|
  {
    var m, head := s.mixer, s.queue.slots[s.mixer.slot];
    var left := if head.index < auSample then auSample - head.index else 0;
    var add := if left > m.req then m.req else left;
    var data := Cut(Samples(s.pcm, head.block), head.index, add);
    var t := s.(queue := s.queue.Write(m.slot, head.(index := head.index + add)), delivered := s.delivered + data);
    if head.index + add >= auSample then t.(mixer := Used(m.slot, m.req - add, m.out + data))
    else t.(mixer := Looking(m.slot, m.num, m.req - add, m.out + data))
  }

  /** As apostOpen leaves the pool and the queue of `n` blocks. */
  function Init(n: nat): State {
    State(Indices(n), EmptyRing(seq(n, _ => NONE)), Idle, Outside,
          seq(n, _ => []), false, false, 0, [], [], [])
  }

  // ---- The queue's operations on the blocks in it

  function QueuedBlocks(q: Ring<PcmInfo>): seq<nat>
    requires q.Valid()
  {
    seq(q.validNum, i requires 0 <= i < q.validNum => q.Contents()[i].block)
  }

  lemma {:induction false} QueuePush(q: Ring<PcmInfo>, x: PcmInfo)
    requires q.Valid() && q.validNum < |q.slots|
    ensures q.Push(x).Valid() && |q.Push(x).slots| == |q.slots|
    ensures q.Push(x).validNum == q.validNum + 1 && q.Push(x).readIndex == q.readIndex
    ensures q.Push(x).Contents() == q.Contents() + [x]
    ensures QueuedBlocks(q.Push(x)) == QueuedBlocks(q) + [x.block]
  {
    PushContents(q, x);
  }

  lemma {:induction false} QueuePop(q: Ring<PcmInfo>)
    requires q.Valid() && q.validNum > 0
    ensures q.Pop().Valid() && q.Pop().slots == q.slots && q.readIndex < |q.slots|
    ensures q.Pop().validNum == q.validNum - 1 && q.Pop().readIndex == (q.readIndex + 1) % |q.slots|
    ensures q.Pop().Contents() == q.Contents()[1..]
    ensures QueuedBlocks(q) == [q.slots[q.readIndex].block] + QueuedBlocks(q.Pop())
  {
    PopContents(q);
    assert q.Contents()[0] == q.slots[q.readIndex];
  }

  lemma QueueWrite(q: Ring<PcmInfo>, x: PcmInfo)
    requires q.Valid() && q.validNum > 0 && x.block == q.slots[q.readIndex].block
    ensures q.Write(q.readIndex, x).Valid()
    ensures q.Contents()[0] == q.slots[q.readIndex]
    ensures q.Write(q.readIndex, x).Contents() == q.Contents()[0 := x]
    ensures QueuedBlocks(q.Write(q.readIndex, x)) == QueuedBlocks(q)
  {
    WriteHead(q, x);
    assert q.Contents()[0] == q.slots[q.readIndex];
  }

  // ---- Ownership: pool, hands and queue hold every block exactly once

  function ProducerHand(p: Producer): seq<nat> {
    if p.Filling? || p.Filled? then [p.block] else []
  }

  /** After its pop and until it is given back, a block is the callback's; only the slot still names it. */
  function MixerHand(s: State): seq<nat> {
    if s.mixer.Popped? then [Head(s.queue, s.mixer.slot).block] else []
  }

  function Owners(s: State, x: nat): nat
    requires s.queue.Valid()
  {
    Copies(s.pool, x) + Copies(ProducerHand(s.producer), x) + Copies(QueuedBlocks(s.queue), x) + Copies(MixerHand(s), x)
  }

  function Held(s: State): nat {
    |s.pool| + |ProducerHand(s.producer)| + s.queue.validNum + |MixerHand(s)|
  }

  /** What the callback last saw of the queue still holds: only it pops. */
  predicate InStep(s: State) {
    && s.queue.Valid() && |s.queue.slots| == |s.pcm|
    && match s.mixer
       case Looking(slot, num, _, _) => num > 0 ==> s.queue.validNum > 0 && slot == s.queue.readIndex
       case Used(slot, _, _) => s.queue.validNum > 0 && slot == s.queue.readIndex
       case Popped(slot, _, _) => slot < |s.queue.slots| && s.queue.readIndex == (slot + 1) % |s.queue.slots|
       case _ => true
  }

  ghost predicate Owned(s: State) {
    && InStep(s) && Held(s) == |s.pcm|
    && forall x: nat :: Owners(s, x) == if x < |s.pcm| then 1 else 0
  }

  /**
   The slot that the callback has popped and not read yet is safe from the producer: its block
   still counts as held, so the producer can only have one to push if the ring cannot wrap
   onto that slot.
   */
  lemma {:induction false} PoppedSlotSafe(s: State, x: PcmInfo)
    requires Owned(s) && s.mixer.Popped? && s.producer.Filled? && s.queue.validNum < |s.queue.slots|
    ensures Head(s.queue.Push(x), s.mixer.slot) == Head(s.queue, s.mixer.slot)
  {
    hide Owners;
    PushMisses(s.queue, x, s.mixer.slot);
    QueuePush(s.queue, x);
  }

  lemma {:induction false} PushMoves(auSample: nat, s: State, x: nat)
    requires Owned(s) && Enabled(auSample, s, PushBlock)
    ensures var t := Next(auSample, s, PushBlock);
            && InStep(t) && Held(t) == Held(s) && Owners(t, x) == Owners(s, x)
  {
    hide Copies, QueuedBlocks, Ring<PcmInfo>.Push, Ring<PcmInfo>.Contents, Ring<PcmInfo>.Valid;
    var b := s.producer.block;
    QueuePush(s.queue, Fresh(s.producer));
    CopiesJoin(QueuedBlocks(s.queue), [b], x);
    CopiesOne(b, x);
    if s.mixer.Popped? { PoppedSlotSafe(s, Fresh(s.producer)); }
  }

  lemma {:induction false} PopMoves(auSample: nat, s: State, x: nat)
    requires Owned(s) && s.mixer.Used?
    ensures var t := Next(auSample, s, Pop);
            && InStep(t) && Held(t) == Held(s) && Owners(t, x) == Owners(s, x)
  {
    hide Copies, QueuedBlocks, Ring<PcmInfo>.Pop, Ring<PcmInfo>.Contents, Ring<PcmInfo>.Valid;
    QueuePop(s.queue);
    var b := s.queue.slots[s.queue.readIndex].block;
    CopiesJoin([b], QueuedBlocks(s.queue.Pop()), x);
    CopiesOne(b, x);
  }

  lemma GiveBackMoves(auSample: nat, s: State, x: nat)
    requires Owned(s) && s.mixer.Popped?
    ensures var t := Next(auSample, s, GiveBack);
            && InStep(t) && Held(t) == Held(s) && Owners(t, x) == Owners(s, x)
  {
    hide Copies, QueuedBlocks, Ring<PcmInfo>.Contents, Ring<PcmInfo>.Valid;
    var b := Head(s.queue, s.mixer.slot).block;
    CopiesJoin(s.pool, [b], x);
    CopiesOne(b, x);
  }

  lemma {:induction false} CopyMoves(auSample: nat, s: State, x: nat)
    requires Owned(s) && Enabled(auSample, s, Copy)
    ensures var t := Next(auSample, s, Copy);
            && InStep(t) && Held(t) == Held(s) && Owners(t, x) == Owners(s, x)
  {
    hide Copies, QueuedBlocks, Ring<PcmInfo>.Contents, Ring<PcmInfo>.Valid, Samples, Cut;
    var head := s.queue.slots[s.mixer.slot];
    QueueWrite(s.queue, AfterCopy(auSample, s).queue.slots[s.mixer.slot]);
  }

  lemma {:induction false} ProducerMoves(auSample: nat, s: State, step: Step, x: nat)
    requires Owned(s) && Enabled(auSample, s, step) && (step.TakeBlock? || step.DecodeFails?)
    ensures var t := Next(auSample, s, step);
            && InStep(t) && Held(t) == Held(s) && Owners(t, x) == Owners(s, x)
  {
    hide Copies, QueuedBlocks, Ring<PcmInfo>.Contents, Ring<PcmInfo>.Valid;
    if step.TakeBlock? {
      var last := |s.pool| - 1;
      assert s.pool == s.pool[..last] + [s.pool[last]];
      CopiesJoin(s.pool[..last], [s.pool[last]], x);
      CopiesOne(s.pool[last], x);
    } else {
      CopiesJoin(s.pool, [s.producer.block], x);
      CopiesOne(s.producer.block, x);
    }
  }

  /** A step only moves blocks from one holder to another. */
  lemma {:induction false} StepMoves(auSample: nat, s: State, step: Step, x: nat)
    requires Owned(s) && Enabled(auSample, s, step)
    ensures var t := Next(auSample, s, step);
            && InStep(t) && Held(t) == Held(s) && Owners(t, x) == Owners(s, x)
  {
    hide Copies, QueuedBlocks, Ring<PcmInfo>.Contents, Ring<PcmInfo>.Valid, AfterCopy;
    match step {
      case TakeBlock(_) | DecodeFails => ProducerMoves(auSample, s, step, x);
      case PushBlock => PushMoves(auSample, s, x);
      case Copy => CopyMoves(auSample, s, x);
      case Pop => PopMoves(auSample, s, x);
      case GiveBack => GiveBackMoves(auSample, s, x);
      case Decode(_) | Finish | CallBack(_) | Look(_) | LookAgain | Deliver | RequestStop =>
    }
  }

  lemma StepKeepsSize(auSample: nat, s: State, step: Step)
    requires s.queue.Valid() && Enabled(auSample, s, step)
    ensures |Next(auSample, s, step).pcm| == |s.pcm|
  {
    hide Ring<PcmInfo>.Valid, Samples, Cut;
  }

  lemma {:induction false} StepKeepsOwned(auSample: nat, s: State, step: Step)
    requires Owned(s) && Enabled(auSample, s, step)
    ensures Owned(Next(auSample, s, step)) && |Next(auSample, s, step).pcm| == |s.pcm|
  {
    hide Next, Enabled, Owners, Held;
    StepMoves(auSample, s, step, 0);
    StepKeepsSize(auSample, s, step);
    forall x: nat ensures Owners(Next(auSample, s, step), x) == if x < |s.pcm| then 1 else 0 {
      StepMoves(auSample, s, step, x);
    }
  }

  // ---- Data: no sample lost, repeated or out of order

  /** What is left of a queued block. */
  function Tail(pcm: seq<seq<Sample>>, p: PcmInfo): seq<Sample> {
    var data := Samples(pcm, p.block);
    if p.index <= |data| then data[p.index..] else []
  }

  /** What is left of the queue. */
  function Rest(pcm: seq<seq<Sample>>, q: seq<PcmInfo>): seq<Sample> {
    if q == [] then [] else Tail(pcm, q[0]) + Rest(pcm, q[1..])
  }

  lemma {:induction false} RestPush(pcm: seq<seq<Sample>>, q: seq<PcmInfo>, x: PcmInfo)
    ensures Rest(pcm, q + [x]) == Rest(pcm, q) + Tail(pcm, x)
  {
    hide Tail;
    var tail := Tail(pcm, x);
    if q == [] {
      assert q + [x] == [x];
      assert Rest(pcm, [x]) == tail + Rest(pcm, []) == tail;
      assert [] + tail == tail;
    } else {
      RestPush(pcm, q[1..], x);
      assert (q + [x])[1..] == q[1..] + [x];
      assert Tail(pcm, q[0]) + (Rest(pcm, q[1..]) + tail) == (Tail(pcm, q[0]) + Rest(pcm, q[1..])) + tail;
    }
  }

  /** Decoding into a block that is not queued leaves the queue's samples alone. */
  lemma {:induction false} RestOther(pcm: seq<seq<Sample>>, q: seq<PcmInfo>, b: nat, data: seq<Sample>)
    requires b < |pcm| && forall i | 0 <= i < |q| :: q[i].block != b
    ensures Rest(pcm[b := data], q) == Rest(pcm, q)
  {
    if q != [] { RestOther(pcm, q[1..], b, data); }
  }

  /** Copying `add` samples from the head moves exactly these from the queue to the output. */
  lemma RestCopy(pcm: seq<seq<Sample>>, q: seq<PcmInfo>, add: nat)
    requires q != [] && q[0].index + add <= |Samples(pcm, q[0].block)|
    ensures Cut(Samples(pcm, q[0].block), q[0].index, add)
          + Rest(pcm, q[0 := q[0].(index := q[0].index + add)]) == Rest(pcm, q)
  {
    hide Samples, Rest;
    var data, i, rest := Samples(pcm, q[0].block), q[0].index, Rest(pcm, q[1..]);
    var q' := q[0 := q[0].(index := i + add)];
    RestHead(pcm, q);
    RestHead(pcm, q');
    assert q'[1..] == q[1..];
    assert data[i..] == data[i..i + add] + data[i + add..];
    assert data[i..i + add] + (data[i + add..] + rest) == data[i..] + rest;
  }

  lemma RestHead(pcm: seq<seq<Sample>>, q: seq<PcmInfo>)
    requires q != []
    ensures Rest(pcm, q) == Tail(pcm, q[0]) + Rest(pcm, q[1..])
  {}

  /** Blocks in the queue are full, and only the head of the queue can be used up, just before its pop. */
  ghost predicate Whole(auSample: nat, s: State)
    requires s.queue.Valid()
  {
    && (s.producer.Filled? ==> |Samples(s.pcm, s.producer.block)| == auSample)
    && var q := s.queue.Contents();
       forall i | 0 <= i < |q| ::
         && |Samples(s.pcm, q[i].block)| == auSample
         && if i == 0 && s.mixer.Used? then q[i].index == auSample else q[i].index < auSample
  }

  ghost predicate Gapless(auSample: nat, s: State)
    requires s.queue.Valid()
  {
    Whole(auSample, s) && s.delivered + Rest(s.pcm, s.queue.Contents()) == Flatten(s.pushed)
  }

  lemma {:induction false} PushGapless(auSample: nat, s: State)
    requires auSample > 0 && Owned(s) && Gapless(auSample, s) && Enabled(auSample, s, PushBlock)
    requires Next(auSample, s, PushBlock).queue.Valid()
    ensures Gapless(auSample, Next(auSample, s, PushBlock))
  {
    hide Owners, Held, Ring<PcmInfo>.Push, Ring<PcmInfo>.Contents, Ring<PcmInfo>.Valid, Rest, Samples;
    var b, q := s.producer.block, s.queue.Contents();
    QueuePush(s.queue, Fresh(s.producer));
    RestPush(s.pcm, q, Fresh(s.producer));
    FlattenSnoc(s.pushed, Samples(s.pcm, b));
    assert Tail(s.pcm, Fresh(s.producer)) == Samples(s.pcm, b);
    assert s.delivered + (Rest(s.pcm, q) + Samples(s.pcm, b)) == Flatten(s.pushed) + Samples(s.pcm, b);
  }

  lemma {:induction false} PopGapless(auSample: nat, s: State)
    requires auSample > 0 && Owned(s) && Gapless(auSample, s) && s.mixer.Used?
    requires Next(auSample, s, Pop).queue.Valid()
    ensures Gapless(auSample, Next(auSample, s, Pop))
  {
    hide Ring<PcmInfo>.Pop, Ring<PcmInfo>.Contents, Ring<PcmInfo>.Valid, Samples, Rest, Owners, Held;
    QueuePop(s.queue);
    var q := s.queue.Contents();
    RestHead(s.pcm, q);
    assert Tail(s.pcm, q[0]) == [];
    assert [] + Rest(s.pcm, q[1..]) == Rest(s.pcm, q[1..]);
  }

  /** How many samples a copy step moves: all that is left of the block, or all that is wanted. */
  function Amount(auSample: nat, s: State): nat
    requires Enabled(auSample, s, Copy)
  {
    var index := s.queue.slots[s.mixer.slot].index;
    var left := if index < auSample then auSample - index else 0;
    if left > s.mixer.req then s.mixer.req else left
  }

  function Moved(auSample: nat, s: State): seq<Sample>
    requires Enabled(auSample, s, Copy)
  {
    var head := s.queue.slots[s.mixer.slot];
    Cut(Samples(s.pcm, head.block), head.index, Amount(auSample, s))
  }

  /** What a copy step changes. */
  lemma CopyEffect(auSample: nat, s: State)
    requires Owned(s) && Whole(auSample, s) && Enabled(auSample, s, Copy)
    ensures var t, head, add := Next(auSample, s, Copy), s.queue.slots[s.mixer.slot], Amount(auSample, s);
      && s.queue.validNum > 0 && s.queue.Contents()[0] == head
      && 0 < add <= s.mixer.req && head.index + add <= auSample == |Samples(s.pcm, head.block)|
      && t.queue.Valid() && t.queue.Contents() == s.queue.Contents()[0 := head.(index := head.index + add)]
      && t == s.(queue := t.queue, mixer := t.mixer, delivered := s.delivered + Moved(auSample, s))
      && Busy(t.mixer) && t.mixer.req == s.mixer.req - add && t.mixer.out == s.mixer.out + Moved(auSample, s)
      && (t.mixer.Used? <==> head.index + add == auSample)
      && |Moved(auSample, s)| == add
  {
    hide Ring<PcmInfo>.Contents, Ring<PcmInfo>.Valid, Samples, Owners, Held;
    QueueWrite(s.queue, Next(auSample, s, Copy).queue.slots[s.mixer.slot]);
    assert s.queue.Contents()[0] == s.queue.slots[s.queue.readIndex];
  }

  lemma {:induction false} CopyWhole(auSample: nat, s: State)
    requires Owned(s) && Whole(auSample, s) && Enabled(auSample, s, Copy)
    requires Next(auSample, s, Copy).queue.Valid()
    ensures Whole(auSample, Next(auSample, s, Copy))
  {
    CopyEffect(auSample, s);
    hide Ring<PcmInfo>.Contents, Ring<PcmInfo>.Valid, Samples, Owned, Next, Enabled, Amount, Moved;
  }

  lemma {:induction false} CopyGapless(auSample: nat, s: State)
    requires Owned(s) && Gapless(auSample, s) && Enabled(auSample, s, Copy)
    requires Next(auSample, s, Copy).queue.Valid()
    ensures Gapless(auSample, Next(auSample, s, Copy))
  {
    CopyWhole(auSample, s);
    CopyEffect(auSample, s);
    var q, t, add := s.queue.Contents(), Next(auSample, s, Copy), Amount(auSample, s);
    assert t.delivered == s.delivered + Cut(Samples(s.pcm, q[0].block), q[0].index, add);
    hide Ring<PcmInfo>.Contents, Ring<PcmInfo>.Valid, Ring<PcmInfo>.Write, Samples, Cut, Rest, Owned, Next, Enabled,
      Amount, Moved, Whole, AfterCopy, Flatten;
    assert t.pcm == s.pcm && t.pushed == s.pushed && t.queue.Contents() == q[0 := q[0].(index := q[0].index + add)];
    CopyConserves(s.pcm, q, add, s.delivered);
  }

  lemma CopyConserves(pcm: seq<seq<Sample>>, q: seq<PcmInfo>, add: nat, delivered: seq<Sample>)
    requires q != [] && q[0].index + add <= |Samples(pcm, q[0].block)|
    ensures (delivered + Cut(Samples(pcm, q[0].block), q[0].index, add))
          + Rest(pcm, q[0 := q[0].(index := q[0].index + add)]) == delivered + Rest(pcm, q)
  {
    RestCopy(pcm, q, add);
    hide Samples, Cut, Rest;
    var data := Cut(Samples(pcm, q[0].block), q[0].index, add);
    var rest := Rest(pcm, q[0 := q[0].(index := q[0].index + add)]);
    assert (delivered + data) + rest == delivered + (data + rest);
  }

  lemma {:induction false} DecodeGapless(auSample: nat, s: State, data: seq<Sample>)
    requires Owned(s) && Gapless(auSample, s) && Enabled(auSample, s, Decode(data))
    requires Next(auSample, s, Decode(data)).queue.Valid()
    ensures Gapless(auSample, Next(auSample, s, Decode(data)))
  {
    hide Ring<PcmInfo>.Contents, Ring<PcmInfo>.Valid, Rest;
    var b, q := s.producer.block, s.queue.Contents();
    assert Owners(s, b) >= 1;
    NotQueued(s, b);
    RestOther(s.pcm, q, b, data);
  }

  lemma NotQueued(s: State, b: nat)
    requires Owned(s) && s.producer.Filling? && s.producer.block == b
    ensures b < |s.pcm| && forall i | 0 <= i < s.queue.validNum :: s.queue.Contents()[i].block != b
  {
    assert Owners(s, b) >= 1;
    forall i | 0 <= i < s.queue.validNum ensures s.queue.Contents()[i].block != b {
      assert s.queue.Contents()[i].block == QueuedBlocks(s.queue)[i];
      assert QueuedBlocks(s.queue)[i] in multiset(QueuedBlocks(s.queue));
    }
  }

  lemma {:induction false} StepKeepsGapless(auSample: nat, s: State, step: Step)
    requires auSample > 0 && Owned(s) && Gapless(auSample, s) && Enabled(auSample, s, step)
    requires Next(auSample, s, step).queue.Valid()
    ensures Gapless(auSample, Next(auSample, s, step))
  {
    hide Ring<PcmInfo>.Contents, Ring<PcmInfo>.Valid, Rest, Owned, AfterCopy, Samples;
    match step {
      case PushBlock => PushGapless(auSample, s);
      case Copy => CopyGapless(auSample, s);
      case Pop => PopGapless(auSample, s);
      case Decode(data) => DecodeGapless(auSample, s, data);
      case TakeBlock(_) | DecodeFails | GiveBack | Finish | CallBack(_) | Look(_) | LookAgain | Deliver | RequestStop =>
    }
  }

  // ---- Deliveries

  /** The samples, without padding, of the callbacks so far. */
  function Outs(log: seq<Delivery>): seq<Sample> {
    if log == [] then [] else Outs(log[..|log| - 1]) + log[|log| - 1].out
  }

  predicate Busy(m: Mixer) { m.Looking? || m.Used? || m.Popped? || m.Returned? }

  function OutNow(m: Mixer): seq<Sample> {
    if Busy(m) then m.out else []
  }

  /** What has been copied out is what the callbacks handed over, with the one under way. */
  ghost predicate Recorded(s: State) {
    s.delivered == Outs(s.log) + OutNow(s.mixer)
  }

  /** Each callback handed over what it was asked for, padded only after the queue was seen empty. */
  ghost predicate FullyServed(log: seq<Delivery>) {
    forall d <- log :: |d.out| + d.pad == d.samples && (d.pad > 0 ==> d.queueSeenEmpty)
  }

  /** Nothing is delivered before a full queue has been seen. */
  ghost predicate Prebuffered(s: State) {
    && (s.log != [] || Busy(s.mixer) || s.mixer.Ended? ==> s.ready)
    && (s.ready ==> |s.pcm| <= |s.pushed|) && s.queue.validNum <= |s.pushed|
  }

  ghost predicate Delivering(s: State) {
    && Recorded(s) && FullyServed(s.log) && Prebuffered(s)
    && (Busy(s.mixer) ==> |s.mixer.out| + s.mixer.req == s.want)
  }

  /** The stop is only asked for, and so only taken, once the producer is done. */
  ghost predicate Stopping(s: State) {
    && (s.reqStop || (s.mixer.Called? && s.mixer.stop) || s.mixer.Ended? ==> s.producer.Stopped?)
    && (s.mixer.Ended? ==> s.queue.validNum == 0)
  }

  lemma {:induction false} CopyDelivering(auSample: nat, s: State)
    requires Owned(s) && Whole(auSample, s) && Delivering(s) && Enabled(auSample, s, Copy)
    ensures Delivering(Next(auSample, s, Copy))
  {
    CopyEffect(auSample, s);
    hide Ring<PcmInfo>.Contents, Ring<PcmInfo>.Valid, Samples, Owned, Next, Enabled, Amount, Moved, Outs, Whole,
      FullyServed;
    var data := Moved(auSample, s);
    assert (Outs(s.log) + s.mixer.out) + data == Outs(s.log) + (s.mixer.out + data);
  }

  lemma OutsPush(log: seq<Delivery>, d: Delivery)
    ensures Outs(log + [d]) == Outs(log) + d.out
    ensures FullyServed(log) && |d.out| + d.pad == d.samples && (d.pad > 0 ==> d.queueSeenEmpty)
            ==> FullyServed(log + [d])
  {
    assert (log + [d])[..|log|] == log;
  }

  lemma {:induction false} DeliverEffect(auSample: nat, s: State)
    requires s.queue.Valid() && Enabled(auSample, s, Deliver)
    ensures s.mixer.Looking? && Next(auSample, s, Deliver) == s.(log := s.log + [Handed(s)], mixer := Outside)
    ensures s.mixer.req > 0 ==> Handed(s).queueSeenEmpty
  {}

  lemma {:induction false} DeliverRecorded(auSample: nat, s: State)
    requires s.queue.Valid() && Delivering(s) && Enabled(auSample, s, Deliver)
    ensures Delivering(Next(auSample, s, Deliver))
  {
    DeliverEffect(auSample, s);
    OutsPush(s.log, Handed(s));
    hide Ring<PcmInfo>.Valid, Outs, FullyServed, Next, Enabled;
    assert Outs(s.log + [Handed(s)]) + [] == s.delivered;
  }

  lemma StepKeepsPrebuffered(auSample: nat, s: State, step: Step)
    requires s.queue.Valid() && Prebuffered(s) && Enabled(auSample, s, step) && !step.Copy?
    ensures Prebuffered(Next(auSample, s, step))
  {
    hide Samples;
  }

  lemma {:induction false} StepKeepsDelivering(auSample: nat, s: State, step: Step)
    requires Owned(s) && Whole(auSample, s) && Delivering(s) && Enabled(auSample, s, step)
    ensures Delivering(Next(auSample, s, step))
  {
    assert s.queue.Valid();
    hide Ring<PcmInfo>.Contents, Ring<PcmInfo>.Valid, Samples, Owned, AfterCopy, Whole, Outs, FullyServed, Prebuffered;
    match step {
      case Copy => CopyDelivering(auSample, s);
      case Deliver => DeliverRecorded(auSample, s);
      case _ =>
        StepKeepsPrebuffered(auSample, s, step);
        assert Outs(s.log) + [] == Outs(s.log);
    }
  }

  lemma StepKeepsStopping(auSample: nat, s: State, step: Step)
    requires Owned(s) && Stopping(s) && Enabled(auSample, s, step)
    ensures Stopping(Next(auSample, s, step))
  {
    hide Ring<PcmInfo>.Contents, Samples, Cut, Owners, Held;
  }

  // ---- Runs

  ghost predicate IsRun(n: nat, auSample: nat, states: seq<State>, steps: seq<Step>) {
    && |states| == |steps| + 1 && states[0] == Init(n)
    && forall i | 0 <= i < |steps| ::
         && states[i].queue.Valid() && Enabled(auSample, states[i], steps[i])
         && states[i + 1] == Next(auSample, states[i], steps[i])
  }

  ghost predicate Inv(n: nat, auSample: nat, s: State) {
    && |s.pcm| == n && Owned(s) && Gapless(auSample, s) && Delivering(s) && Stopping(s)
  }

  lemma InitInv(n: nat, auSample: nat)
    ensures Inv(n, auSample, Init(n))
  {
    var s := Init(n);
    assert s.queue.Contents() == [] && QueuedBlocks(s.queue) == [];
    forall x: nat ensures Owners(s, x) == if x < n then 1 else 0 { IndicesOnce(n, x); }
  }

  lemma {:induction false} StepKeepsInv(n: nat, auSample: nat, s: State, step: Step)
    requires auSample > 0 && Inv(n, auSample, s) && Enabled(auSample, s, step)
    ensures Inv(n, auSample, Next(auSample, s, step))
  {
    StepKeepsOwned(auSample, s, step);
    assert Next(auSample, s, step).queue.Valid();
    hide Next, Enabled, Owners, Held, InStep, Rest, Whole, Delivering, Stopping;
    StepKeepsGapless(auSample, s, step);
    StepKeepsDelivering(auSample, s, step);
    StepKeepsStopping(auSample, s, step);
  }

  lemma {:induction false} RunKeepsInv(n: nat, auSample: nat, states: seq<State>, steps: seq<Step>, i: nat)
    requires auSample > 0 && IsRun(n, auSample, states, steps) && i < |states|
    ensures Inv(n, auSample, states[i])
  {
    hide Next, Enabled, Inv, Init, Ring<PcmInfo>.Valid;
    if i == 0 {
      InitInv(n, auSample);
    } else {
      RunKeepsInv(n, auSample, states, steps, i - 1);
      StepKeepsInv(n, auSample, states[i - 1], steps[i - 1]);
    }
  }

  /**
   In every reachable state each of the `n` blocks is held exactly once, by the pool, a thread or
   the queue; so the producer's queue push never waits and no pool push ever fails.
   */
  lemma BlocksConserved(n: nat, auSample: nat, states: seq<State>, steps: seq<Step>, i: nat)
    requires auSample > 0 && IsRun(n, auSample, states, steps) && i < |states|
    ensures var s := states[i];
      && s.queue.Valid() && (forall x: nat :: Owners(s, x) == if x < n then 1 else 0)
      && (s.producer.Filled? ==> Enabled(auSample, s, PushBlock))
      && (s.producer.Filling? || s.mixer.Popped? ==> |s.pool| < n)
  {
    hide IsRun, Owners;
    RunKeepsInv(n, auSample, states, steps, i);
  }

  /**
   From its pop until the callback has read it, the slot keeps the block that was popped,
   whatever the producer does meanwhile.
   */
  lemma SlotSafeAfterPop(n: nat, auSample: nat, states: seq<State>, steps: seq<Step>, i: nat)
    requires auSample > 0 && IsRun(n, auSample, states, steps) && i < |steps|
    requires states[i].mixer.Popped? && !steps[i].GiveBack?
    ensures states[i + 1].mixer == states[i].mixer
    ensures Head(states[i + 1].queue, states[i].mixer.slot) == Head(states[i].queue, states[i].mixer.slot)
  {
    RunKeepsInv(n, auSample, states, steps, i);
    hide Inv, Owned, Gapless, Delivering, Stopping;
    var s := states[i];
    if steps[i].PushBlock? { PoppedSafe(n, auSample, s); }
  }

  lemma {:induction false} PoppedSafe(n: nat, auSample: nat, s: State)
    requires Inv(n, auSample, s) && s.mixer.Popped? && s.queue.Valid() && Enabled(auSample, s, PushBlock)
    ensures Head(s.queue.Push(Fresh(s.producer)), s.mixer.slot) == Head(s.queue, s.mixer.slot)
  {
    PoppedSlotSafe(s, Fresh(s.producer));
  }

  /** The times that the producer has taken blocks for, in order. */
  function TakenTimes(steps: seq<Step>): seq<Timestamp> {
    if steps == [] then []
    else
      var last := |steps| - 1;
      TakenTimes(steps[..last]) + if steps[last].TakeBlock? then [steps[last].pts] else []
  }

  /** Blocks are queued with the times they were taken for, in order, and the one in hand has the last of them. */
  ghost predicate Dated(s: State, times: seq<Timestamp>)
    requires s.queue.Valid()
  {
    && var q, n := s.queue.Contents(), |s.pushed|;
       && |q| <= n <= |times| && (forall j | 0 <= j < |q| :: q[j].pts == times[n - |q| + j])
       && match s.producer
          case Idle => |times| == n
          case Filling(_, pts) => |times| == n + 1 && pts == times[n]
          case Filled(_, pts) => |times| == n + 1 && pts == times[n]
          case Stopped => true
  }

  lemma PushDated(auSample: nat, s: State, times: seq<Timestamp>)
    requires Owned(s) && Dated(s, times) && Enabled(auSample, s, PushBlock)
    requires Next(auSample, s, PushBlock).queue.Valid()
    ensures Dated(Next(auSample, s, PushBlock), times)
  {
    hide Ring<PcmInfo>.Contents, Ring<PcmInfo>.Valid, Ring<PcmInfo>.Push, Owners, Held, Samples;
    QueuePush(s.queue, Fresh(s.producer));
  }

  lemma PopDated(auSample: nat, s: State, times: seq<Timestamp>)
    requires Owned(s) && Dated(s, times) && s.mixer.Used? && Next(auSample, s, Pop).queue.Valid()
    ensures Dated(Next(auSample, s, Pop), times)
  {
    hide Ring<PcmInfo>.Contents, Ring<PcmInfo>.Valid, Ring<PcmInfo>.Pop, Owners, Held;
    QueuePop(s.queue);
  }

  lemma CopyDated(auSample: nat, s: State, times: seq<Timestamp>)
    requires Owned(s) && Whole(auSample, s) && Dated(s, times) && Enabled(auSample, s, Copy)
    requires Next(auSample, s, Copy).queue.Valid()
    ensures Dated(Next(auSample, s, Copy), times)
  {
    CopyEffect(auSample, s);
    hide Ring<PcmInfo>.Contents, Ring<PcmInfo>.Valid, Owned, Whole, Next, Enabled, Amount, Moved;
  }

  lemma {:induction false} StepKeepsDated(auSample: nat, s: State, step: Step, times: seq<Timestamp>)
    requires Owned(s) && Whole(auSample, s) && Dated(s, times) && Enabled(auSample, s, step)
    requires Next(auSample, s, step).queue.Valid()
    ensures Dated(Next(auSample, s, step), times + if step.TakeBlock? then [step.pts] else [])
  {
    hide Ring<PcmInfo>.Contents, Ring<PcmInfo>.Valid, Owned, Whole, AfterCopy, Samples;
    assert times + [] == times;
    match step {
      case PushBlock => PushDated(auSample, s, times);
      case Pop => PopDated(auSample, s, times);
      case Copy => CopyDated(auSample, s, times);
      case TakeBlock(_) | Decode(_) | DecodeFails | Finish | CallBack(_) | Look(_) | GiveBack | LookAgain | Deliver
         | RequestStop =>
    }
  }

  lemma {:induction false} RunDated(n: nat, auSample: nat, states: seq<State>, steps: seq<Step>, i: nat)
    requires auSample > 0 && IsRun(n, auSample, states, steps) && i < |states|
    ensures states[i].queue.Valid() && Dated(states[i], TakenTimes(steps[..i]))
  {
    if i == 0 {
      assert Init(n).queue.Contents() == [] && steps[..0] == [];
    } else {
      var s, step := states[i - 1], steps[i - 1];
      RunDated(n, auSample, states, steps, i - 1);
      RunKeepsInv(n, auSample, states, steps, i - 1);
      RunKeepsInv(n, auSample, states, steps, i);
      assert steps[..i][..i - 1] == steps[..i - 1];
      hide Dated, Next, Enabled, Delivering, Stopping, Rest;
      StepKeepsDated(auSample, s, step, TakenTimes(steps[..i - 1]));
    }
  }

  /**
   A block in the queue still has the time that the decoder gave for it: the times in the queue are the
   last ones but one in hand, in order. The head's is what the callback sets the clock to.
   */
  lemma BlockTimes(n: nat, auSample: nat, states: seq<State>, steps: seq<Step>, i: nat, j: nat)
    requires auSample > 0 && IsRun(n, auSample, states, steps) && i < |states|
    requires states[i].queue.Valid() && j < states[i].queue.validNum
    ensures var s, times := states[i], TakenTimes(steps[..i]);
      && s.queue.validNum <= |s.pushed| <= |times|
      && s.queue.Contents()[j].pts == times[|s.pushed| - s.queue.validNum + j]
  {
    RunDated(n, auSample, states, steps, i);
  }

  /**
   The samples handed over, without padding, are a prefix of the blocks queued, laid end to
   end: none lost, repeated or out of order.
   */
  lemma GaplessAudio(n: nat, auSample: nat, states: seq<State>, steps: seq<Step>, i: nat)
    requires auSample > 0 && IsRun(n, auSample, states, steps) && i < |states|
    ensures var s := states[i]; Outs(s.log) + OutNow(s.mixer) <= Flatten(s.pushed)
    ensures Outs(states[i].log) <= Flatten(states[i].pushed)
  {
    hide IsRun, Owned, Whole, Stopping, FullyServed, Prebuffered, Outs, Rest;
    RunKeepsInv(n, auSample, states, steps, i);
  }

  /** Each delivery is exactly as long as it was asked to be, and is padded only after the queue was seen empty. */
  lemma CallbacksFullyServed(n: nat, auSample: nat, states: seq<State>, steps: seq<Step>, i: nat, d: Delivery)
    requires auSample > 0 && IsRun(n, auSample, states, steps) && i < |states| && d in states[i].log
    ensures |d.out| + d.pad == d.samples
    ensures d.pad > 0 ==> d.queueSeenEmpty
    ensures n <= |states[i].pushed|
  {
    hide IsRun, Owned, Gapless, Stopping, Recorded;
    RunKeepsInv(n, auSample, states, steps, i);
  }

  /** When the stop is acknowledged, every sample ever queued has been handed over. */
  lemma StopAfterEverything(n: nat, auSample: nat, states: seq<State>, steps: seq<Step>, i: nat)
    requires auSample > 0 && IsRun(n, auSample, states, steps) && i < |states| && states[i].mixer.Ended?
    ensures Outs(states[i].log) == Flatten(states[i].pushed)
  {
    hide IsRun, Owned, Whole, FullyServed, Prebuffered, Outs;
    RunKeepsInv(n, auSample, states, steps, i);
    assert Rest(states[i].pcm, []) == [];
    assert Outs(states[i].log) + [] + [] == Outs(states[i].log);
  }

  lemma {:induction false} StoppedStays(auSample: nat, s: State, step: Step)
    requires s.queue.Valid() && Enabled(auSample, s, step) && s.producer.Stopped?
    ensures Next(auSample, s, step).producer.Stopped? && Next(auSample, s, step).pushed == s.pushed
  {
    hide Ring<PcmInfo>.Contents, Ring<PcmInfo>.Valid, Samples, Cut, PushIfRoom;
  }

  /** After a decoder's failure, or its end, the producer queues nothing more. */
  lemma {:induction false} FailureEndsBlocks(n: nat, auSample: nat, states: seq<State>, steps: seq<Step>,
                                             j: nat, i: nat)
    requires IsRun(n, auSample, states, steps) && j < i < |states| && (steps[j].DecodeFails? || steps[j].Finish?)
    ensures states[i].producer.Stopped? && states[i].pushed == states[j].pushed
  {
    if j + 1 < i {
      FailureEndsBlocks(n, auSample, states, steps, j, i - 1);
      StoppedStays(auSample, states[i - 1], steps[i - 1]);
    }
  }

  /** Audio of fewer blocks than the queue holds is never played, and a stop is never acknowledged. */
  lemma ShortAudioNeverPlayed(n: nat, auSample: nat, states: seq<State>, steps: seq<Step>, i: nat)
    requires auSample > 0 && IsRun(n, auSample, states, steps) && i < |states| && |states[i].pushed| < n
    ensures !states[i].ready && states[i].log == [] && !states[i].mixer.Ended?
  {
    hide IsRun, Owned, Gapless, Stopping, FullyServed, Recorded;
    RunKeepsInv(n, auSample, states, steps, i);
  }

  lemma {:induction false} StopStays(auSample: nat, s: State, step: Step)
    requires s.queue.Valid() && Enabled(auSample, s, step) && (s.reqStop || s.mixer.Ended?)
    ensures Next(auSample, s, step).reqStop || Next(auSample, s, step).mixer.Ended?
  {
    hide Ring<PcmInfo>.Contents, Ring<PcmInfo>.Valid, Samples, Cut, PushIfRoom;
  }

  lemma {:induction false} StopAsked(n: nat, auSample: nat, states: seq<State>, steps: seq<Step>, j: nat, i: nat)
    requires IsRun(n, auSample, states, steps) && j < i < |states| && steps[j].RequestStop?
    ensures states[i].reqStop || states[i].mixer.Ended?
  {
    if j + 1 < i {
      StopAsked(n, auSample, states, steps, j, i - 1);
      StopStays(auSample, states[i - 1], steps[i - 1]);
    }
  }

  /** A stop asked for is acknowledged by the next callback that finds the queue empty, with audio and video ready. */
  lemma StopIsTaken(n: nat, auSample: nat, states: seq<State>, steps: seq<Step>, j: nat, i: nat, samples: nat)
    requires auSample > 0 && IsRun(n, auSample, states, steps) && j < i < |states| && steps[j].RequestStop?
    requires var s := states[i]; s.mixer.Outside? && s.ready && s.queue.Valid() && s.queue.validNum == 0
    ensures var t := Next(auSample, states[i], CallBack(samples));
      t.queue.Valid() && Enabled(auSample, t, Look(true)) && Next(auSample, t, Look(true)).mixer.Ended?
  {
    StopAsked(n, auSample, states, steps, j, i);
    hide IsRun, Ring<PcmInfo>.Valid;
  }

  /** The copy loop ends: each copy leaves strictly fewer samples to ask for. */
  lemma CopyShrinks(n: nat, auSample: nat, states: seq<State>, steps: seq<Step>, i: nat)
    requires auSample > 0 && IsRun(n, auSample, states, steps) && i < |steps| && steps[i].Copy?
    ensures Busy(states[i + 1].mixer) && states[i + 1].mixer.req < states[i].mixer.req
  {
    RunKeepsInv(n, auSample, states, steps, i);
    CopyEffect(auSample, states[i]);
  }
}
