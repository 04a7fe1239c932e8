/**
 The mixer library's callback of amixer.c, run with no other thread between its steps: it slices
 blocks of one size into requests of another. MixerProtocol interleaves its steps with the
 producer's.
 */
module AudioMixer {
  import opened Results
  import opened Ownership
  import opened RingQueue
  import opened MemPool
  import opened MixerProtocol
  import opened Timestamps

  function Silence(n: nat): seq<Sample> { seq(n, _ => 0) }

  /** The first `n` samples of `s`, with silence behind them if it is shorter. */
  function Padded(s: seq<Sample>, n: nat): (r: seq<Sample>)
    ensures |r| == n
  {
    if n <= |s| then s[..n] else s + Silence(n - |s|)
  }

  function Dropped(s: seq<Sample>, n: nat): seq<Sample> {
    if n <= |s| then s[n..] else []
  }

  lemma PaddedAt(s: seq<Sample>, buffer: seq<Sample>)
    requires buffer == Padded(s, |buffer|)
    ensures forall k | 0 <= k < |buffer| :: buffer[k] == if k < |s| then s[k] else 0
  {}

  lemma PaddedFrom(s: seq<Sample>, n: nat, samples: nat)
    requires n <= samples && n <= |s| && (n < samples ==> s[n..] == [])
    ensures Padded(s, samples) == s[..n] + Silence(samples - n) && Dropped(s, samples) == s[n..]
  {}

  /** Every queued block is full and not used up yet. */
  ghost predicate Playable(pcm: seq<seq<Sample>>, auSample: nat, q: seq<PcmInfo>) {
    forall i | 0 <= i < |q| :: |Samples(pcm, q[i].block)| == auSample && q[i].index < auSample
  }

  /** Blocks in the pool and then in the queue, in order. */
  ghost function Line(free: seq<int>, q: seq<PcmInfo>): seq<int> {
    free + seq(|q|, i requires 0 <= i < |q| => q[i].block)
  }

  /** The next samples of the head's block, and what is left then. */
  lemma SliceSamples(pcm: seq<seq<Sample>>, auSample: nat, q: seq<PcmInfo>, add: nat)
    requires Playable(pcm, auSample, q) && q != [] && q[0].index + add <= auSample
    ensures add <= |Rest(pcm, q)|
    ensures Cut(Samples(pcm, q[0].block), q[0].index, add) == Rest(pcm, q)[..add]
    ensures Rest(pcm, q[0 := q[0].(index := q[0].index + add)]) == Rest(pcm, q)[add..]
    ensures q[0].index + add == auSample ==> Rest(pcm, q[1..]) == Rest(pcm, q)[add..]
  {
    RestCopy(pcm, q, add);
    var head := q[0].(index := q[0].index + add);
    assert |Cut(Samples(pcm, q[0].block), q[0].index, add)| == add;
    RestHead(pcm, q[0 := head]);
    assert q[0 := head][1..] == q[1..];
    if q[0].index + add == auSample {
      assert Tail(pcm, head) == [];
      assert [] + Rest(pcm, q[1..]) == Rest(pcm, q[1..]);
    }
  }

  lemma Slices(s: seq<Sample>, a: nat, b: nat)
    requires a + b <= |s|
    ensures s[..a] + s[a..][..b] == s[..a + b] && s[a..][b..] == s[a + b..]
  {}

  lemma LineMoves(free: seq<int>, q: seq<PcmInfo>, head: PcmInfo)
    requires q != [] && head.block == q[0].block
    ensures Line(free, q[0 := head]) == Line(free, q)
    ensures Line(free + [head.block], q[1..]) == Line(free, q)
  {}

  lemma PlayableMoves(pcm: seq<seq<Sample>>, auSample: nat, q: seq<PcmInfo>, index: nat)
    requires Playable(pcm, auSample, q) && q != []
    ensures q[0].index < auSample
    ensures index < auSample ==> Playable(pcm, auSample, q[0 := q[0].(index := index)])
    ensures Playable(pcm, auSample, q[1..])
  {}

  // ---- The protocol's steps, with no other thread between them

  /** The steps of the callback. */
  predicate OfCallback(step: Step) {
    || step.CallBack? || step.Look? || step.Copy? || step.Pop? || step.GiveBack? || step.LookAgain? || step.Deliver?
  }

  /** The state that a list of the callback's steps leads to, if each is enabled when its turn comes. */
  function After(auSample: nat, s: State, steps: seq<Step>): Option<State> {
    if steps == [] then Some(s)
    else
      var last := |steps| - 1;
      var t := After(auSample, s, steps[..last]);
      if t.Some? && t.value.queue.Valid() && OfCallback(steps[last]) && Enabled(auSample, t.value, steps[last])
      then Some(Next(auSample, t.value, steps[last])) else None
  }

  /** The callback's steps alone lead from `s` to `t`. */
  ghost predicate Leads(auSample: nat, s: State, t: State) {
    exists steps: seq<Step> :: After(auSample, s, steps) == Some(t)
  }

  lemma LeadsNowhere(auSample: nat, s: State)
    ensures Leads(auSample, s, s)
  {
    assert After(auSample, s, []) == Some(s);
  }

  lemma LeadsOne(auSample: nat, s: State, t: State, step: Step)
    requires Leads(auSample, s, t) && t.queue.Valid() && OfCallback(step) && Enabled(auSample, t, step)
    ensures Leads(auSample, s, Next(auSample, t, step))
  {
    var steps :| After(auSample, s, steps) == Some(t);
    assert (steps + [step])[..|steps|] == steps;
    assert After(auSample, s, steps + [step]) == Some(Next(auSample, t, step));
  }

  lemma {:induction false} AfterJoin(auSample: nat, s: State, a: seq<Step>, t: State, b: seq<Step>)
    requires After(auSample, s, a) == Some(t)
    ensures After(auSample, s, a + b) == After(auSample, t, b)
  {
    if b == [] {
      assert a + b == a;
    } else {
      var last := |b| - 1;
      AfterJoin(auSample, s, a, t, b[..last]);
      assert (a + b)[..|a + b| - 1] == a + b[..last];
    }
  }

  lemma LeadsOn(auSample: nat, s: State, t: State, u: State)
    requires Leads(auSample, s, t) && Leads(auSample, t, u)
    ensures Leads(auSample, s, u)
  {
    var a :| After(auSample, s, a) == Some(t);
    var b :| After(auSample, t, b) == Some(u);
    AfterJoin(auSample, s, a, t, b);
  }

  /** The head of the queue, with `add` of its samples counted, and where the callback then is. */
  function Copying(auSample: nat, s: State, add: nat): State
    requires s.mixer.Looking? && s.mixer.slot < |s.queue.slots| && add <= s.mixer.req
  {
    var m, head := s.mixer, s.queue.slots[s.mixer.slot];
    var data := Cut(Samples(s.pcm, head.block), head.index, add);
    s.(queue := s.queue.Write(m.slot, head.(index := head.index + add)), delivered := s.delivered + data,
       mixer := if head.index + add < auSample then Looking(m.slot, m.num, m.req - add, m.out + data)
                else Used(m.slot, m.req - add, m.out + data))
  }

  lemma CopyLeads(auSample: nat, s: State, add: nat)
    requires s.queue.Valid() && Enabled(auSample, s, Copy) && s.queue.slots[s.mixer.slot].index < auSample
    requires var left := auSample - s.queue.slots[s.mixer.slot].index;
      add == if left > s.mixer.req then s.mixer.req else left
    ensures Leads(auSample, s, Copying(auSample, s, add))
  {
    hide Samples, Cut, Leads;
    LeadsNowhere(auSample, s);
    LeadsOne(auSample, s, s, Copy);
  }

  /** The used-up head leaves the queue, its block goes back to the pool, and the queue is looked at again. */
  function Releasing(s: State): State
    requires s.mixer.Used? && s.queue.Valid()
  {
    var q, m := s.queue.Pop(), s.mixer;
    s.(queue := q, pool := PushIfRoom(s.pool, |s.pcm|, MixerProtocol.Head(q, m.slot).block),
       mixer := Looking(q.readIndex, q.validNum, m.req, m.out))
  }

  lemma ReleaseLeads(auSample: nat, s: State)
    requires s.mixer.Used? && s.queue.Valid() && s.queue.Pop().Valid()
    ensures Leads(auSample, s, Releasing(s))
  {
    hide Leads, Ring<PcmInfo>.Valid, Ring<PcmInfo>.Pop, PushIfRoom, MixerProtocol.Head;
    var t := Next(auSample, s, Pop);
    var u := Next(auSample, t, GiveBack);
    LeadsNowhere(auSample, s);
    LeadsOne(auSample, s, s, Pop);
    LeadsOne(auSample, s, t, GiveBack);
    LeadsOne(auSample, s, u, LookAgain);
  }

  /** A callback asked for `samples` has looked at the queue for the first time. */
  function Looked(s: State, samples: nat, videoReady: bool): State {
    AfterLook(s.(mixer := Called(s.reqStop), want := samples), videoReady)
  }

  /** What the first look comes to: samples to hand over, the stop acknowledged, or nothing. */
  lemma LookEffect(s: State, samples: nat, videoReady: bool)
    requires s.mixer.Outside?
    ensures var t, num := Looked(s, samples, videoReady), s.queue.validNum;
      var seen := videoReady && t.ready;
      && t.ready == (s.ready || num >= |s.pcm|)
      && t == s.(ready := t.ready, reqStop := t.reqStop, want := samples, mixer := t.mixer)
      && t.mixer == (if seen && num > 0 then Looking(s.queue.readIndex, num, samples, [])
                     else if seen && s.reqStop then Ended else Outside)
      && t.reqStop == (s.reqStop && !t.mixer.Ended?)
  {}

  lemma LookLeads(auSample: nat, s: State, samples: nat, videoReady: bool)
    requires s.queue.Valid() && s.mixer.Outside?
    ensures Leads(auSample, s, Looked(s, samples, videoReady))
  {
    hide Leads, Ring<PcmInfo>.Valid, AfterLook;
    LeadsNowhere(auSample, s);
    LeadsOne(auSample, s, s, CallBack(samples));
    LeadsOne(auSample, s, Next(auSample, s, CallBack(samples)), Look(videoReady));
  }

  lemma DeliverLeads(auSample: nat, s: State, t: State)
    requires Leads(auSample, s, t) && t.queue.Valid()
    requires t.mixer.Looking? && (t.mixer.req == 0 || t.mixer.num == 0)
    ensures Leads(auSample, s, t.(log := t.log + [Handed(t)], mixer := Outside))
  {
    LeadsOne(auSample, s, t, Deliver);
  }

  /** Between `s` and `t` one callback handed over the samples in `buffer`. */
  ghost predicate HandsOver(s: State, t: State, samples: nat, buffer: seq<Sample>) {
    && |t.log| == |s.log| + 1 && t.log[..|s.log|] == s.log
    && t.log[|s.log|].samples == samples
    && buffer == t.log[|s.log|].out + Silence(t.log[|s.log|].pad)
  }

  lemma DeliveryHands(s: State, t: State, buffer: seq<Sample>)
    requires t.log == s.log && t.mixer.Looking? && buffer == t.mixer.out + Silence(t.mixer.req)
    ensures HandsOver(s, t.(log := t.log + [Handed(t)], mixer := Outside), t.want, buffer)
  {
    hide Silence;
  }

  class SAmixerCtlInfo {
    const auSample: nat
    const pcmNum: nat
    const pcm: array<seq<Sample>>           // what each block holds
    const queue: UtilQueue<PcmInfo>
    const pool: UtilMemPool
    const pMixerBuffer: array<Sample>
    var bSequence: bool
    var bReqStop: bool
    var audioReady: bool                    // STATUS_READY and STATUS_END of the audio
    var audioEnd: bool
    var lastPts: Timestamp
    var ptsAudio: Timestamp                 // as given to the synchronisation by avsyncSetApts

    constructor (auSample: nat, pcmNum: nat, pcm: array<seq<Sample>>, queue: UtilQueue<PcmInfo>, pool: UtilMemPool,
                 mixerBuffer: array<Sample>)
      ensures this.auSample == auSample && this.pcmNum == pcmNum && this.pcm == pcm
      ensures this.queue == queue && this.pool == pool && pMixerBuffer == mixerBuffer
      ensures bSequence && !bReqStop && !audioReady && !audioEnd
    {
      this.auSample, this.pcmNum, this.pcm := auSample, pcmNum, pcm;
      this.queue, this.pool, pMixerBuffer := queue, pool, mixerBuffer;
      bSequence, bReqStop, audioReady, audioEnd := true, false, false, false;
      lastPts, ptsAudio := Timestamp(0, 0), Timestamp(0, 0);
    }

    /** The queue and the pool work and have room for each other's blocks. */
    ghost predicate Valid()
      reads queue, queue.queueArray, pool, pool.memArray, pcm
    {
      && queue.Valid() && pool.Valid() && queue.validNum + pool.validNum <= pool.size
      && pMixerBuffer != pool.memArray
      && Playable(pcm[..], auSample, Queued())
    }

    ghost function Queued(): seq<PcmInfo>
      reads queue, queue.queueArray
      requires queue.Valid()
    {
      queue.State().Contents()
    }

    ghost function Free(): seq<int>
      reads pool, pool.memArray
      requires pool.Valid()
    {
      pool.State().Free()
    }

    ghost function Left(): seq<Sample>
      reads queue, queue.queueArray, pcm
      requires queue.Valid()
    {
      Rest(pcm[..], Queued())
    }

    /** The object's fields are those that the callback sees in state `s` of the protocol. */
    ghost predicate Shows(s: State)
      reads this, queue, queue.queueArray, pool, pool.memArray, pcm
    {
      && Valid() && pcmNum == pool.size == |s.pcm| && pcm[..] == s.pcm
      && queue.State() == s.queue && Free() == s.pool
      && audioReady == s.ready && bReqStop == s.reqStop && bSequence == !s.mixer.Ended?
    }

    method IncrementAudioPts()
      modifies `lastPts, `ptsAudio
      ensures lastPts == ptsAudio == Increment(old(lastPts))
    {
      var lower: uint32 := (lastPts.lower as int + AMIXER_CB_INCR_CLOCKS) % WORD;
      var upper: uint32 := lastPts.upper;
      if lower < lastPts.lower {
        upper := (upper as int + 1) % 2;
      }
      var pts := Timestamp(upper, lower);
      ptsAudio := pts;
      lastPts := pts;
    }

    /** Copies samples of the head's block behind the first `at` of the buffer, and counts them in place. */
    method CopyHead(slot: nat, at: nat, req: nat) returns (add: nat)
      requires Valid() && queue.validNum > 0 && slot == queue.readIndex && at + req <= pMixerBuffer.Length
      modifies queue.queueArray, pMixerBuffer
      ensures queue.Valid() && slot < queue.queueArray.Length && queue.queueArray[slot] == Queued()[0]
      ensures old(queue.queueArray[slot]) == old(Queued())[0]
      ensures var head := old(Queued())[0];
        && add == (if auSample - head.index > req then req else auSample - head.index)
        && queue.State() == old(queue.State()).Write(slot, head.(index := head.index + add))
        && Queued() == old(Queued())[0 := head.(index := head.index + add)]
        && pMixerBuffer[..at + add] == old(pMixerBuffer[..at]) + Cut(Samples(pcm[..], head.block), head.index, add)
    {
      var head := queue.queueArray[slot];
      ghost var r := queue.State();
      assert head == r.Contents()[0];
      add := auSample - head.index;
      if add > req {
        add := req;
      }
      var data := Cut(Samples(pcm[..], head.block), head.index, add);
      forall k | 0 <= k < add { pMixerBuffer[at + k] := data[k]; }
      WriteHead(r, head.(index := head.index + add));
      queue.queueArray[slot] := head.(index := head.index + add);
      assert queue.State() == r.Write(slot, head.(index := head.index + add));
    }

    /** Pops the used-up head and gives its block back, as named by the slot it was in. */
    method ReleaseHead(slot: nat)
      requires queue.Valid() && pool.Valid() && queue.validNum + pool.validNum <= pool.size
      requires queue.validNum > 0 && slot == queue.readIndex
      modifies queue, pool, pool.memArray
      ensures queue.Valid() && pool.Valid() && queue.validNum + pool.validNum <= pool.size
      ensures queue.State() == old(queue.State()).Pop() && Queued() == old(Queued())[1..]
      ensures old(pool.validNum) < pool.size && Free() == old(Free()) + [old(Queued())[0].block]
    {
      assert queue.queueArray[slot] == Queued()[0];
      var popped := queue.Pop(false);
      MemPool.PoolPush(pool.State(), queue.queueArray[slot].block);
      var ok := pool.Push(queue.queueArray[slot].block);
    }

    /** One turn of the copy loop: a Copy of the protocol and, if that used the head up, the release of its block. */
    method SliceHead(slot: nat, at: nat, req: nat, ghost s: State)
      returns (add: nat, popped: bool, ghost t: State)
      requires Shows(s) && queue.validNum > 0 && slot == queue.readIndex && 0 < req && at + req <= pMixerBuffer.Length
      requires s.mixer.Looking? && s.mixer == Looking(slot, queue.validNum, req, s.mixer.out)
      modifies queue, queue.queueArray, pool, pool.memArray, pMixerBuffer
      ensures Valid() && 0 < add <= req && add <= |old(Left())|
      ensures pMixerBuffer[..at + add] == old(pMixerBuffer[..at]) + old(Left())[..add]
      ensures Left() == old(Left())[add..]
      ensures Line(Free(), Queued()) == old(Line(Free(), Queued()))
      ensures !popped ==> slot == queue.readIndex && queue.validNum == old(queue.validNum)
      ensures Leads(auSample, s, t) && Shows(t) && t.log == s.log && t.want == s.want
      ensures t.mixer == Looking(queue.readIndex, queue.validNum, req - add, s.mixer.out + old(Left())[..add])
    {
      hide Rest, Playable, Line, Samples, Cut, Ring<PcmInfo>.Contents, Ring<PcmInfo>.Valid, Ring<PcmInfo>.Pop, Leads;
      ghost var q, free := Queued(), Free();
      PlayableMoves(pcm[..], auSample, q, 0);
      add := CopyHead(slot, at, req);
      SliceSamples(pcm[..], auSample, q, add);
      LineMoves(free, q, Queued()[0]);
      PlayableMoves(pcm[..], auSample, q, Queued()[0].index);
      t := Copying(auSample, s, add);
      CopyLeads(auSample, s, add);
      popped := queue.queueArray[slot].index >= auSample;
      if popped {
        ReleaseHead(slot);
        ReleaseLeads(auSample, t);
        LeadsOn(auSample, s, t, Releasing(t));
        t := Releasing(t);
      }
    }

    /**
     The callback has copied `done` of the samples asked for, the next ones of `left`, and the object
     shows the state `t` that the protocol's steps have led to from `s`; `line` is the blocks' order.
     */
    ghost predicate Copied(left: seq<Sample>, line: seq<int>, samples: nat, done: nat,
                           s: State, t: State)
      reads this, queue, queue.queueArray, pool, pool.memArray, pcm, pMixerBuffer
    {
      && Shows(t) && Line(Free(), Queued()) == line && done <= samples <= pMixerBuffer.Length && done <= |left|
      && pMixerBuffer[..done] == left[..done] && Left() == left[done..]
      && Leads(auSample, s, t) && t.log == s.log && t.want == s.want
      && t.mixer == Looking(queue.readIndex, queue.validNum, samples - done, left[..done])
    }

    /** The callback has copied `done` samples, by steps of the protocol from `s` on. */
    ghost predicate Underway(left: seq<Sample>, line: seq<int>, samples: nat, done: nat, s: State)
      reads this, queue, queue.queueArray, pool, pool.memArray, pcm, pMixerBuffer
    {
      exists t: State :: Copied(left, line, samples, done, s, t)
    }

    method SliceNext(slot: nat, samples: nat, done: nat, ghost left: seq<Sample>, ghost line: seq<int>, ghost s: State)
      returns (add: nat, popped: bool)
      requires Underway(left, line, samples, done, s)
      requires done < samples && queue.validNum > 0 && slot == queue.readIndex
      modifies queue, queue.queueArray, pool, pool.memArray, pMixerBuffer
      ensures 0 < add <= samples - done && queue.Valid() && Underway(left, line, samples, done + add, s)
      ensures !popped ==> slot == queue.readIndex && queue.validNum == old(queue.validNum)
    {
      ghost var now: State :| Copied(left, line, samples, done, s, now);
      hide Playable, Line, Samples, Rest, Leads, Ring<PcmInfo>.Contents, Ring<PcmInfo>.Valid;
      ghost var t;
      add, popped, t := SliceHead(slot, done, samples - done, now);
      LeadsOn(auSample, s, now, t);
      Slices(left, done, add);
      assert Copied(left, line, samples, done + add, s, t);
    }

    lemma UnderwayAtFirst(samples: nat, s: State)
      requires Shows(s) && samples <= pMixerBuffer.Length
      requires s.mixer == Looking(queue.readIndex, queue.validNum, samples, [])
      ensures Underway(Left(), Line(Free(), Queued()), samples, 0, s)
    {
      LeadsNowhere(auSample, s);
      assert Copied(Left(), Line(Free(), Queued()), samples, 0, s, s);
    }

    /** The copy loop: fills the buffer as far as the queue goes. */
    method CopyLoop(samples: nat, ghost left: seq<Sample>, ghost line: seq<int>, ghost s: State)
      returns (bufferIndex: nat)
      requires Underway(left, line, samples, 0, s) && queue.Valid()
      modifies queue, queue.queueArray, pool, pool.memArray, pMixerBuffer
      ensures Underway(left, line, samples, bufferIndex, s)
      ensures bufferIndex < samples ==> queue.validNum == 0
    {
      hide *;
      bufferIndex := 0;
      var reqSample := samples;
      var slot, queuePcmNum := queue.Peek();
      while reqSample > 0 && queuePcmNum > 0
        invariant bufferIndex + reqSample == samples && Underway(left, line, samples, bufferIndex, s)
        invariant queuePcmNum == queue.validNum && (queuePcmNum > 0 ==> slot == Some(queue.readIndex))
        decreases reqSample
      {
        var add, popped := SliceNext(slot.value, samples, bufferIndex, left, line, s);
        bufferIndex := bufferIndex + add;
        reqSample := reqSample - add;
        if popped {
          slot, queuePcmNum := queue.Peek();
        }
      }
    }

    lemma NothingLeft()
      requires queue.Valid() && queue.validNum == 0
      ensures Left() == []
    {}

    /** A delivery changes nothing that the object shows. */
    lemma StillShows(s: State)
      requires Shows(s) && s.mixer.Looking?
      ensures s.queue.Valid() && Shows(s.(log := s.log + [Handed(s)], mixer := Outside))
    {}

    /** Silence behind the first `from` samples of the buffer. */
    method PadSilence(from: nat, samples: nat)
      requires from <= samples <= pMixerBuffer.Length
      modifies pMixerBuffer
      ensures pMixerBuffer[..samples] == old(pMixerBuffer[..from]) + Silence(samples - from)
    {
      forall k | from <= k < samples { pMixerBuffer[k] := 0; }
    }

    /** The end of a callback that has copied `done` samples: silence behind them, and the delivery. */
    method HandOver(samples: nat, done: nat, ghost left: seq<Sample>, ghost line: seq<int>, ghost s: State)
      returns (ghost t: State)
      requires Underway(left, line, samples, done, s) && (done < samples ==> queue.validNum == 0)
      modifies pMixerBuffer
      ensures Valid() && Line(Free(), Queued()) == line && samples <= pMixerBuffer.Length
      ensures pMixerBuffer[..samples] == Padded(left, samples) && Left() == Dropped(left, samples)
      ensures Leads(auSample, s, t) && Shows(t) && t.mixer.Outside?
      ensures HandsOver(s, t, s.want, pMixerBuffer[..samples])
    {
      ghost var now: State :| Copied(left, line, samples, done, s, now);
      StillShows(now);
      DeliverLeads(auSample, s, now);
      if done < samples { NothingLeft(); }
      PaddedFrom(left, done, samples);
      hide Shows, Playable, Line, Rest, Leads, Padded, Dropped, Silence, Ring<PcmInfo>.Contents, Ring<PcmInfo>.Valid;
      PadSilence(done, samples);
      DeliveryHands(s, now, pMixerBuffer[..samples]);
      hide HandsOver, Handed;
      t := now.(log := now.log + [Handed(now)], mixer := Outside);
    }

    /**
     Fills the buffer with the next samples of the queue, and with silence once the queue is empty:
     the protocol's copy steps and the delivery.
     */
    method FillBuffer(samples: nat, ghost s: State) returns (ghost t: State)
      requires Shows(s) && queue.validNum > 0 && samples <= pMixerBuffer.Length
      requires s.mixer == Looking(queue.readIndex, queue.validNum, samples, []) && s.want == samples
      modifies queue, queue.queueArray, pool, pool.memArray, pMixerBuffer
      ensures Valid() && Line(Free(), Queued()) == old(Line(Free(), Queued()))
      ensures pMixerBuffer[..samples] == Padded(old(Left()), samples)
      ensures Left() == Dropped(old(Left()), samples)
      ensures Leads(auSample, s, t) && Shows(t) && t.mixer.Outside?
      ensures HandsOver(s, t, samples, pMixerBuffer[..samples])
    {
      ghost var left, line := Left(), Line(Free(), Queued());
      UnderwayAtFirst(samples, s);
      hide *;
      var bufferIndex := CopyLoop(samples, left, line, s);
      t := HandOver(samples, bufferIndex, left, line, s);
    }

    /** The first look at the queue, by a callback asked for `samples`: whether it has any to hand over. */
    method LookFirst(samples: nat, videoReady: bool, ghost s: State) returns (serve: bool)
      requires Shows(s) && s.mixer.Outside?
      modifies `bSequence, `bReqStop, `audioReady, `audioEnd, `lastPts, `ptsAudio
      ensures Shows(Looked(s, samples, videoReady))
      ensures serve == (videoReady && audioReady && queue.validNum > 0)
      ensures audioReady == (old(audioReady) || queue.validNum >= pcmNum)
      ensures var stopped := videoReady && audioReady && queue.validNum == 0 && old(bReqStop);
        && bSequence == !stopped && bReqStop == (old(bReqStop) && !stopped) && audioEnd == (old(audioEnd) || stopped)
        && (!serve ==> lastPts == if stopped then Increment(old(lastPts)) else old(lastPts))
      ensures serve ==> lastPts == ptsAudio == Queued()[0].pts
    {
      LookEffect(s, samples, videoReady);
      hide Looked, Playable, Increment, Ring<PcmInfo>.Contents, Ring<PcmInfo>.Valid;
      var slot, queuePcmNum := queue.Peek();
      serve := false;
      if !audioReady && queuePcmNum >= pcmNum {
        audioReady := true;
      }
      if !videoReady || !audioReady {
        return;
      }
      if queuePcmNum == 0 {
        if bReqStop {
          bSequence := false;
          bReqStop := false;
          audioEnd := true;
          IncrementAudioPts();
        }
        return;
      }
      ptsAudio := queue.queueArray[slot.value].pts;
      lastPts := ptsAudio;
      serve := true;
    }

    /**
     The callback: the protocol's steps from its call to its end. `videoReady` is STATUS_READY of
     the video.
     */
    method AmixerCb(samples: nat, videoReady: bool, ghost s: State) returns (ret: int, ghost t: State)
      requires Shows(s) && (s.mixer.Outside? || s.mixer.Ended?) && samples <= pMixerBuffer.Length
      modifies this, queue, queue.queueArray, pool, pool.memArray, pMixerBuffer
      ensures Valid() && Line(Free(), Queued()) == old(Line(Free(), Queued()))
      ensures audioReady == (old(audioReady) || (old(bSequence) && old(queue.validNum) >= pcmNum))
      ensures ret == 0 <==> old(bSequence) && videoReady && audioReady && old(queue.validNum) > 0
      ensures ret == 0 ==>
        && pMixerBuffer[..samples] == Padded(old(Left()), samples) && Left() == Dropped(old(Left()), samples)
        && lastPts == ptsAudio == old(Queued())[0].pts
      ensures ret == 0 ==> forall k | 0 <= k < samples ::
        pMixerBuffer[k] == if k < |old(Left())| then old(Left())[k] else 0
      ensures ret != 0 ==> ret == 1 && Queued() == old(Queued()) && pMixerBuffer[..] == old(pMixerBuffer[..])
      ensures var stopped := old(bSequence) && videoReady && audioReady && old(queue.validNum) == 0 && old(bReqStop);
        && bSequence == (old(bSequence) && !stopped) && bReqStop == (old(bReqStop) && !stopped)
        && audioEnd == (old(audioEnd) || stopped)
        && (ret != 0 ==>
            lastPts == if stopped || (!old(bSequence) && audioEnd) then Increment(old(lastPts)) else old(lastPts))
      ensures Leads(auSample, s, t) && Shows(t) && (t.mixer.Outside? || t.mixer.Ended?)
      ensures if ret == 0 then HandsOver(s, t, samples, pMixerBuffer[..samples]) else t.log == s.log
    {
      LeadsNowhere(auSample, s);
      hide Playable, Line, Rest, Increment, Padded, Dropped, Leads;
      ret, t := 1, s;
      if !bSequence {
        if audioEnd {
          IncrementAudioPts();
        }
        return;
      }
      t := Looked(s, samples, videoReady);
      LookLeads(auSample, s, samples, videoReady);
      var serve := LookFirst(samples, videoReady, s);
      if serve {
        ret := 0;
        ghost var looked := t;
        ghost var left := Left();
        t := FillBuffer(samples, looked);
        PaddedAt(left, pMixerBuffer[..samples]);
        LeadsOn(auSample, s, looked, t);
      }
    }
  }
}
