/**
 The display thread of vdisp.c, updating its queue and pool in place: the drains at its start and
 end and one round of its loop, each run with no other thread between its steps. DisplayProtocol
 interleaves these steps with the post-processor's.
 */
module VideoDisplay {
  import opened Results
  import opened RingQueue
  import opened MemPool
  import opened DisplayProtocol

  class SVdispCtlInfo {
    const frameNum: nat
    const queue: UtilQueue<FrameInfo>
    const pool: UtilMemPool
    var last: Option<nat>         // lastFrameInfo.pFrame
    var bPicOut: bool             // threadStatus
    var bSequence: bool
    var videoReady: bool          // STATUS_READY and STATUS_END of the video
    var videoEnd: bool
    ghost var drawn: seq<nat>     // frames drawn so far

    constructor (frameNum: nat, queue: UtilQueue<FrameInfo>, pool: UtilMemPool)
      ensures this.frameNum == frameNum && this.queue == queue && this.pool == pool
      ensures last == None && !bPicOut && bSequence && !videoReady && !videoEnd && drawn == []
    {
      this.frameNum, this.queue, this.pool := frameNum, queue, pool;
      last := None;
      bPicOut, bSequence, videoReady, videoEnd := false, true, false, false;
      drawn := [];
    }

    ghost function Queued(): seq<FrameInfo>
      reads queue, queue.queueArray
      requires queue.Valid()
    {
      queue.State().Contents()
    }

    ghost function Free(): seq<int>
      reads pool, pool.memArray
      requires pool.Valid()
    {
      pool.State().Free()
    }

    /** The pool has room for every frame that is out of it. */
    ghost predicate Valid()
      reads `last, queue, queue.queueArray, pool, pool.memArray
    {
      && queue.Valid() && pool.Valid()
      && queue.validNum + pool.validNum + |LastFrame(last)| <= pool.size
    }

    method GiveBack(frame: nat)
      requires pool.Valid() && pool.validNum < pool.size
      modifies pool, pool.memArray
      ensures pool.Valid() && Free() == old(Free()) + [frame] && pool.validNum == old(pool.validNum) + 1
    {
      MemPool.PoolPush(pool.State(), frame);
      var ok := pool.Push(frame);
    }

    /** Moves the head of the queue to the pool. */
    method DrainHead()
      requires Valid() && last == None && queue.validNum > 0
      modifies queue, pool, pool.memArray
      ensures Valid() && Queued() == old(Queued())[1..]
      ensures Free() == old(Free()) + [old(Queued())[0].frame]
    {
      var info := queue.Pop(false);
      GiveBack(info.value.frame);
    }

    /** Returns every queued frame to the pool. */
    method DrainQueue()
      requires Valid() && last == None
      modifies queue, pool, pool.memArray
      ensures Valid() && Queued() == [] && Free() == old(Free()) + Ints(Frames(old(Queued())))
    {
      hide Frames, Ints, Ring<FrameInfo>.Contents, Ring<FrameInfo>.Valid, Ring<FrameInfo>.Pop;
      ghost var free, q := Free(), Queued();
      ghost var done := 0;
      IntsTake(q, 0);
      while queue.validNum > 0
        invariant Valid() && done <= |q| && Queued() == q[done..]
        invariant Free() == free + Ints(Frames(q[..done]))
        decreases queue.validNum
      {
        IntsTake(q, done);
        assert q[done..][0] == q[done] && q[done..][1..] == q[done + 1..];
        DrainHead();
        done := done + 1;
      }
      assert q[..done] == q;
    }

    /** Gives the last frame back and makes the head the last frame. */
    method TakeHead()
      requires Valid() && queue.validNum > 0
      modifies `last, queue, pool, pool.memArray
      ensures Valid() && Queued() == old(Queued())[1..] && last == Some(old(Queued())[0].frame)
      ensures Free() == old(Free()) + if old(last).Some? then [old(last).value] else []
    {
      if last.Some? {
        GiveBack(last.value);
      }
      last := None;
      var info := queue.Pop(false);
      last := Some(info.value.frame);
    }

    method DrawTexture(frame: nat)
      modifies `drawn
      ensures drawn == old(drawn) + [frame]
    {
      drawn := drawn + [frame];
    }

    /** Shows the head; once it has been shown as often as it was to be, it becomes the last frame. */
    method ShowHead()
      requires Valid() && queue.validNum > 0
      modifies `last, `drawn, queue, queue.queueArray, pool, pool.memArray
      ensures Valid()
      ensures var head := old(Queued())[0];
        && drawn == old(drawn) + [head.frame]
        && if head.prsnNum <= 1 then
             && Queued() == old(Queued())[1..] && last == Some(head.frame)
             && Free() == old(Free()) + (if old(last).Some? then [old(last).value] else [])
           else
             && Queued() == old(Queued())[0 := FrameInfo(head.frame, head.prsnNum - 1, false)] && last == old(last)
             && Free() == old(Free())
    {
      var slot, count := queue.Peek();
      var head := queue.queueArray[slot.value];
      DrawTexture(head.frame);
      EditHead(slot.value, FrameInfo(head.frame, head.prsnNum - 1, false));
      if head.prsnNum - 1 < 1 {
        TakeHead();
      }
    }

    /** Writes to the head of the queue through the pointer that a peek gave. */
    method EditHead(slot: nat, info: FrameInfo)
      requires queue.Valid() && queue.validNum > 0 && slot == queue.readIndex
      modifies queue.queueArray
      ensures queue.Valid() && Queued() == old(Queued())[0 := info]
    {
      ghost var r := queue.State();
      WriteHead(r, info);
      queue.queueArray[slot] := info;
      assert queue.State() == r.Write(slot, info);
    }

    method RedrawLast()
      modifies `drawn
      ensures drawn == old(drawn) + LastFrame(last)
    {
      if last.Some? {
        DrawTexture(last.value);
      }
    }

    /** The object's fields are those that the display thread sees in state `s` of the protocol. */
    ghost predicate Shows(s: State)
      reads this, queue, queue.queueArray, pool, pool.memArray
    {
      && Valid() && frameNum == pool.size == s.size
      && Queued() == s.queue && Free() == Ints(s.pool) && last == s.last
      && bPicOut == s.myPicOut && bSequence == s.mySequence && videoReady == s.videoReady && videoEnd == s.videoEnd
    }

    /** What the synchronisation's verdict says is done with the head. */
    method PresentHead(avsyncVdispMode: Mode)
      requires Valid() && queue.validNum > 0
      modifies `last, `drawn, queue, queue.queueArray, pool, pool.memArray
      ensures Valid()
      ensures avsyncVdispMode == Wait ==>
        && Queued() == old(Queued()) && last == old(last) && Free() == old(Free())
        && drawn == old(drawn) + if last.Some? then [last.value] else []
      ensures avsyncVdispMode == Skip ==>
        && Queued() == old(Queued())[1..] && last == Some(old(Queued())[0].frame) && drawn == old(drawn)
        && Free() == old(Free()) + if old(last).Some? then [old(last).value] else []
      ensures avsyncVdispMode == Normal ==>
        var head := old(Queued())[0];
        && drawn == old(drawn) + [head.frame]
        && if head.prsnNum <= 1 then
             && Queued() == old(Queued())[1..] && last == Some(head.frame)
             && Free() == old(Free()) + (if old(last).Some? then [old(last).value] else [])
           else
             && Queued() == old(Queued())[0 := FrameInfo(head.frame, head.prsnNum - 1, false)] && last == old(last)
             && Free() == old(Free())
    {
      hide Ring<FrameInfo>.Contents, Ring<FrameInfo>.Valid, Ring<FrameInfo>.Push, Ring<FrameInfo>.Pop;
      match avsyncVdispMode {
        case Normal => ShowHead();
        case Wait => RedrawLast();
        case Skip => TakeHead();
      }
    }

    /** The same, as the protocol says it. */
    method PresentShown(avsyncVdispMode: Mode, ghost s: State)
      requires Shows(s) && s.queue != []
      modifies `last, `drawn, queue, queue.queueArray, pool, pool.memArray
      ensures Shows(Settled(Present(s, avsyncVdispMode))) && Settled(Present(s, avsyncVdispMode)).display.Waiting?
      ensures drawn == old(drawn) +
        match avsyncVdispMode case Normal => [s.queue[0].frame] case Wait => LastFrame(s.last) case Skip => []
    {
      RoomShown(s);
      PresentOutcome(s, avsyncVdispMode);
      hide Settled, Present, Ints, Ring<FrameInfo>.Contents, Ring<FrameInfo>.Valid;
      PresentHead(avsyncVdispMode);
    }

    lemma RoomShown(s: State)
      requires Shows(s)
      ensures |s.queue| + |s.pool| + |LastFrame(s.last)| <= s.size
    {}

    /** Until a full queue has been seen, the thread goes back to waiting. */
    method CheckStatus(ghost s: State)
      requires Shows(s) && s.display.Awake?
      modifies `videoReady, `bPicOut
      ensures Shows(Next(s, CheckReady))
    {
      if !videoReady {
        var slot, queueFrameNum := queue.Peek();
        if queueFrameNum >= frameNum {
          videoReady := true;
        } else {
          bPicOut := false;
        }
      }
    }

    /** With no frame to show, the last one stays; at the end of the sequence that ends the thread. */
    method StayOnLast() returns (ended: bool)
      modifies `bPicOut, `videoEnd, `drawn
      ensures !bPicOut && ended == !bSequence && videoEnd == (old(videoEnd) || ended)
      ensures drawn == old(drawn) + LastFrame(last)
    {
      bPicOut := false;
      RedrawLast();
      ended := !bSequence;
      if ended {
        videoEnd := true;
      }
    }

    /** With a picture due, the head of the queue is presented, or the last one stays if there is none. */
    method Picture(mode: Mode, ghost s: State) returns (ended: bool)
      requires Shows(s) && s.display.Checked? && bPicOut && videoReady
      modifies this, queue, queue.queueArray, pool, pool.memArray
      ensures var t := Settled(Next(s, Decide(true, mode))); Shows(t) && ended == t.display.Ending?
      ensures drawn == old(drawn) + DrawnIn(s, true, mode)
    {
      DecideEffect(s, true, mode);
      hide Ints, Settled, Present, Next, Ring<FrameInfo>.Contents, Ring<FrameInfo>.Valid;
      ended := false;
      var slot, queueFrameNum := queue.Peek();
      if queueFrameNum == 0 {
        ended := StayOnLast();
      } else {
        PresentShown(if queue.queueArray[slot.value].bPtsValid then mode else Normal, s);
      }
    }

    /** The part of a round that decides what is shown. */
    method Decision(audioReady: bool, mode: Mode, ghost s: State) returns (ended: bool)
      requires Shows(s) && s.display.Checked?
      modifies this, queue, queue.queueArray, pool, pool.memArray
      ensures var t := Settled(Next(s, Decide(audioReady, mode))); Shows(t) && ended == t.display.Ending?
      ensures drawn == old(drawn) + DrawnIn(s, audioReady, mode)
    {
      DecideEffect(s, audioReady, mode);
      ended := false;
      if bPicOut && videoReady && audioReady {
        hide Settled, DrawnIn, Next;
        ended := Picture(mode, s);
      }
    }

    /** One round of the thread's loop, past its wait: it does what the protocol's steps do. */
    method Round(audioReady: bool, mode: Mode, ghost s: State) returns (ended: bool)
      requires Shows(s) && s.display.Awake?
      modifies this, queue, queue.queueArray, pool, pool.memArray
      ensures Shows(AfterRound(s, audioReady, mode)) && ended == AfterRound(s, audioReady, mode).display.Ending?
      ensures drawn == old(drawn) + DrawnIn(Next(s, CheckReady), audioReady, mode)
    {
      CheckStatus(s);
      assert Next(s, CheckReady).display.Checked?;
      hide Shows, Settled, DrawnIn, Next;
      ended := Decision(audioReady, mode, Next(s, CheckReady));
    }

    /** What the thread does on its way out: every frame it knows of is back in the pool. */
    method Finish()
      requires Valid()
      modifies this, queue, queue.queueArray, pool, pool.memArray
      ensures Valid() && last == None && Queued() == []
      ensures Free() == old(Free()) + Ints(LastFrame(old(last))) + Ints(Frames(old(Queued())))
    {
      hide Frames;
      if last.Some? {
        GiveBack(last.value);
      }
      last := None;
      DrainQueue();
    }
  }

  /** The protocol's steps that make up a round with no other thread between them. */
  function AfterRound(s: State, audioReady: bool, mode: Mode): State
    requires s.display.Awake?
  {
    var t := Next(Next(s, CheckReady), Decide(audioReady, mode));
    Settled(t)
  }

  /** A frame that is to leave is taken off the queue. */
  function Settled(t: State): (u: State)
    ensures !t.display.Leaving? ==> u == t
  {
    if t.display.Leaving? then Next(Next(t, ReturnLast), PopHead) else t
  }

  /** What a decision comes to, case by case. */
  lemma DecideEffect(s: State, audioReady: bool, mode: Mode)
    requires s.display.Checked?
    ensures var t := Next(s, Decide(audioReady, mode));
      if !(s.myPicOut && s.videoReady && audioReady) then Settled(t) == s.(display := Waiting)
      else if s.queue != [] then t == Present(s, if s.queue[0].bPtsValid then mode else Normal)
      else if s.mySequence then Settled(t) == s.(myPicOut := false, display := Waiting)
      else Settled(t) == s.(myPicOut := false, videoEnd := true, display := Ending)
  {}

  /** A head that leaves: off the queue, and the last frame from then on. */
  lemma {:induction false} LeaveOutcome(t: State)
    requires t.queue != [] && |t.pool| + |LastFrame(t.last)| <= t.size && t.display.Leaving?
    ensures Settled(t) == t.(pool := t.pool + LastFrame(t.last), queue := t.queue[1..], headDraws := 0,
                             last := Some(t.queue[0].frame), log := Settled(t).log, display := Waiting)
  {
    LastGiven(t);
    hide Present;
  }

  lemma IntsGiven(pool: seq<nat>, last: Option<nat>)
    ensures Ints(pool + LastFrame(last)) == Ints(pool) + if last.Some? then [last.value] else []
  {}

  lemma EditTail(q: seq<FrameInfo>, head: FrameInfo)
    requires q != []
    ensures q[0 := head][0] == head && q[0 := head][1..] == q[1..]
  {}

  lemma PresentIs(s: State, mode: Mode)
    requires s.queue != []
    ensures var t, head := Present(s, mode), s.queue[0];
      && t == s.(queue := t.queue, headDraws := t.headDraws, display := t.display)
      && t.queue == (if mode == Normal then s.queue[0 := FrameInfo(head.frame, head.prsnNum - 1, false)] else s.queue)
      && t.queue[1..] == s.queue[1..] && t.queue[0].frame == head.frame
      && t.display == if mode == Skip then Leaving(Skipped)
                      else if mode == Normal && head.prsnNum <= 1 then Leaving(Shown) else Waiting
  {
    EditTail(s.queue, FrameInfo(s.queue[0].frame, s.queue[0].prsnNum - 1, false));
    match mode
    case Normal =>
    case Wait =>
    case Skip =>
  }

  /** Presenting the head: held, it stays; skipped or shown often enough, it leaves; else it is counted down. */
  lemma {:induction false} PresentOutcome(s: State, mode: Mode)
    requires s.queue != [] && |s.pool| + |LastFrame(s.last)| <= s.size
    ensures var u, head := Settled(Present(s, mode)), s.queue[0];
      && u == s.(pool := u.pool, queue := u.queue, last := u.last, headDraws := u.headDraws, log := u.log,
                 display := Waiting)
      && if mode == Wait then u.queue == s.queue && u.last == s.last && u.pool == s.pool
         else if mode == Skip || head.prsnNum <= 1 then
           && u.queue == s.queue[1..] && u.last == Some(head.frame)
           && u.pool == s.pool + (if s.last.Some? then [s.last.value] else [])
           && Ints(u.pool) == Ints(s.pool) + (if s.last.Some? then [s.last.value] else [])
         else
           && u.queue == s.queue[0 := FrameInfo(head.frame, head.prsnNum - 1, false)]
           && u.last == s.last && u.pool == s.pool
  {
    var t := Present(s, mode);
    PresentIs(s, mode);
    IntsGiven(s.pool, s.last);
    hide Present, Ints, Next;
    if t.display.Leaving? {
      hide Settled;
      LeaveOutcome(t);
    }
  }

  /** A full queue makes the video ready. With no picture due, or none queued, a round leaves all frames alone. */
  lemma {:induction false} RoundIdle(s: State, audioReady: bool, mode: Mode)
    requires s.display.Awake?
    ensures var t := AfterRound(s, audioReady, mode);
      var ready := s.videoReady || |s.queue| >= s.size;
      var due := s.myPicOut && ready && audioReady;
      && (!due ==> t == s.(videoReady := ready, myPicOut := s.myPicOut && ready, display := Waiting))
      && (due && s.queue == [] ==>
            t == s.(videoReady := ready, myPicOut := false, videoEnd := s.videoEnd || !s.mySequence,
                    display := if s.mySequence then Waiting else Ending))
  {
    var u := Next(s, CheckReady);
    CheckOutcome(s);
    DecideEffect(u, audioReady, mode);
    hide Next, Settled;
  }

  /**
   What a round with a picture due does with the head: the verdict holds one that has a time, or takes it
   off undrawn; any other is counted down, and taken off when it has been shown often enough.
   */
  lemma {:induction false} RoundOutcome(s: State, audioReady: bool, mode: Mode)
    requires s.display.Awake? && |s.pool| + |LastFrame(s.last)| <= s.size
    requires s.myPicOut && (s.videoReady || |s.queue| >= s.size) && audioReady && s.queue != []
    ensures var t, head := AfterRound(s, audioReady, mode), s.queue[0];
      && t.display.Waiting? && t.videoReady && t.myPicOut && t.videoEnd == s.videoEnd
      && if head.bPtsValid && mode == Wait then t.queue == s.queue && t.last == s.last && t.pool == s.pool
         else if (head.bPtsValid && mode == Skip) || head.prsnNum <= 1 then
           && t.queue == s.queue[1..] && t.last == Some(head.frame)
           && t.pool == s.pool + if s.last.Some? then [s.last.value] else []
         else
           && t.queue == s.queue[0 := FrameInfo(head.frame, head.prsnNum - 1, false)]
           && t.last == s.last && t.pool == s.pool
  {
    var u := Next(s, CheckReady);
    CheckOutcome(s);
    DecideEffect(u, audioReady, mode);
    var verdict := if s.queue[0].bPtsValid then mode else Normal;
    assert u == s.(videoReady := true, display := Checked);
    assert AfterRound(s, audioReady, mode) == Settled(Present(u, verdict));
    hide *;
    VerdictOutcome(s, verdict);
  }

  lemma {:induction false} VerdictOutcome(s: State, verdict: Mode)
    requires s.queue != [] && |s.pool| + |LastFrame(s.last)| <= s.size
    ensures var t, head := Settled(Present(s.(videoReady := true, display := Checked), verdict)), s.queue[0];
      && t.display.Waiting? && t.videoReady && t.myPicOut == s.myPicOut && t.videoEnd == s.videoEnd
      && if verdict == Wait then t.queue == s.queue && t.last == s.last && t.pool == s.pool
         else if verdict == Skip || head.prsnNum <= 1 then
           && t.queue == s.queue[1..] && t.last == Some(head.frame)
           && t.pool == s.pool + if s.last.Some? then [s.last.value] else []
         else
           && t.queue == s.queue[0 := FrameInfo(head.frame, head.prsnNum - 1, false)]
           && t.last == s.last && t.pool == s.pool
  {
    hide Settled, Present, Ints, LastFrame;
    PresentOutcome(s.(videoReady := true, display := Checked), verdict);
  }

  lemma CheckOutcome(s: State)
    requires s.display.Awake?
    ensures var ready := s.videoReady || |s.queue| >= s.size;
      Next(s, CheckReady) == s.(videoReady := ready, myPicOut := s.myPicOut && ready, display := Checked)
  {}

  /** The frames drawn by a decision: the head, or the last frame again when there is no head to show or it is held. */
  function DrawnIn(s: State, audioReady: bool, mode: Mode): seq<nat> {
    if !(s.myPicOut && s.videoReady && audioReady) then []
    else if s.queue == [] || (s.queue[0].bPtsValid && mode == Wait) then LastFrame(s.last)
    else if s.queue[0].bPtsValid && mode == Skip then []
    else [s.queue[0].frame]
  }

  function Ints(s: seq<nat>): (r: seq<int>)
    ensures |r| == |s|
  {
    seq(|s|, i requires 0 <= i < |s| => s[i])
  }

  lemma IntsTake(q: seq<FrameInfo>, k: nat)
    requires k <= |q|
    ensures Ints(Frames(q[..0])) == []
    ensures k < |q| ==> Ints(Frames(q[..k + 1])) == Ints(Frames(q[..k])) + [q[k].frame]
  {}
}
