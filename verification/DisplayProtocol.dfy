/**
 Frames between the video post-processor's thread and the display thread, as a state machine:
 each step is one region that a lock protects, or what a thread does alone between two such
 regions. The queue is the bounded list that RingQueue proves the ring to be; the display thread
 edits its head in place. The decoder, the audio's status and the synchronisation's verdict are
 the environment.
 */
module DisplayProtocol {
  import opened Ownership
  import opened Results
  import opened RingQueue

  /** A queued frame: its buffer, how often it is still to be shown, and whether its time counts. */
  datatype FrameInfo = FrameInfo(frame: nat, prsnNum: int, bPtsValid: bool)

  datatype Mode = Normal | Wait | Skip

  /** How a frame left the queue. */
  datatype Exit = Shown | Skipped | Drained

  /** A frame that left, as it was queued, and how often it had been drawn by then. */
  datatype Departure = Departure(info: FrameInfo, draws: nat, exit: Exit)

  datatype Maker =
    | Idle
    | Making(frame: nat)      // took a buffer from the pool
    | Made(info: FrameInfo)   // filled it, about to queue it
    | Notifying               // queued it, about to wake the display
    | Stopped

  datatype Display =
    | StartDrain | StartGive(frame: nat)   // emptying the queue at the start: popped `frame`
    | Waiting                              // for a picture
    | Awake                                // past the wait
    | Checked                              // past the check of STATUS_READY
    | Leaving(exit: Exit)                  // the head is to leave; first the last frame is given back
    | Popping(exit: Exit)
    | Ending | EndDrain | EndGive(frame: nat)
    | Over

  datatype State = State(
    pool: seq<nat>, queue: seq<FrameInfo>, last: Option<nat>,
    maker: Maker, display: Display,
    picOut: bool, sequence: bool,           // recvStatus
    myPicOut: bool, mySequence: bool,       // threadStatus
    videoReady: bool, videoEnd: bool,       // STATUS_READY and STATUS_END of the video
    size: nat,                              // frameNum, the capacity of the pool and the queue
    pushed: seq<FrameInfo>,                 // frames as they were queued
    headDraws: nat,                         // draws of the frame at the head
    log: seq<Departure>)                    // frames that left the queue

  datatype Step =
    | TakeBuffer | Exec(prsnNum: int, ptsValid: bool) | ExecFails | PushFrame | Notify | SequenceEnd | Abort
    | StartPop | StartReturn | WaitEvent | Quit | CheckReady | Decide(audioReady: bool, mode: Mode)
    | ReturnLast | PopHead | EndReturnLast | EndPop | EndReturn

  predicate Enabled(s: State, step: Step) {
    match step
    case TakeBuffer => s.maker.Idle? && s.pool != []
    case Exec(_, _) => s.maker.Making?
    case ExecFails => s.maker.Making?
    case PushFrame => s.maker.Made? && |s.queue| < s.size
    case Notify => s.maker.Notifying?
    case SequenceEnd => s.maker.Idle?
    case Abort => s.maker.Idle?
    case StartPop => s.display.StartDrain?
    case StartReturn => s.display.StartGive?
    case WaitEvent => s.display.Waiting? && (s.picOut || s.myPicOut)
    case Quit => s.display.Waiting?
    case CheckReady => s.display.Awake?
    case Decide(_, _) => s.display.Checked?
    case ReturnLast => s.display.Leaving?
    case PopHead => s.display.Popping?
    case EndReturnLast => s.display.Ending?
    case EndPop => s.display.EndDrain?
    case EndReturn => s.display.EndGive?
  }

  function Next(s: State, step: Step): State
    requires Enabled(s, step)
  {
    match step
    case TakeBuffer => s.(pool := s.pool[..|s.pool| - 1], maker := Making(s.pool[|s.pool| - 1]))
    case Exec(prsnNum, ptsValid) => s.(maker := Made(FrameInfo(s.maker.frame, prsnNum, ptsValid)))
    case ExecFails => s.(pool := PushIfRoom(s.pool, s.size, s.maker.frame), maker := Stopped)
    case PushFrame => s.(queue := s.queue + [s.maker.info], pushed := s.pushed + [s.maker.info], maker := Notifying)
    case Notify => s.(picOut := true, maker := Idle)
    case SequenceEnd => s.(picOut := true, sequence := false, maker := Stopped)
    case Abort => s.(maker := Stopped)
    case StartPop =>
      if s.queue == [] then s.(last := None, display := Waiting)
      else Depart(s, Drained).(display := StartGive(s.queue[0].frame))
    case StartReturn => s.(pool := PushIfRoom(s.pool, s.size, s.display.frame), display := StartDrain)
    case WaitEvent => s.(myPicOut := true, mySequence := s.sequence, picOut := false, display := Awake)
    case Quit => s.(display := Ending)
    case CheckReady =>
      if s.videoReady then s.(display := Checked)
      else if |s.queue| >= s.size then s.(videoReady := true, display := Checked)
      else s.(myPicOut := false, display := Checked)
    case Decide(audioReady, mode) =>
      if !(s.myPicOut && s.videoReady && audioReady) then s.(display := Waiting)
      else if s.queue == [] then
        if s.mySequence then s.(myPicOut := false, display := Waiting)
        else s.(myPicOut := false, videoEnd := true, display := Ending)
      else Present(s, if s.queue[0].bPtsValid then mode else Normal)
    case ReturnLast => GiveLast(s).(display := Popping(s.display.exit))
    case PopHead =>
      if s.queue == [] then s.(display := Waiting)
      else Depart(s, s.display.exit).(last := Some(s.queue[0].frame), display := Waiting)
    case EndReturnLast => GiveLast(s).(display := EndDrain)
    case EndPop =>
      if s.queue == [] then s.(display := Over)
      else Depart(s, Drained).(display := EndGive(s.queue[0].frame))
    case EndReturn => s.(pool := PushIfRoom(s.pool, s.size, s.display.frame), display := EndDrain)
  }

  /** Returns the last frame to the pool, if there is one. */
  function GiveLast(s: State): State {
    if s.last.Some? then s.(pool := PushIfRoom(s.pool, s.size, s.last.value), last := None) else s
  }

  /** Takes the head off the queue. */
  function Depart(s: State, exit: Exit): State
    requires s.queue != []
  {
    s.(queue := s.queue[1..], headDraws := 0,
       log := s.log + [Departure(if |s.log| < |s.pushed| then s.pushed[|s.log|] else s.queue[0], s.headDraws, exit)])
  }

  /** Shows, holds or skips the frame at the head. A draw clears its time, so it is never held or skipped after. */
  function Present(s: State, mode: Mode): State
    requires s.queue != []
  {
    match mode
    case Normal =>
      var head := FrameInfo(s.queue[0].frame, s.queue[0].prsnNum - 1, false);
      s.(queue := s.queue[0 := head], headDraws := s.headDraws + 1,
         display := if head.prsnNum < 1 then Leaving(Shown) else Waiting)
    case Wait => s.(display := Waiting)
    case Skip => s.(display := Leaving(Skipped))
  }

  /** As vpostOpen leaves pool and queue and vdispStart the display thread. */
  function Init(n: nat): State {
    State(Indices(n), [], None, Idle, StartDrain,
          false, true, false, true, false, false, n, [], 0, [])
  }

  // ---- Ownership: pool, queue, hands and lastFrameInfo hold every frame exactly once

  function Frames(q: seq<FrameInfo>): seq<nat> {
    seq(|q|, i requires 0 <= i < |q| => q[i].frame)
  }

  lemma FramesPush(q: seq<FrameInfo>, info: FrameInfo)
    ensures Frames(q + [info]) == Frames(q) + [info.frame]
  {}

  lemma FramesPop(q: seq<FrameInfo>)
    requires q != []
    ensures Frames(q) == [q[0].frame] + Frames(q[1..])
  {}

  lemma FramesEdit(q: seq<FrameInfo>, info: FrameInfo)
    requires q != [] && info.frame == q[0].frame
    ensures Frames(q[0 := info]) == Frames(q)
  {}

  function MakerHand(m: Maker): seq<nat> {
    if m.Making? then [m.frame] else if m.Made? then [m.info.frame] else []
  }

  function DisplayHand(d: Display): seq<nat> {
    if d.StartGive? || d.EndGive? then [d.frame] else []
  }

  function LastFrame(last: Option<nat>): seq<nat> {
    if last.Some? then [last.value] else []
  }

  function Owners(s: State, x: nat): nat {
    Copies(s.pool, x) + Copies(MakerHand(s.maker), x) + Copies(Frames(s.queue), x) + Copies(DisplayHand(s.display), x)
    + Copies(LastFrame(s.last), x)
  }

  function Held(s: State): nat {
    |s.pool| + |MakerHand(s.maker)| + |s.queue| + |DisplayHand(s.display)| + |LastFrame(s.last)|
  }

  /** lastFrameInfo is empty where the display thread overwrites it. */
  predicate LastFree(s: State) {
    var d := s.display;
    d.StartDrain? || d.StartGive? || d.Popping? || d.EndDrain? || d.EndGive? ==> s.last.None?
  }

  ghost predicate Owned(s: State) {
    && LastFree(s) && Held(s) == s.size
    && forall x: nat :: Owners(s, x) == if x < s.size then 1 else 0
  }

  /** What a step leaves as it was. */
  ghost predicate Conserves(s: State, t: State, x: nat) {
    LastFree(t) && Held(t) == Held(s) && t.size == s.size && Owners(t, x) == Owners(s, x)
  }

  predicate MakerStep(step: Step) {
    || step.TakeBuffer? || step.Exec? || step.ExecFails? || step.PushFrame? || step.Notify?
    || step.SequenceEnd? || step.Abort?
  }

  lemma MakerMoves(s: State, step: Step, x: nat)
    requires Owned(s) && Enabled(s, step)
    requires MakerStep(step)
    ensures Conserves(s, Next(s, step), x)
  {
    hide Copies, Frames;
    match step {
      case TakeBuffer =>
        var n := |s.pool| - 1;
        assert s.pool == s.pool[..n] + [s.pool[n]];
        CopiesJoin(s.pool[..n], [s.pool[n]], x);
        CopiesOne(s.pool[n], x);
      case ExecFails => CopiesJoin(s.pool, [s.maker.frame], x); CopiesOne(s.maker.frame, x);
      case PushFrame =>
        FramesPush(s.queue, s.maker.info);
        CopiesJoin(Frames(s.queue), [s.maker.info.frame], x);
        CopiesOne(s.maker.info.frame, x);
      case Exec(_, _) | Notify | SequenceEnd | Abort =>
    }
  }

  /** Steps that take the head off the queue. */
  lemma StartPopMoves(s: State, x: nat)
    requires Owned(s) && Enabled(s, StartPop)
    ensures Conserves(s, Next(s, StartPop), x)
  {
    hide Copies, Frames, PushIfRoom, Present;
    CopiesOne(0, x);
    if s.queue != [] {
      FramesPop(s.queue);
      CopiesJoin([s.queue[0].frame], Frames(s.queue[1..]), x);
    }
  }

  lemma EndPopMoves(s: State, x: nat)
    requires Owned(s) && Enabled(s, EndPop)
    ensures Conserves(s, Next(s, EndPop), x)
  {
    hide Copies, Frames, PushIfRoom, Present;
    CopiesOne(0, x);
    if s.queue != [] {
      FramesPop(s.queue);
      CopiesJoin([s.queue[0].frame], Frames(s.queue[1..]), x);
    }
  }

  lemma PopHeadMoves(s: State, x: nat)
    requires Owned(s) && Enabled(s, PopHead)
    ensures Conserves(s, Next(s, PopHead), x)
  {
    hide Copies, Frames;
    CopiesOne(0, x);
    if s.queue != [] {
      FramesPop(s.queue);
      CopiesJoin([s.queue[0].frame], Frames(s.queue[1..]), x);
    }
  }

  /** Steps that give a frame back to the pool. */
  lemma ReturnMoves(s: State, step: Step, x: nat)
    requires Owned(s) && Enabled(s, step) && (step.StartReturn? || step.EndReturn?)
    ensures Conserves(s, Next(s, step), x)
  {
    hide Copies, Frames;
    CopiesJoin(s.pool, [s.display.frame], x);
    CopiesOne(s.display.frame, x);
  }

  lemma {:induction false} ReturnLastMoves(s: State, step: Step, x: nat)
    requires Owned(s) && Enabled(s, step) && (step.ReturnLast? || step.EndReturnLast?)
    ensures Conserves(s, Next(s, step), x)
  {
    hide Copies, Frames;
    CopiesOne(0, x);
    if s.last.Some? {
      CopiesJoin(s.pool, [s.last.value], x);
    }
  }

  lemma PresentMoves(s: State, mode: Mode, x: nat)
    requires Owned(s) && s.display.Checked? && s.queue != []
    ensures Conserves(s, Present(s, mode), x)
  {
    hide Copies, Frames;
    FramesEdit(s.queue, FrameInfo(s.queue[0].frame, s.queue[0].prsnNum - 1, false));
  }

  lemma {:induction false} DecideMoves(s: State, step: Step, x: nat)
    requires Owned(s) && Enabled(s, step) && (step.Decide? || step.WaitEvent? || step.Quit? || step.CheckReady?)
    ensures Conserves(s, Next(s, step), x)
  {
    hide Copies, Frames, Present;
    if s.display.Checked? && s.queue != [] {
      PresentMoves(s, if s.queue[0].bPtsValid then step.mode else Normal, x);
    }
  }

  /** A step only moves frames from one holder to another. */
  lemma {:induction false} StepMoves(s: State, step: Step, x: nat)
    requires Owned(s) && Enabled(s, step)
    ensures Conserves(s, Next(s, step), x)
  {
    hide Next, Enabled, Owned, Conserves;
    match step {
      case TakeBuffer | Exec(_, _) | ExecFails | PushFrame | Notify | SequenceEnd | Abort => MakerMoves(s, step, x);
      case StartPop => StartPopMoves(s, x);
      case EndPop => EndPopMoves(s, x);
      case PopHead => PopHeadMoves(s, x);
      case StartReturn | EndReturn => ReturnMoves(s, step, x);
      case ReturnLast | EndReturnLast => ReturnLastMoves(s, step, x);
      case WaitEvent | Quit | CheckReady | Decide(_, _) => DecideMoves(s, step, x);
    }
  }

  lemma StepKeepsOwned(s: State, step: Step)
    requires Owned(s) && Enabled(s, step)
    ensures Owned(Next(s, step)) && Next(s, step).size == s.size
  {
    hide Next, Enabled, Owners, Held, LastFree;
    StepMoves(s, step, 0);
    forall x: nat ensures Owners(Next(s, step), x) == if x < s.size then 1 else 0 { StepMoves(s, step, x); }
  }

  // ---- Presentation: all or nothing

  /** How often a frame is to be shown: at least once. */
  function Showings(info: FrameInfo): int {
    if info.prsnNum < 1 then 1 else info.prsnNum
  }

  /** The head as the display thread has left it, after `draws` draws. */
  function Drawn(info: FrameInfo, draws: nat): FrameInfo {
    if draws == 0 then info else FrameInfo(info.frame, info.prsnNum - draws, false)
  }

  /** The frames queued are those that left and then those in the queue, of which only the head is ever edited. */
  ghost predicate Faithful(s: State) {
    && |s.log| + |s.queue| == |s.pushed|
    && (forall i | 0 < i < |s.queue| :: s.queue[i] == s.pushed[|s.log| + i])
    && (s.queue != [] ==> s.queue[0] == Drawn(s.pushed[|s.log|], s.headDraws))
    && (s.queue == [] ==> s.headDraws == 0)
    && forall i | 0 <= i < |s.log| :: s.log[i].info == s.pushed[i]
  }

  /** Where the frame at the head is in its presentation. */
  ghost predicate Midway(s: State)
    requires |s.log| + |s.queue| == |s.pushed|
  {
    match s.display
    case Leaving(Shown) | Popping(Shown) => s.queue != [] && s.headDraws == Showings(s.pushed[|s.log|])
    case Leaving(exit) => s.queue != [] && exit == Skipped && s.headDraws == 0 && s.pushed[|s.log|].bPtsValid
    case Popping(exit) => s.queue != [] && exit == Skipped && s.headDraws == 0 && s.pushed[|s.log|].bPtsValid
    case _ => s.queue != [] ==> s.headDraws < Showings(s.pushed[|s.log|])
  }

  /** A frame left either shown as often as it was to be, or skipped without a draw. */
  predicate Proper(d: Departure) {
    match d.exit
    case Shown => d.draws == Showings(d.info)
    case Skipped => d.draws == 0 && d.info.bPtsValid
    case Drained => d.draws < Showings(d.info)
  }

  ghost predicate Presented(s: State) {
    Faithful(s) && Midway(s) && forall d <- s.log :: Proper(d)
  }

  lemma PushPresented(s: State)
    requires Presented(s) && Enabled(s, PushFrame)
    ensures Presented(Next(s, PushFrame))
  {}

  lemma DepartPresented(s: State, exit: Exit)
    requires Presented(s) && s.queue != []
    requires exit == Drained ==> !s.display.Leaving? && !s.display.Popping?
    requires exit != Drained ==> s.display == Popping(exit)
    ensures var t := Depart(s, exit);
      && Faithful(t) && t.headDraws == 0 && (forall d <- t.log :: Proper(d))
      && (t.queue != [] ==> 0 < Showings(t.pushed[|t.log|]))
  {
    var d := Depart(s, exit).log[|s.log|];
    assert d.info == s.pushed[|s.log|];
    assert Proper(d);
  }

  lemma PresentPresented(s: State, mode: Mode)
    requires Presented(s) && s.display.Checked? && s.queue != [] && (mode != Normal ==> s.queue[0].bPtsValid)
    ensures Presented(Present(s, mode))
  {
    hide Proper;
  }

  lemma PopHeadPresented(s: State)
    requires Presented(s) && Enabled(s, PopHead)
    ensures Presented(Next(s, PopHead))
  {
    hide Proper;
    DepartPresented(s, s.display.exit);
    hide Depart;
  }

  lemma {:induction false} DrainPresented(s: State, step: Step)
    requires Presented(s) && Enabled(s, step) && (step.StartPop? || step.EndPop?)
    ensures Presented(Next(s, step))
  {
    hide Proper;
    if s.queue != [] { DepartPresented(s, Drained); hide Depart; }
  }

  /** Steps that touch neither the queue nor the presentation. */
  lemma IdlePresented(s: State, t: State)
    requires Presented(s)
    requires t.queue == s.queue && t.pushed == s.pushed && t.log == s.log && t.headDraws == s.headDraws
    requires t.display == s.display || (s.display.Leaving? && t.display == Popping(s.display.exit))
          || !(s.display.Leaving? || s.display.Popping? || t.display.Leaving? || t.display.Popping?)
    ensures Presented(t)
  {
    hide Proper, Drawn, Showings;
  }

  lemma {:induction false} DecidePresented(s: State, audioReady: bool, mode: Mode)
    requires Presented(s) && s.display.Checked?
    ensures Presented(Next(s, Decide(audioReady, mode)))
  {
    hide Presented, Present, Depart, PushIfRoom;
    var step := Decide(audioReady, mode);
    if s.myPicOut && s.videoReady && audioReady && s.queue != [] {
      PresentPresented(s, if s.queue[0].bPtsValid then mode else Normal);
    } else {
      IdlePresented(s, Next(s, step));
    }
  }

  lemma MakerPresented(s: State, step: Step)
    requires Presented(s) && Enabled(s, step)
    requires MakerStep(step) && !step.PushFrame?
    ensures Presented(Next(s, step))
  {
    IdlePresented(s, Next(s, step));
  }

  lemma DisplayPresented(s: State, step: Step)
    requires Presented(s) && Enabled(s, step)
    requires step.WaitEvent? || step.Quit? || step.CheckReady?
    ensures Presented(Next(s, step))
  {
    hide Presented, PushIfRoom, Depart, Present;
    IdlePresented(s, Next(s, step));
  }

  lemma {:induction false} ReturnLastPresented(s: State)
    requires Presented(s) && Enabled(s, ReturnLast)
    ensures Presented(Next(s, ReturnLast))
  {
    hide Presented, PushIfRoom, Depart, Present;
    IdlePresented(s, Next(s, ReturnLast));
  }

  lemma GivePresented(s: State, step: Step)
    requires Presented(s) && Enabled(s, step) && (step.StartReturn? || step.EndReturn?)
    ensures Presented(Next(s, step))
  {
    hide Presented, PushIfRoom, Depart, Present;
    IdlePresented(s, Next(s, step));
  }

  lemma EndReturnLastPresented(s: State)
    requires Presented(s) && Enabled(s, EndReturnLast)
    ensures Presented(Next(s, EndReturnLast))
  {
    hide Presented, PushIfRoom, Depart, Present;
    IdlePresented(s, Next(s, EndReturnLast));
  }

  lemma {:induction false} StepKeepsPresented(s: State, step: Step)
    requires Presented(s) && Enabled(s, step)
    ensures Presented(Next(s, step))
  {
    hide Presented, Next, Enabled;
    match step {
      case PushFrame => PushPresented(s);
      case StartPop | EndPop => DrainPresented(s, step);
      case PopHead => PopHeadPresented(s);
      case Decide(audioReady, mode) => AtCheck(s, audioReady, mode); DecidePresented(s, audioReady, mode);
      case TakeBuffer | Exec(_, _) | ExecFails | Notify | SequenceEnd | Abort => MakerPresented(s, step);
      case ReturnLast => ReturnLastPresented(s);
      case EndReturnLast => EndReturnLastPresented(s);
      case StartReturn | EndReturn => GivePresented(s, step);
      case WaitEvent | Quit | CheckReady => DisplayPresented(s, step);
    }
  }

  lemma AtCheck(s: State, audioReady: bool, mode: Mode)
    ensures Enabled(s, Decide(audioReady, mode)) <==> s.display.Checked?
  {}

  // ---- What the synchronisation's verdict does

  /** A picture is due: one has been announced, and video and audio are ready. */
  predicate Due(s: State, audioReady: bool) { s.display.Checked? && s.myPicOut && s.videoReady && audioReady }

  /** A head that comes too early stays where it is, and so does everything else. */
  lemma HoldKeeps(s: State)
    requires Due(s, true) && s.queue != [] && s.queue[0].bPtsValid
    ensures Next(s, Decide(true, Wait)) == s.(display := Waiting)
  {}

  lemma {:induction false} GiveLastEffect(s: State)
    requires |s.pool| + |LastFrame(s.last)| <= s.size
    ensures GiveLast(s) == s.(pool := s.pool + LastFrame(s.last), last := None)
  {}

  lemma {:induction false} LastGiven(s: State)
    requires s.display.Leaving? && |s.pool| + |LastFrame(s.last)| <= s.size
    ensures Next(s, ReturnLast)
         == s.(pool := s.pool + LastFrame(s.last), last := None, display := Popping(s.display.exit))
  {
    GiveLastEffect(s);
    hide GiveLast, LastFrame, Present, Depart;
  }

  lemma HeadPopped(s: State)
    requires s.display.Popping? && s.queue != [] && |s.log| < |s.pushed|
    ensures Next(s, PopHead)
         == s.(queue := s.queue[1..], headDraws := 0, last := Some(s.queue[0].frame), display := Waiting,
               log := s.log + [Departure(s.pushed[|s.log|], s.headDraws, s.display.exit)])
  {
    hide Present, GiveLast;
  }

  /** The head leaves: the last frame goes back to the pool, and the head is the last frame then. */
  lemma {:induction false} HeadLeaves(s: State, exit: Exit)
    requires s.display == Leaving(exit) && s.queue != [] && |s.log| < |s.pushed|
    requires |s.pool| + |LastFrame(s.last)| <= s.size
    ensures var t := Next(Next(s, ReturnLast), PopHead);
      && t.queue == s.queue[1..] && t.last == Some(s.queue[0].frame) && t.display.Waiting?
      && t.pool == s.pool + (if s.last.Some? then [s.last.value] else [])
      && t.log == s.log + [Departure(s.pushed[|s.log|], s.headDraws, exit)]
  {
    LastGiven(s);
    HeadPopped(Next(s, ReturnLast));
    hide Next;
  }

  lemma RoomForLast(s: State)
    requires Owned(s)
    ensures |s.pool| + |LastFrame(s.last)| + |s.queue| <= s.size
  {}

  /** A head that comes too late leaves undrawn. */
  lemma {:induction false} SkipDrops(s: State)
    requires Due(s, true) && s.queue != [] && s.queue[0].bPtsValid && Presented(s) && Owned(s)
    ensures var t := Next(Next(Next(s, Decide(true, Skip)), ReturnLast), PopHead);
      && t.queue == s.queue[1..] && t.last == Some(s.queue[0].frame) && t.display.Waiting?
      && t.pool == s.pool + (if s.last.Some? then [s.last.value] else [])
      && |s.log| < |s.pushed| && t.log == s.log + [Departure(s.pushed[|s.log|], 0, Skipped)]
  {
    RoomForLast(s);
    var t := Next(s, Decide(true, Skip));
    assert t == s.(display := Leaving(Skipped)) && s.headDraws == 0 && |s.log| < |s.pushed|;
    hide Next, Faithful, Presented, Owned;
    HeadLeaves(t, Skipped);
  }

  /** A head that is due, or whose time does not count any more, is drawn: its count goes down, its time is cleared. */
  lemma {:induction false} ShowCounts(s: State, mode: Mode)
    requires Due(s, true) && s.queue != [] && (mode == Normal || !s.queue[0].bPtsValid)
    ensures var t, head := Next(s, Decide(true, mode)), s.queue[0];
      && t.queue == s.queue[0 := FrameInfo(head.frame, head.prsnNum - 1, false)]
      && t == s.(queue := t.queue, headDraws := s.headDraws + 1, display := t.display)
      && t.display == if head.prsnNum > 1 then Waiting else Leaving(Shown)
  {}

  /** When it has been shown often enough it leaves, as a skipped one does, but shown. */
  lemma {:induction false} ShownLeaves(s: State, mode: Mode)
    requires Due(s, true) && s.queue != [] && (mode == Normal || !s.queue[0].bPtsValid) && s.queue[0].prsnNum <= 1
    requires Presented(s) && Owned(s)
    ensures var t := Next(Next(Next(s, Decide(true, mode)), ReturnLast), PopHead);
      && t.queue == s.queue[1..] && t.last == Some(s.queue[0].frame) && t.display.Waiting?
      && t.pool == s.pool + (if s.last.Some? then [s.last.value] else [])
      && |s.log| < |s.pushed| && t.log == s.log + [Departure(s.pushed[|s.log|], s.headDraws + 1, Shown)]
  {
    RoomForLast(s);
    ShowCounts(s, mode);
    var t := Next(s, Decide(true, mode));
    assert |s.log| < |s.pushed|;
    hide Next, Faithful, Presented, Owned;
    HeadLeaves(t, Shown);
  }

  /** Without a picture due nothing happens; with none queued the last frame stays, until the end of the sequence. */
  lemma NothingShown(s: State, audioReady: bool, mode: Mode)
    requires s.display.Checked? && (!Due(s, audioReady) || s.queue == [])
    ensures Next(s, Decide(audioReady, mode))
      == if !Due(s, audioReady) then s.(display := Waiting)
         else if s.mySequence then s.(myPicOut := false, display := Waiting)
         else s.(myPicOut := false, videoEnd := true, display := Ending)
  {}

  // ---- The end of the sequence, and waking up

  /** The display only knows of the end once the maker has stopped, and ends with the queue empty. */
  ghost predicate Ended(s: State) {
    && (!s.sequence || !s.mySequence ==> s.maker.Stopped? && !s.sequence)
    && (s.videoEnd ==> s.queue == [] && s.maker.Stopped?)
  }

  /** Once the video is ready, the display sleeps only while the queue is empty or its wake-up is on the way. */
  ghost predicate Alert(s: State) {
    match s.display
    case Waiting => s.videoReady ==> s.queue == [] || s.picOut || s.myPicOut || s.maker.Notifying?
    case Awake => s.myPicOut
    case Checked | Leaving(_) | Popping(_) => s.videoReady ==> s.myPicOut
    case StartDrain | StartGive(_) => !s.videoReady
    case _ => true
  }

  lemma MakerKeepsEnded(s: State, step: Step)
    requires Ended(s) && Alert(s) && Enabled(s, step) && MakerStep(step)
    ensures Ended(Next(s, step)) && Alert(Next(s, step))
  {
    hide PushIfRoom;
  }

  lemma DecideKeepsEnded(s: State, audioReady: bool, mode: Mode)
    requires Ended(s) && Alert(s) && s.display.Checked?
    ensures var t := Next(s, Decide(audioReady, mode)); Ended(t) && Alert(t)
  {
    hide PushIfRoom, Depart;
  }

  lemma PopsKeepEnded(s: State, step: Step)
    requires Ended(s) && Alert(s) && Enabled(s, step) && (step.StartPop? || step.EndPop?)
    ensures Ended(Next(s, step)) && Alert(Next(s, step))
  {
    hide PushIfRoom, Present;
  }

  lemma ReturnsKeepEnded(s: State, step: Step)
    requires Ended(s) && Alert(s) && Enabled(s, step) && (step.StartReturn? || step.EndReturn?)
    ensures Ended(Next(s, step)) && Alert(Next(s, step))
  {
    hide PushIfRoom, Present, Depart;
  }

  lemma LastReturnsKeepEnded(s: State, step: Step)
    requires Ended(s) && Alert(s) && Enabled(s, step) && (step.ReturnLast? || step.EndReturnLast?)
    ensures Ended(Next(s, step)) && Alert(Next(s, step))
  {
    hide PushIfRoom, Present, Depart;
  }

  lemma PopHeadKeepsEnded(s: State)
    requires Ended(s) && Alert(s) && Enabled(s, PopHead)
    ensures Ended(Next(s, PopHead)) && Alert(Next(s, PopHead))
  {
    hide PushIfRoom, Present;
  }

  lemma WaitKeepsEnded(s: State, step: Step)
    requires Ended(s) && Alert(s) && Enabled(s, step) && (step.WaitEvent? || step.Quit? || step.CheckReady?)
    ensures Ended(Next(s, step)) && Alert(Next(s, step))
  {
    hide PushIfRoom, Present, Depart;
  }

  lemma {:induction false} StepKeepsEnded(s: State, step: Step)
    requires Ended(s) && Alert(s) && Enabled(s, step)
    ensures Ended(Next(s, step)) && Alert(Next(s, step))
  {
    hide Ended, Alert, Next, Enabled;
    match step {
      case TakeBuffer | Exec(_, _) | ExecFails | PushFrame | Notify | SequenceEnd | Abort => MakerKeepsEnded(s, step);
      case StartPop | EndPop => PopsKeepEnded(s, step);
      case StartReturn | EndReturn => ReturnsKeepEnded(s, step);
      case ReturnLast | EndReturnLast => LastReturnsKeepEnded(s, step);
      case PopHead => PopHeadKeepsEnded(s);
      case WaitEvent | Quit | CheckReady => WaitKeepsEnded(s, step);
      case Decide(audioReady, mode) => AtCheck(s, audioReady, mode); DecideKeepsEnded(s, audioReady, mode);
    }
  }

  // ---- Runs

  ghost predicate IsRun(n: nat, states: seq<State>, steps: seq<Step>) {
    && |states| == |steps| + 1 && states[0] == Init(n)
    && forall i | 0 <= i < |steps| :: Enabled(states[i], steps[i]) && states[i + 1] == Next(states[i], steps[i])
  }

  ghost predicate Inv(n: nat, s: State) {
    s.size == n && Owned(s) && Presented(s) && Ended(s) && Alert(s)
  }

  lemma InitInv(n: nat)
    ensures Inv(n, Init(n))
  {
    forall x: nat ensures Owners(Init(n), x) == if x < n then 1 else 0 { IndicesOnce(n, x); }
  }

  lemma StepKeepsInv(n: nat, s: State, step: Step)
    requires Inv(n, s) && Enabled(s, step)
    ensures Inv(n, Next(s, step))
  {
    hide Next, Enabled, Owned, Presented, Ended, Alert;
    StepKeepsOwned(s, step);
    StepKeepsPresented(s, step);
    StepKeepsEnded(s, step);
  }

  lemma {:induction false} RunKeepsInv(n: nat, states: seq<State>, steps: seq<Step>, i: nat)
    requires IsRun(n, states, steps) && i < |states|
    ensures Inv(n, states[i])
  {
    hide Next, Enabled, Inv, Init;
    if i == 0 {
      InitInv(n);
    } else {
      RunKeepsInv(n, states, steps, i - 1);
      StepKeepsInv(n, states[i - 1], steps[i - 1]);
    }
  }

  /**
   In every reachable state each of the `n` frames is held exactly once; so the queue push never
   waits, no pool push ever fails, and what is drawn is neither free nor being written.
   */
  lemma FramesConserved(n: nat, states: seq<State>, steps: seq<Step>, i: nat)
    requires IsRun(n, states, steps) && i < |states|
    ensures var s := states[i];
      && (forall x: nat :: Owners(s, x) == if x < n then 1 else 0)
      && (s.maker.Made? ==> Enabled(s, PushFrame))
      && (s.maker.Making? || s.display.StartGive? || s.display.EndGive? || s.last.Some? ==> |s.pool| < n)
      && (s.queue != [] ==> s.queue[0].frame !in s.pool + MakerHand(s.maker))
      && (s.last.Some? ==> s.last.value !in s.pool + MakerHand(s.maker))
  {
    hide IsRun, Presented, Ended, Alert;
    RunKeepsInv(n, states, steps, i);
    var s := states[i];
    if s.queue != [] { HeldApart(s, s.queue[0].frame); }
    if s.last.Some? { HeldApart(s, s.last.value); }
  }

  lemma HeldApart(s: State, x: nat)
    requires Owned(s) && (s.last == Some(x) || (s.queue != [] && s.queue[0].frame == x))
    ensures x !in s.pool + MakerHand(s.maker)
  {
    assert Owners(s, x) <= 1;
    if s.last != Some(x) {
      assert Frames(s.queue)[0] == x;
      assert x in multiset(Frames(s.queue));
    }
  }

  /**
   All or nothing: frames leave in the order they were queued, each of them either drawn exactly
   as often as it was to be shown, and at least once, or skipped without ever being drawn - or
   drained with the queue at the start or the end of the thread.
   */
  lemma AllOrNothing(n: nat, states: seq<State>, steps: seq<Step>, i: nat, k: nat)
    requires IsRun(n, states, steps) && i < |states| && k < |states[i].log|
    ensures var d := states[i].log[k];
      && k < |states[i].pushed| && d.info == states[i].pushed[k]
      && (d.exit == Shown ==> d.draws == if d.info.prsnNum < 1 then 1 else d.info.prsnNum)
      && (d.exit == Skipped ==> d.draws == 0 && d.info.bPtsValid)
  {
    hide IsRun, Owned, Ended, Alert;
    RunKeepsInv(n, states, steps, i);
    assert states[i].log[k] in states[i].log;
  }

  /** The synchronisation can only have a frame held or skipped before its first draw. */
  lemma HoldBeforeFirstDraw(n: nat, states: seq<State>, steps: seq<Step>, i: nat)
    requires IsRun(n, states, steps) && i < |states| && states[i].queue != []
    ensures states[i].queue[0].bPtsValid ==> states[i].headDraws == 0
  {
    hide IsRun, Owned, Ended, Alert;
    RunKeepsInv(n, states, steps, i);
  }

  /** Until a full queue has been seen nothing is shown, skipped or over; that takes a queue's worth of frames. */
  ghost predicate Primed(s: State) {
    if s.videoReady then s.size <= |s.pushed|
    else
      && !s.videoEnd && s.headDraws == 0 && (forall d <- s.log :: d.exit == Drained && d.draws == 0)
      && !s.display.Leaving? && !s.display.Popping?
  }

  /** The display knows of the end of the sequence, or its wake-up is on the way. */
  predicate Told(s: State) { s.picOut || (s.myPicOut && !s.mySequence) }

  /** It is told unless it fell asleep before a full queue. */
  ghost predicate EndTold(s: State) {
    !s.sequence ==>
      match s.display
      case Awake => Told(s)
      case Waiting | Checked | Leaving(_) | Popping(_) => s.videoReady ==> Told(s)
      case _ => true
  }

  /** A full queue is seen, or its wake-up is on the way. */
  ghost predicate FullTold(s: State) {
    if s.videoReady || s.size == 0 || |s.queue| < s.size || !(s.display.Waiting? || s.display.Checked?) then true
    else s.picOut || s.maker.Notifying?
  }

  ghost predicate Posted(s: State) { EndTold(s) && FullTold(s) }

  lemma MakerPrimed(s: State, step: Step)
    requires Primed(s) && Posted(s) && Enabled(s, step) && MakerStep(step)
    ensures Primed(Next(s, step)) && Posted(Next(s, step)) && Next(s, step).size == s.size
  {
    hide PushIfRoom;
  }

  lemma DrainsPrimed(s: State, step: Step)
    requires Primed(s) && Posted(s) && Alert(s) && Enabled(s, step) && (step.StartPop? || step.EndPop?)
    ensures Primed(Next(s, step)) && Posted(Next(s, step)) && Next(s, step).size == s.size
  {
    hide PushIfRoom, Present, GiveLast;
  }

  lemma PopPrimed(s: State)
    requires Primed(s) && Posted(s) && Enabled(s, PopHead)
    ensures Primed(Next(s, PopHead)) && Posted(Next(s, PopHead)) && Next(s, PopHead).size == s.size
  {
    hide PushIfRoom, Present, GiveLast;
  }

  lemma ReturnsPrimed(s: State, step: Step)
    requires Primed(s) && Posted(s) && Enabled(s, step)
    requires step.StartReturn? || step.EndReturn? || step.ReturnLast? || step.EndReturnLast?
    ensures Primed(Next(s, step)) && Posted(Next(s, step)) && Next(s, step).size == s.size
  {
    hide PushIfRoom, Present, Depart;
  }

  lemma WaitPrimed(s: State, step: Step)
    requires Primed(s) && Posted(s) && Alert(s) && Presented(s) && Enabled(s, step)
    requires step.WaitEvent? || step.Quit? || step.CheckReady?
    ensures Primed(Next(s, step)) && Posted(Next(s, step)) && Next(s, step).size == s.size
  {
    hide PushIfRoom, Present, Depart, GiveLast, Drawn, Midway;
  }

  lemma DecidePrimed(s: State, audioReady: bool, mode: Mode)
    requires Primed(s) && Posted(s) && s.display.Checked?
    ensures var t := Next(s, Decide(audioReady, mode)); Primed(t) && Posted(t) && t.size == s.size
  {
    hide PushIfRoom, Depart, GiveLast;
  }

  lemma {:induction false} StepKeepsPrimed(s: State, step: Step)
    requires Primed(s) && Posted(s) && Alert(s) && Presented(s) && Enabled(s, step)
    ensures Primed(Next(s, step)) && Posted(Next(s, step))
  {
    hide Primed, Posted, Alert, Presented, Next, Enabled;
    match step {
      case TakeBuffer | Exec(_, _) | ExecFails | PushFrame | Notify | SequenceEnd | Abort => MakerPrimed(s, step);
      case StartPop | EndPop => DrainsPrimed(s, step);
      case PopHead => PopPrimed(s);
      case StartReturn | EndReturn | ReturnLast | EndReturnLast => ReturnsPrimed(s, step);
      case WaitEvent | Quit | CheckReady => WaitPrimed(s, step);
      case Decide(audioReady, mode) => AtCheck(s, audioReady, mode); DecidePrimed(s, audioReady, mode);
    }
  }

  lemma {:induction false} RunPrimed(n: nat, states: seq<State>, steps: seq<Step>, i: nat)
    requires IsRun(n, states, steps) && i < |states|
    ensures Primed(states[i]) && Posted(states[i])
  {
    if i > 0 {
      RunPrimed(n, states, steps, i - 1);
      RunKeepsInv(n, states, steps, i - 1);
      hide Next, Enabled, Primed, Posted, Presented, Owned, Ended, Alert;
      StepKeepsPrimed(states[i - 1], steps[i - 1]);
    }
  }

  /**
   A video of fewer frames than the queue holds is never shown and never ends: no frame is drawn or
   leaves the queue while the display runs, and STATUS_END is not set.
   */
  lemma ShortVideoNeverShown(n: nat, states: seq<State>, steps: seq<Step>, i: nat)
    requires IsRun(n, states, steps) && i < |states| && |states[i].pushed| < n
    ensures var s := states[i];
      !s.videoReady && !s.videoEnd && s.headDraws == 0 && forall d <- s.log :: d.exit == Drained && d.draws == 0
  {
    RunPrimed(n, states, steps, i);
    RunKeepsInv(n, states, steps, i);
    hide IsRun, Owned, Ended, Alert;
  }

  /** The display never sleeps on a full queue, whose frames it is to start with. */
  lemma FullQueueSeen(n: nat, states: seq<State>, steps: seq<Step>, i: nat)
    requires IsRun(n, states, steps) && i < |states| && states[i].display.Waiting?
    requires 0 < n <= |states[i].queue| && !states[i].maker.Notifying?
    ensures Enabled(states[i], WaitEvent)
    ensures Next(Next(states[i], WaitEvent), CheckReady).videoReady
  {
    RunPrimed(n, states, steps, i);
    RunKeepsInv(n, states, steps, i);
    hide IsRun, Owned, Presented, Ended;
  }

  lemma {:induction false} SequenceOver(n: nat, states: seq<State>, steps: seq<Step>, j: nat, i: nat)
    requires IsRun(n, states, steps) && j < i < |states| && steps[j].SequenceEnd?
    ensures !states[i].sequence
  {
    if j + 1 < i {
      SequenceOver(n, states, steps, j, i - 1);
      StaysOver(states[i - 1], steps[i - 1]);
    }
  }

  lemma {:induction false} StaysOver(s: State, step: Step)
    requires Enabled(s, step) && !s.sequence
    ensures !Next(s, step).sequence
  {
    if MakerStep(step) {
      MakerStaysOver(s, step);
    } else {
      SkipStep(s, step);
      hide Next, Enabled, SkipsRight;
    }
  }

  lemma MakerStaysOver(s: State, step: Step)
    requires Enabled(s, step) && MakerStep(step) && !s.sequence
    ensures !Next(s, step).sequence
  {
    hide PushIfRoom;
  }

  /**
   Once the sequence has ended, a display whose video is ready never sleeps without knowing: it is
   enabled to wake up and, with the queue empty and the audio ready, goes on to set STATUS_END.
   */
  lemma EndIsSeen(n: nat, states: seq<State>, steps: seq<Step>, j: nat, i: nat, mode: Mode)
    requires IsRun(n, states, steps) && j < i < |states| && steps[j].SequenceEnd?
    requires states[i].display.Waiting? && states[i].videoReady
    ensures Enabled(states[i], WaitEvent)
    ensures states[i].queue == [] ==>
      Next(Next(Next(states[i], WaitEvent), CheckReady), Decide(true, mode)).videoEnd
  {
    SequenceOver(n, states, steps, j, i);
    RunPrimed(n, states, steps, i);
    hide IsRun;
  }

  predicate Skipping(d: Display) { d == Leaving(Skipped) || d == Popping(Skipped) }

  /** Frames leave one at a time, as skipped only while skipping, and only a verdict to skip the head starts that. */
  ghost predicate SkipsRight(s: State, step: Step, t: State) {
    && (t.log == s.log || (|t.log| == |s.log| + 1 && t.log[..|s.log|] == s.log
                           && (t.log[|s.log|].exit == Skipped ==> Skipping(s.display))))
    && (Skipping(t.display) ==> t.log == s.log && (Skipping(s.display) || ToSkip(s, step)))
  }

  /** A step of the display leaves the maker alone. */
  ghost predicate MakerKept(s: State, t: State) {
    t.maker == s.maker && t.pushed == s.pushed && t.sequence == s.sequence
  }

  lemma GiveKeeps(s: State)
    ensures GiveLast(s).log == s.log && GiveLast(s).display == s.display && MakerKept(s, GiveLast(s))
  {}

  lemma DepartKeeps(s: State, exit: Exit)
    requires s.queue != []
    ensures var t := Depart(s, exit);
      && MakerKept(s, t) && t.display == s.display
      && |t.log| == |s.log| + 1 && t.log[..|s.log|] == s.log && t.log[|s.log|].exit == exit
  {}

  lemma PresentKeeps(s: State, mode: Mode)
    requires s.queue != []
    ensures MakerKept(s, Present(s, mode)) && Present(s, mode).log == s.log
    ensures Skipping(Present(s, mode).display) ==> mode == Skip || Skipping(s.display)
  {}

  lemma MakerSkips(s: State, step: Step)
    requires Enabled(s, step) && MakerStep(step)
    ensures SkipsRight(s, step, Next(s, step))
  {
    hide PushIfRoom, ToSkip;
  }

  lemma ReturnSkips(s: State, step: Step)
    requires Enabled(s, step) && (step.StartReturn? || step.EndReturn?)
    ensures SkipsRight(s, step, Next(s, step)) && MakerKept(s, Next(s, step))
  {
    hide PushIfRoom, ToSkip;
  }

  lemma LastSkips(s: State, step: Step)
    requires Enabled(s, step) && (step.ReturnLast? || step.EndReturnLast?)
    ensures SkipsRight(s, step, Next(s, step)) && MakerKept(s, Next(s, step))
  {
    GiveKeeps(s);
    hide GiveLast, ToSkip;
  }

  lemma WaitSkips(s: State, step: Step)
    requires Enabled(s, step) && (step.WaitEvent? || step.Quit? || step.CheckReady?)
    ensures SkipsRight(s, step, Next(s, step)) && MakerKept(s, Next(s, step))
  {
    hide ToSkip;
  }

  lemma PopSkips(s: State, step: Step)
    requires Enabled(s, step) && (step.StartPop? || step.EndPop? || step.PopHead?)
    ensures SkipsRight(s, step, Next(s, step)) && MakerKept(s, Next(s, step))
  {
    hide PushIfRoom, Present, Depart, GiveLast, ToSkip;
    if s.queue != [] { DepartKeeps(s, if step.PopHead? then s.display.exit else Drained); }
  }

  lemma DecideSkips(s: State, audioReady: bool, mode: Mode)
    requires s.display.Checked?
    ensures var step := Decide(audioReady, mode); SkipsRight(s, step, Next(s, step)) && MakerKept(s, Next(s, step))
  {
    if s.queue != [] { PresentKeeps(s, if s.queue[0].bPtsValid then mode else Normal); }
    hide PushIfRoom, Depart, GiveLast, Present;
  }

  lemma {:induction false} SkipStep(s: State, step: Step)
    requires Enabled(s, step)
    ensures SkipsRight(s, step, Next(s, step)) && (MakerStep(step) || MakerKept(s, Next(s, step)))
  {
    hide SkipsRight, MakerKept, Next, Enabled;
    match step {
      case TakeBuffer | Exec(_, _) | ExecFails | PushFrame | Notify | SequenceEnd | Abort => MakerSkips(s, step);
      case StartPop | EndPop | PopHead => PopSkips(s, step);
      case StartReturn | EndReturn => ReturnSkips(s, step);
      case ReturnLast | EndReturnLast => LastSkips(s, step);
      case WaitEvent | Quit | CheckReady => WaitSkips(s, step);
      case Decide(audioReady, mode) => AtCheck(s, audioReady, mode); DecideSkips(s, audioReady, mode);
    }
  }

  /** The verdict that the head, which has a time, is too late. */
  predicate ToSkip(s: State, step: Step) {
    step == Decide(true, Skip) && Due(s, true) && s.queue != [] && s.queue[0].bPtsValid
  }

  /** Step `j` is the verdict that frame `k` is too late. */
  ghost predicate SkipVerdict(states: seq<State>, steps: seq<Step>, j: nat, k: nat) {
    j < |steps| && j < |states| && ToSkip(states[j], steps[j]) && |states[j].log| == k
  }

  ghost predicate Judged(states: seq<State>, steps: seq<Step>, i: nat)
    requires i < |states|
  {
    && (forall k: nat | k < |states[i].log| && states[i].log[k].exit == Skipped ::
          exists j: nat :: j < i && SkipVerdict(states, steps, j, k))
    && (Skipping(states[i].display) ==> exists j: nat :: j < i && SkipVerdict(states, steps, j, |states[i].log|))
  }

  lemma {:induction false} RunJudged(n: nat, states: seq<State>, steps: seq<Step>, i: nat)
    requires IsRun(n, states, steps) && i < |states|
    ensures Judged(states, steps, i)
  {
    if i > 0 {
      RunJudged(n, states, steps, i - 1);
      var s, t := states[i - 1], states[i];
      SkipStep(s, steps[i - 1]);
      hide Next, Enabled, IsRun, ToSkip;
      forall k: nat | k < |t.log| && t.log[k].exit == Skipped
        ensures exists j: nat :: j < i && SkipVerdict(states, steps, j, k)
      {
        var m: nat := if k < |s.log| then k else |s.log|;
        if k < |s.log| { assert t.log[k] == t.log[..|s.log|][k] == s.log[k]; }
        var j: nat :| j < i - 1 && SkipVerdict(states, steps, j, m);
        assert j < i && SkipVerdict(states, steps, j, k);
      }
      if Skipping(t.display) {
        if Skipping(s.display) {
          var j: nat :| j < i - 1 && SkipVerdict(states, steps, j, |s.log|);
          assert j < i && SkipVerdict(states, steps, j, |t.log|);
        } else {
          assert SkipVerdict(states, steps, i - 1, |t.log|);
        }
      }
    }
  }

  /** A frame that left skipped was judged too late, by its own time, while it was at the head. */
  lemma SkippedOnVerdict(n: nat, states: seq<State>, steps: seq<Step>, i: nat, k: nat)
    requires IsRun(n, states, steps) && i < |states| && k < |states[i].log| && states[i].log[k].exit == Skipped
    ensures exists j: nat | j < i && j < |steps| && steps[j] == Decide(true, Skip) ::
              && |states[j].log| == k && states[j].queue != []
              && states[j].queue[0].bPtsValid && states[j].queue[0] == states[i].log[k].info
  {
    RunJudged(n, states, steps, i);
    var j: nat :| j < i && SkipVerdict(states, steps, j, k);
    RunKeepsInv(n, states, steps, j);
    RunKeepsInv(n, states, steps, i);
    PushedGrow(n, states, steps, j, i);
    hide IsRun, Owned, Ended, Alert;
    assert states[j].queue[0] == states[j].pushed[k];
  }

  function InHand(s: State): seq<FrameInfo> {
    if s.maker.Made? then [s.maker.info] else []
  }

  /** What a step queues, and what it makes. */
  ghost predicate MakesRight(s: State, step: Step, t: State) {
    && t.pushed == (if step.PushFrame? then s.pushed + InHand(s) else s.pushed)
    && InHand(t) == (if step.PushFrame? then []
                     else if step.Exec? && s.maker.Making? then [FrameInfo(s.maker.frame, step.prsnNum, step.ptsValid)]
                     else InHand(s))
    && (step.Exec? ==> s.maker.Making? && InHand(s) == [])
  }

  lemma MakerMakes(s: State, step: Step)
    requires Enabled(s, step) && MakerStep(step)
    ensures MakesRight(s, step, Next(s, step))
  {
    hide PushIfRoom;
  }

  lemma {:induction false} MadeStep(s: State, step: Step)
    requires Enabled(s, step)
    ensures MakesRight(s, step, Next(s, step))
  {
    hide Enabled, Next, SkipsRight;
    SkipStep(s, step);
    if MakerStep(step) { MakerMakes(s, step); }
  }

  lemma PrefixOn<T>(a: seq<T>, b: seq<T>, c: seq<T>)
    requires a <= b <= c
    ensures a <= c
  {}

  lemma {:induction false} PushedGrow(n: nat, states: seq<State>, steps: seq<Step>, j: nat, i: nat)
    requires IsRun(n, states, steps) && j <= i < |states|
    ensures states[j].pushed <= states[i].pushed
  {
    if j < i {
      MadeStep(states[i - 1], steps[i - 1]);
      assert states[i - 1].pushed <= states[i].pushed;
      PushedGrow(n, states, steps, j, i - 1);
      hide *;
      PrefixOn(states[j].pushed, states[i - 1].pushed, states[i].pushed);
    }
  }

  /** The frames made so far, as the post-processor's Exec steps say. */
  function Execs(states: seq<State>, steps: seq<Step>, i: nat): seq<FrameInfo>
    requires i <= |steps| && i <= |states|
  {
    if i == 0 then []
    else if steps[i - 1].Exec? && states[i - 1].maker.Making? then
      Execs(states, steps, i - 1)
        + [FrameInfo(states[i - 1].maker.frame, steps[i - 1].prsnNum, steps[i - 1].ptsValid)]
    else Execs(states, steps, i - 1)
  }

  /** Frames are queued as they were made: same order, same number of showings, same validity of their times. */
  lemma {:induction false} QueuedAsMade(n: nat, states: seq<State>, steps: seq<Step>, i: nat)
    requires IsRun(n, states, steps) && i < |states|
    ensures states[i].pushed + InHand(states[i]) == Execs(states, steps, i)
  {
    if i > 0 {
      QueuedAsMade(n, states, steps, i - 1);
      MadeStep(states[i - 1], steps[i - 1]);
      hide Next, Enabled, InHand;
      var s := states[i - 1];
      assert s.pushed + InHand(s) + [] == s.pushed + InHand(s);
    }
  }

  lemma {:induction false} StoppedStays(s: State, step: Step)
    requires Enabled(s, step) && s.maker.Stopped?
    ensures Next(s, step).maker.Stopped? && Next(s, step).pushed == s.pushed
  {
    SkipStep(s, step);
    assert !MakerStep(step);
    hide Next, Enabled, SkipsRight;
  }

  lemma LastMade(s: State, step: Step)
    requires Enabled(s, step) && (step.ExecFails? || step.SequenceEnd? || step.Abort?)
    ensures Next(s, step).maker.Stopped? && Next(s, step).pushed == s.pushed
  {}

  /** After a failure of the post-processor, or the end of the sequence, no more frames are queued. */
  lemma {:induction false} FailureEndsFrames(n: nat, states: seq<State>, steps: seq<Step>, j: nat, i: nat)
    requires IsRun(n, states, steps) && j < i < |states|
    requires steps[j].ExecFails? || steps[j].SequenceEnd? || steps[j].Abort?
    ensures states[i].maker.Stopped? && states[i].pushed == states[j].pushed
  {
    if j + 1 < i {
      FailureEndsFrames(n, states, steps, j, i - 1);
      StoppedStays(states[i - 1], steps[i - 1]);
      hide Next, Enabled;
    } else {
      LastMade(states[j], steps[j]);
      hide Next, Enabled;
    }
  }

  /** STATUS_END is only set when every frame ever queued has left the queue and no more will come. */
  lemma EndAfterEverything(n: nat, states: seq<State>, steps: seq<Step>, i: nat)
    requires IsRun(n, states, steps) && i < |states| && states[i].videoEnd
    ensures states[i].maker.Stopped? && |states[i].log| == |states[i].pushed|
  {
    hide IsRun, Owned, Alert;
    RunKeepsInv(n, states, steps, i);
  }

  /** Once the video is ready, the display thread never sleeps on a frame that nobody will wake it for. */
  lemma NoMissedFrame(n: nat, states: seq<State>, steps: seq<Step>, i: nat)
    requires IsRun(n, states, steps) && i < |states| && states[i].videoReady && states[i].display.Waiting?
    requires states[i].queue != [] && !states[i].maker.Notifying?
    ensures Enabled(states[i], WaitEvent)
  {
    hide IsRun, Owned, Presented, Ended;
    RunKeepsInv(n, states, steps, i);
  }
}
