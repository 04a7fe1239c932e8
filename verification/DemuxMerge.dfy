/**
 The demultiplexer's thread over all the streams of a file: which stream it parses next, and in
 what order the positions of the index are worked through. What the parser of a stream answers is
 left to the environment; EsParser says what it does.
 */
module DemuxMerge {
  import opened Results
  import opened RingQueue

  /** An opened file: which streams a decoder is attached to, and the offsets of each one's chunks. */
  datatype File = File(enabled: seq<bool>, offsets: seq<seq<nat>>, fileSize: nat) {
    predicate Valid() { |enabled| == |offsets| }

    /** Stream `i` has a position left to work on, inside the file. */
    predicate Ready(pos: seq<nat>, i: nat) {
      && i < |enabled| == |offsets| == |pos| && enabled[i]
      && pos[i] < |offsets[i]| && offsets[i][pos[i]] < fileSize
    }

    function Head(pos: seq<nat>, i: nat): nat
      requires Ready(pos, i)
    {
      offsets[i][pos[i]]
    }

    /** Stream `i` has the smallest offset of all, and the smallest index of those that tie. */
    ghost predicate Least(pos: seq<nat>, i: nat) {
      && Ready(pos, i)
      && forall j: nat | Ready(pos, j) :: Head(pos, i) < Head(pos, j) || (Head(pos, i) == Head(pos, j) && i <= j)
    }
  }

  /** One position of the index: chunk `index` of stream `stream`. */
  datatype Entry = Entry(stream: nat, index: nat)

  /** errorCode of the thread: still at work, told the decoders DMUX_DONE, or stopped by an error. */
  datatype Phase = Running | Done | Aborted

  /** Where the thread stands; `served` lists the positions it is done with, in order. */
  datatype State = State(pos: seq<nat>, lastError: seq<RetCode>, served: seq<Entry>, phase: Phase)

  /** As aviDmuxClearParseInfo leaves the streams. */
  function Start(file: File): State {
    State(seq(|file.offsets|, _ => 0), seq(|file.offsets|, _ => CellOk), [], Running)
  }

  /** Stream `i` is waiting for a free AU. */
  predicate Full(file: File, s: State, i: nat) {
    i < |file.enabled| == |s.lastError| && file.enabled[i] && s.lastError[i] == ErrFull
  }

  /** The stream that the thread turns to: the first one that is full, or else the least. */
  ghost predicate Target(file: File, s: State, i: nat) {
    && i < |s.pos| == |s.lastError|
    && if Full(file, s, i) then forall j: nat | j < i :: !Full(file, s, j)
       else file.Least(s.pos, i) && forall j: nat :: !Full(file, s, j)
  }

  ghost predicate NoTarget(file: File, s: State) {
    forall j: nat :: !Full(file, s, j) && !file.Ready(s.pos, j)
  }

  /** A round of the thread in which the parser of stream `i` answers `ret`. */
  function Serve(s: State, i: nat, ret: RetCode): State
    requires i < |s.pos| == |s.lastError|
  {
    var t := s.(lastError := s.lastError[i := ret]);
    if ret == ErrFull then t
    else if ret != CellOk then t.(phase := Aborted)
    else t.(pos := s.pos[i := s.pos[i] + 1], served := s.served + [Entry(i, s.pos[i])])
  }

  /** Any round: `ret` is what the parser of the stream turned to answers. */
  ghost predicate Round(file: File, s: State, ret: RetCode, t: State) {
    && s.phase.Running?
    && ((NoTarget(file, s) && t == s.(phase := Phase.Done))
     || (exists i: nat :: Target(file, s, i) && t == Serve(s, i, ret)))
  }

  lemma ServeKeepsReady(file: File, s: State, i: nat, ret: RetCode)
    requires file.Valid() && |s.pos| == |s.lastError| == |file.offsets| && Target(file, s, i)
    requires forall j: nat | Full(file, s, j) :: file.Ready(s.pos, j)
    ensures forall j: nat | Full(file, Serve(s, i, ret), j) :: file.Ready(Serve(s, i, ret).pos, j)
  {
    var t := Serve(s, i, ret);
    forall j: nat | Full(file, t, j) ensures file.Ready(t.pos, j) {
      if j != i { assert Full(file, s, j); }
    }
  }

  // ---- The thread's state in place

  class AviDmuxCtlInfo {
    const file: File
    const positionIndex: array<nat>
    const parseLastError: array<RetCode>
    var errorCode: Phase
    ghost var served: seq<Entry>

    ghost function Current(): State
      reads this, positionIndex, parseLastError
    {
      State(positionIndex[..], parseLastError[..], served, errorCode)
    }

    /** Every stream has its places; one that is full is at a position it could not finish. */
    ghost predicate Valid()
      reads this, positionIndex, parseLastError
    {
      && file.Valid() && positionIndex.Length == parseLastError.Length == |file.enabled|
      && forall i: nat | Full(file, Current(), i) :: file.Ready(positionIndex[..], i)
    }

    constructor (file: File)
      requires file.Valid()
      ensures Valid() && this.file == file && fresh(positionIndex) && fresh(parseLastError)
      ensures Current() == Start(file)
    {
      this.file := file;
      positionIndex := new nat[|file.enabled|](_ => 0);
      parseLastError := new RetCode[|file.enabled|](_ => CellOk);
      errorCode := Running;
      served := [];
    }

    method SearchTargetStream() returns (target: Option<nat>)
      requires Valid()
      ensures target.Some? ==> Target(file, Current(), target.value)
      ensures target.None? ==> NoTarget(file, Current())
    {
      target := None;
      var offset := file.fileSize;
      ghost var pos := positionIndex[..];
      for i := 0 to |file.enabled|
        invariant forall j: nat | j < i :: !Full(file, Current(), j)
        invariant target.Some? ==>
          var t := target.value;
          && t < i && file.Ready(pos, t) && file.Head(pos, t) == offset
          && forall j: nat | j < i && file.Ready(pos, j) ::
               offset < file.Head(pos, j) || (offset == file.Head(pos, j) && t <= j)
        invariant target.None? ==> offset == file.fileSize && forall j: nat | j < i :: !file.Ready(pos, j)
      {
        if !file.enabled[i] { continue; }
        if parseLastError[i] == ErrFull {
          target := Some(i);
          break;
        }
        if positionIndex[i] < |file.offsets[i]| && file.offsets[i][positionIndex[i]] < offset {
          target := Some(i);
          offset := file.offsets[i][positionIndex[i]];
        }
      }
    }

    /** One turn of the thread's loop, past its wait. */
    method ServeNext(ret: RetCode)
      requires Valid() && errorCode.Running?
      modifies this, positionIndex, parseLastError
      ensures Valid() && Round(file, old(Current()), ret, Current())
    {
      var target := SearchTargetStream();
      if target.Some? {
        var i := target.value;
        parseLastError[i] := ret;
        if ret == ErrFull {
        } else if ret != CellOk {
          errorCode := Aborted;
        } else {
          served := served + [Entry(i, positionIndex[i])];
          positionIndex[i] := positionIndex[i] + 1;
        }
        ServeKeepsReady(file, old(Current()), i, ret);
        assert Current() == Serve(old(Current()), i, ret);
      } else {
        errorCode := Phase.Done;
      }
    }
  }

  // ---- The order of service, with nobody ever full

  /** The least of the first `n` streams. */
  function Winner(file: File, pos: seq<nat>, n: nat): (w: Option<nat>)
    ensures w.Some? ==>
      && w.value < n && file.Ready(pos, w.value)
      && forall j: nat | j < n && file.Ready(pos, j) ::
           file.Head(pos, w.value) < file.Head(pos, j) || (file.Head(pos, w.value) == file.Head(pos, j) && w.value <= j)
    ensures w.None? ==> forall j: nat | j < n :: !file.Ready(pos, j)
  {
    if n == 0 then None
    else
      var w := Winner(file, pos, n - 1);
      if file.Ready(pos, n - 1) && (w.None? || file.Head(pos, n - 1) < file.Head(pos, w.value)) then Some(n - 1) else w
  }

  lemma WinnerIsLeast(file: File, pos: seq<nat>, i: nat)
    ensures file.Least(pos, i) <==> Winner(file, pos, |file.offsets|) == Some(i)
  {}

  /** Positions and services after `n` rounds that all succeed. */
  function Plain(file: File, n: nat): (seq<nat>, seq<Entry>) {
    if n == 0 then (seq(|file.offsets|, _ => 0), [])
    else
      var (pos, served) := Plain(file, n - 1);
      match Winner(file, pos, |file.offsets|)
      case Some(i) => (pos[i := pos[i] + 1], served + [Entry(i, pos[i])])
      case None => (pos, served)
  }

  lemma {:induction false} PlainPrefix(file: File, m: nat, n: nat)
    requires m <= n
    ensures Plain(file, m).1 <= Plain(file, n).1
  {
    if m < n { PlainPrefix(file, m, n - 1); }
  }

  // ---- What every round keeps

  ghost predicate Inv(file: File, s: State) {
    && file.Valid() && |s.pos| == |s.lastError| == |file.offsets|
    && (s.pos, s.served) == Plain(file, |s.served|)
    && (forall i: nat | Full(file, s, i) :: file.Least(s.pos, i))
    && (s.phase.Done? ==> NoTarget(file, s))
  }

  lemma AtMostOneFull(file: File, s: State, i: nat, j: nat)
    requires Inv(file, s) && Full(file, s, i) && Full(file, s, j)
    ensures i == j
  {
    assert file.Least(s.pos, i) && file.Least(s.pos, j);
  }

  lemma TargetIsLeast(file: File, s: State, i: nat)
    requires Inv(file, s) && Target(file, s, i)
    ensures file.Least(s.pos, i)
    ensures forall j: nat | Full(file, s, j) :: j == i
  {
    if Full(file, s, i) {
      forall j: nat | Full(file, s, j) ensures j == i { AtMostOneFull(file, s, i, j); }
    }
  }

  lemma ServeKeepsInv(file: File, s: State, i: nat, ret: RetCode)
    requires Inv(file, s) && Target(file, s, i) && s.phase.Running?
    ensures Inv(file, Serve(s, i, ret)) && s.served <= Serve(s, i, ret).served
  {
    TargetIsLeast(file, s, i);
    WinnerIsLeast(file, s.pos, i);
    hide Winner, NoTarget, Target, File.Least;
    forall j: nat | Full(file, Serve(s, i, ret), j) ensures j == i {
      assert j == i || Full(file, s, j);
    }
  }

  lemma DoneKeepsInv(file: File, s: State)
    requires Inv(file, s) && NoTarget(file, s)
    ensures Inv(file, s.(phase := Phase.Done))
  {
    hide Plain, File.Least, File.Ready;
    var t := s.(phase := Phase.Done);
    assert forall i: nat :: Full(file, t, i) == Full(file, s, i);
  }

  lemma RoundKeepsInv(file: File, s: State, ret: RetCode, t: State)
    requires Inv(file, s) && Round(file, s, ret, t)
    ensures Inv(file, t) && s.served <= t.served
  {
    hide Inv, Serve, NoTarget, Full, File.Least;
    if NoTarget(file, s) && t == s.(phase := Phase.Done) {
      DoneKeepsInv(file, s);
    } else {
      var i: nat :| Target(file, s, i) && t == Serve(s, i, ret);
      ServeKeepsInv(file, s, i, ret);
    }
  }

  // ---- What the order of service is

  /** Offsets grow along each stream, as a file's chunks do. */
  ghost predicate Ascending(file: File) {
    forall i, k, l | 0 <= i < |file.offsets| && 0 <= k < l < |file.offsets[i]| ::
      file.offsets[i][k] <= file.offsets[i][l]
  }

  predicate Exists(file: File, e: Entry) {
    && e.stream < |file.offsets| == |file.enabled| && file.enabled[e.stream] && e.index < |file.offsets[e.stream]|
    && file.offsets[e.stream][e.index] < file.fileSize
  }

  function Offset(file: File, e: Entry): nat
    requires Exists(file, e)
  {
    file.offsets[e.stream][e.index]
  }

  /** By offset, then by stream, then by place in the stream. */
  predicate Before(file: File, a: Entry, b: Entry) {
    && Exists(file, a) && Exists(file, b)
    && (Offset(file, a) < Offset(file, b)
     || (Offset(file, a) == Offset(file, b)
      && (a.stream < b.stream || (a.stream == b.stream && a.index < b.index))))
  }

  ghost predicate Sorted(file: File, s: seq<Entry>) {
    forall a, b | 0 <= a < b < |s| :: Before(file, s[a], s[b])
  }

  /** The positions served are those behind each stream's positionIndex. */
  ghost predicate Behind(file: File, pos: seq<nat>, served: seq<Entry>) {
    && |pos| == |file.offsets|
    && (forall e <- served :: Exists(file, e) && e.index < pos[e.stream])
    && (forall i, k: nat | 0 <= i < |pos| && k < pos[i] :: Entry(i, k) in served)
  }

  /** Whatever is served comes before whatever is not. */
  ghost predicate Fence(file: File, pos: seq<nat>, served: seq<Entry>)
    requires |pos| == |file.offsets|
  {
    forall e <- served, x: Entry | Exists(file, x) && pos[x.stream] <= x.index :: Before(file, e, x)
  }

  lemma ServedBehind(file: File, pos: seq<nat>, served: seq<Entry>, i: nat)
    requires Behind(file, pos, served) && file.Ready(pos, i)
    ensures Behind(file, pos[i := pos[i] + 1], served + [Entry(i, pos[i])])
    ensures Entry(i, pos[i]) !in served
  {}

  /** The least head comes before every other position not served, when offsets ascend. */
  lemma LeastFirst(file: File, pos: seq<nat>, i: nat, x: Entry)
    requires Ascending(file) && file.Least(pos, i) && Exists(file, x) && pos[x.stream] <= x.index
    requires x != Entry(i, pos[i])
    ensures Before(file, Entry(i, pos[i]), x)
  {
    HeadReady(file, pos, x);
  }

  lemma ServedFence(file: File, pos: seq<nat>, served: seq<Entry>, i: nat)
    requires Ascending(file) && |pos| == |file.offsets| && file.Least(pos, i)
    requires Fence(file, pos, served) && Sorted(file, served)
    ensures Fence(file, pos[i := pos[i] + 1], served + [Entry(i, pos[i])])
    ensures Sorted(file, served + [Entry(i, pos[i])])
  {
    var pos', e' := pos[i := pos[i] + 1], Entry(i, pos[i]);
    forall e <- served + [e'], x: Entry | Exists(file, x) && pos'[x.stream] <= x.index
      ensures Before(file, e, x)
    {
      if e == e' { LeastFirst(file, pos, i, x); }
    }
    assert Exists(file, e');
  }

  lemma {:induction false} PlainMerges(file: File, n: nat)
    requires file.Valid()
    ensures var (pos, served) := Plain(file, n);
            Behind(file, pos, served) && (Ascending(file) ==> Fence(file, pos, served) && Sorted(file, served))
  {
    if n > 0 {
      PlainMerges(file, n - 1);
      var (pos, served) := Plain(file, n - 1);
      var w := Winner(file, pos, |file.offsets|);
      if w.Some? {
        WinnerIsLeast(file, pos, w.value);
        ServedBehind(file, pos, served, w.value);
        if Ascending(file) { ServedFence(file, pos, served, w.value); }
      }
    }
  }

  // ---- Runs

  ghost predicate IsRun(file: File, states: seq<State>, answers: seq<RetCode>) {
    && |states| == |answers| + 1 && states[0] == Start(file)
    && forall i | 0 <= i < |answers| :: Round(file, states[i], answers[i], states[i + 1])
  }

  lemma {:induction false} RunKeepsInv(file: File, states: seq<State>, answers: seq<RetCode>, i: nat)
    requires file.Valid() && IsRun(file, states, answers) && i < |states|
    ensures Inv(file, states[i])
  {
    hide Inv, Round;
    if i == 0 {
      StartInv(file);
    } else {
      RunKeepsInv(file, states, answers, i - 1);
      RoundKeepsInv(file, states[i - 1], answers[i - 1], states[i]);
    }
  }

  lemma StartInv(file: File)
    requires file.Valid()
    ensures Inv(file, Start(file))
  {}

  /**
   In every reachable state at most one stream is full, and the stream that is full is the one
   whose turn it is by offset; DMUX_DONE is sent only when no stream is left with a position
   inside the file.
   */
  lemma OneFull(file: File, states: seq<State>, answers: seq<RetCode>, i: nat)
    requires file.Valid() && IsRun(file, states, answers) && i < |states|
    ensures forall j, k: nat | Full(file, states[i], j) && Full(file, states[i], k) :: j == k
    ensures forall j: nat | Full(file, states[i], j) :: file.Least(states[i].pos, j)
    ensures states[i].phase.Done? ==> forall j: nat :: !Full(file, states[i], j) && !file.Ready(states[i].pos, j)
  {
    hide IsRun;
    RunKeepsInv(file, states, answers, i);
    forall j, k: nat | Full(file, states[i], j) && Full(file, states[i], k) ensures j == k {
      AtMostOneFull(file, states[i], j, k);
    }
  }

  /**
   What a parser's answer does to the run. Success completes the least pending position and no other;
   running out of AUs changes nothing but that the stream is full; any other answer ends the thread with
   nothing completed. With no stream left the thread ends as well, whatever is answered.
   */
  lemma AnswerOutcome(file: File, states: seq<State>, answers: seq<RetCode>, i: nat)
    requires file.Valid() && IsRun(file, states, answers) && i < |answers|
    ensures var s, t, ret := states[i], states[i + 1], answers[i];
      if forall j: nat :: !Full(file, s, j) && !file.Ready(s.pos, j) then t == s.(phase := Phase.Done)
      else exists k: nat | file.Least(s.pos, k) && k < |s.lastError| ::
             if ret == CellOk then
               t == s.(lastError := s.lastError[k := CellOk], pos := s.pos[k := s.pos[k] + 1],
                       served := s.served + [Entry(k, s.pos[k])])
             else if ret == ErrFull then t == s.(lastError := s.lastError[k := ErrFull])
             else t == s.(lastError := s.lastError[k := ret], phase := Aborted)
    ensures !states[i + 1].phase.Running? ==> i + 1 == |answers|
  {
    RunKeepsInv(file, states, answers, i);
    var s, t := states[i], states[i + 1];
    assert Round(file, s, answers[i], t);
    assert i + 1 < |answers| ==> Round(file, t, answers[i + 1], states[i + 2]);
    hide IsRun, Plain, File.Ready;
    if !NoTarget(file, s) {
      var k: nat :| Target(file, s, k) && t == Serve(s, k, answers[i]);
      TargetIsLeast(file, s, k);
    } else {
      forall k: nat ensures !Target(file, s, k) { NoneTargeted(file, s, k); }
    }
  }

  lemma NoneTargeted(file: File, s: State, k: nat)
    requires NoTarget(file, s)
    ensures !Target(file, s, k)
  {}

  /** How often, and when, parsers were full does not change the order: one run's is a prefix of the other's. */
  lemma OrderIgnoresFulls(file: File, states: seq<State>, answers: seq<RetCode>, i: nat,
                          states': seq<State>, answers': seq<RetCode>, i': nat)
    requires file.Valid() && IsRun(file, states, answers) && i < |states|
    requires IsRun(file, states', answers') && i' < |states'|
    requires |states[i].served| <= |states'[i'].served|
    ensures states[i].served <= states'[i'].served
  {
    hide IsRun;
    RunKeepsInv(file, states, answers, i);
    RunKeepsInv(file, states', answers', i');
    PlainPrefix(file, |states[i].served|, |states'[i'].served|);
  }

  /**
   When the offsets of each stream ascend, the positions are served as the stable merge of the
   streams: in order of offset, ties going to the lower stream, each position exactly once, and
   none that is served comes after one that is not.
   */
  lemma ServedIsMerge(file: File, states: seq<State>, answers: seq<RetCode>, i: nat)
    requires file.Valid() && Ascending(file) && IsRun(file, states, answers) && i < |states|
    ensures var s := states[i];
            && Sorted(file, s.served)
            && Behind(file, s.pos, s.served)
            && (forall e <- s.served, x: Entry | Exists(file, x) && x !in s.served :: Before(file, e, x))
  {
    hide IsRun, Before, Exists, Plain, File.Least;
    RunKeepsInv(file, states, answers, i);
    var s := states[i];
    PlainMerges(file, |s.served|);
    forall e <- s.served, x: Entry | Exists(file, x) && x !in s.served ensures Before(file, e, x) {
      NotServed(file, s.pos, s.served, x);
    }
  }

  lemma NotServed(file: File, pos: seq<nat>, served: seq<Entry>, x: Entry)
    requires Behind(file, pos, served) && Exists(file, x)
    ensures x.stream < |file.offsets| && (x in served <==> x.index < pos[x.stream])
  {
    assert x == Entry(x.stream, x.index);
  }

  lemma HeadReady(file: File, pos: seq<nat>, x: Entry)
    requires Ascending(file) && |pos| == |file.offsets| && Exists(file, x) && pos[x.stream] <= x.index
    ensures file.Ready(pos, x.stream)
  {
    assert file.offsets[x.stream][pos[x.stream]] <= file.offsets[x.stream][x.index];
  }

  /** When DMUX_DONE is sent, every position inside the file has been served. */
  lemma DoneServedAll(file: File, states: seq<State>, answers: seq<RetCode>, i: nat, x: Entry)
    requires file.Valid() && Ascending(file) && IsRun(file, states, answers) && i < |states|
    requires states[i].phase.Done?
    ensures x in states[i].served <==> Exists(file, x)
  {
    hide IsRun, Plain;
    RunKeepsInv(file, states, answers, i);
    var s := states[i];
    PlainMerges(file, |s.served|);
    if Exists(file, x) {
      NotServed(file, s.pos, s.served, x);
      if s.pos[x.stream] <= x.index { HeadReady(file, s.pos, x); }
    }
  }
}
