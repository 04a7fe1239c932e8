/**
 Inputs on which the code does not do what one would expect of it. When it does is said, for all
 inputs, by the theorems that each of these refers to.
 */
module FailingInputs {
  import opened Bytes
  import opened Results
  import opened AuStore
  import opened BufferedReader
  import opened Framing
  import opened Chunking
  import opened Resuming
  import opened ParseBuffer
  import opened AuLength
  import opened AudioStreams
  import opened IndexTable
  import D = DisplayProtocol

  // ---- A frame on its own (FramesSurvive)

  /** A shortest AC-3 frame. */
  function LoneFrame(): (frame: seq<byte>)
    ensures Ac3Frame(frame) && |frame| == 128
  {
    [0x0B, 0x77, 0, 0, 0] + Zeros(123)
  }

  /** A stream that is one AC-3 frame of 128 bytes gives no AU at all, however it is cut. */
  lemma LoneFrameLost(chunks: seq<seq<byte>>)
    requires Flatten(chunks) == LoneFrame()
    ensures Good(AC3) && Total(AC3, chunks) == []
  {
    Ac3Good();
    var frame := LoneFrame();
    Ac3WellFormed(frame);
    assert Flatten([frame]) == frame;
    hide WellFormed, Feed, Flatten;
    FramesSurviveChunking(AC3, [frame], chunks);
  }

  // ---- Chunks too small for the parse buffer (Ac3Buffer)

  /** A long AC-3 frame in chunks of 100 bytes: the third does not fit a buffer of 200. */
  lemma SmallChunksOverrun(rest: seq<seq<byte>>)
    ensures var frame := LongestAc3();
      Good(AC3) && !WritesFit(AC3, 100, [], true, [frame[..100], frame[100..200], frame[200..300]] + rest)
  {
    Ac3Good();
    var frame := LongestAc3();
    Ac3WellFormed(frame);
    hide *;
    var a, b, c := frame[..100], frame[100..200], frame[200..300];
    assert [] + a == a && [] + a + b == frame[..200];
    HeadStays(AC3, frame, [] + a);
    HeadStays(AC3, frame, [] + a + b);
    ThirdOverruns(AC3, [a, b, c] + rest);
  }

  lemma SecondOverruns(f: Format, w: seq<byte>, chunks: seq<seq<byte>>)
    requires Good(f) && |w| == 100 && |chunks| >= 2 && |chunks[0]| == |chunks[1]| == 100
    requires DrainAll(f, w + chunks[0], true) == Outcome([], w + chunks[0], true, false)
    ensures !WritesFit(f, 100, w, true, chunks)
  {
    hide *;
    FullOverruns(f, 100, w + chunks[0], chunks[1..]);
    KeptOverruns(f, 100, w, chunks);
  }

  /** The third of three chunks of 100 bytes does not fit behind the first two. */
  lemma ThirdOverruns(f: Format, chunks: seq<seq<byte>>)
    requires Good(f) && |chunks| >= 3 && |chunks[0]| == |chunks[1]| == |chunks[2]| == 100
    requires DrainAll(f, [] + chunks[0], true) == Outcome([], [] + chunks[0], true, false)
    requires DrainAll(f, [] + chunks[0] + chunks[1], true) == Outcome([], [] + chunks[0] + chunks[1], true, false)
    ensures !WritesFit(f, 100, [], true, chunks)
  {
    hide *;
    SecondOverruns(f, [] + chunks[0], chunks[1..]);
    KeptOverruns(f, 100, [], chunks);
  }

  // ---- AUs longer than their buffer (MpegAusFit, LongAuDisturbed)

  /** An MPEG frame of the family that does not fit an AU buffer. */
  function LongFrame(): (frame: seq<byte>)
    ensures MpegFrame(frame) && |frame| == 2304 && LongHeader(frame) && frame[0] == 0xFF && frame[2048] == 0
  {
    [0xFF, 0xF6, 0xE8] + Zeros(2301)
  }

  /** Two such frames in a row in AU buffers of 2048 bytes: storing the second changes the first. */
  lemma LongFramesOverlap(s: Store, au: nat)
    requires s.Valid() && s.stride == 2048 && au + 2 < |s.sizes|
    ensures var frame := LongFrame();
      && s.Room(au, |frame|) && s.Put(au, frame).Room(au + 1, |frame|)
      && s.Put(au, frame).Put(au + 1, frame).At(au) != frame
  {
    var frame := LongFrame();
    SlotsInside(s, au + 1);
    SlotsInside(s, au + 2);
    assert Slot(2048, au + 1) == Slot(2048, au) + 2048 && Slot(2048, au + 2) == Slot(2048, au + 1) + 2048;
    PutOwn(s, au, frame);
    var t := s.Put(au, frame);
    hide Slot, Store.At, LongFrame;
    PutNext(t, au, frame);
    assert frame[2048 + 0] != frame[0];
  }

  // ---- Layer I (StandardLengths)

  /** An MPEG-1 Layer I header at 384 kbit/s and 44.1 kHz announces 416 bytes and is taken to announce 1253. */
  lemma LayerOneMisread(h4: byte)
    ensures StandardLength(1, 3, 12, 0, 0) == 416 && MPEG.length(0xFF, 0xC0, h4) == 1253
  {
    MpegHeader(1, 3, 1, 12, 0, 0, 0, h4);
    assert MpegKbps(1, 3, 12) == 384 && MpegHz(1, 0) == 44100;
  }

  // ---- Absolute offsets (ConventionsAgree)

  /** The index of a list at offset 100 whose first entry is a chunk of stream 0 that far into the list. */
  function FarIndex(): seq<IndexEntry> {
    [IndexEntry('0' as int, '0' as int, 0, 104, 16)]
  }

  /** Its offset is mistaken for an absolute one, and the tables of stream 0 differ. */
  lemma FarIndexMistaken()
    ensures var es, abs := FarIndex(), Absolute(FarIndex(), 100);
      && BaseOf(es, 100) == 0 && BaseOf(abs, 100) == 0
      && Table(es, 0, 0) == [Position(112, 16, 0)] && Table(abs, 0, 0) == [Position(212, 16, 0)]
  {
    var es, abs := FarIndex(), Absolute(FarIndex(), 100);
    assert es[..0] == [] && abs[..0] == [];
    assert Table(es[..0], 0, 0) == [] && Table(abs[..0], 0, 0) == [];
  }

  // ---- A video shorter than the queue (ShortVideoNeverShown)

  /** A stretch of a run. */
  ghost predicate Stretch(states: seq<D.State>, steps: seq<D.Step>) {
    && |states| == |steps| + 1
    && forall i | 0 <= i < |steps| ::
         D.Enabled(states[i], steps[i]) && states[i + 1] == D.Next(states[i], steps[i])
  }

  lemma StretchOn(a: seq<D.State>, s: seq<D.Step>, b: seq<D.State>, r: seq<D.Step>)
    requires Stretch(a, s) && Stretch(b, r) && a[|s|] == b[0]
    ensures Stretch(a + b[1..], s + r)
  {
    var states, steps := a + b[1..], s + r;
    forall i | 0 <= i < |steps| ensures D.Enabled(states[i], steps[i]) && states[i + 1] == D.Next(states[i], steps[i]) {
      if i >= |s| { assert states[i] == b[i - |s|] && states[i + 1] == b[i - |s| + 1] && steps[i] == r[i - |s|]; }
    }
  }

  /** One frame is made for a queue of two. */
  function MakeOne(): seq<D.Step> {
    [D.StartPop, D.TakeBuffer, D.Exec(1, true), D.PushFrame]
  }

  /** That is not enough to start: the display wakes up and goes to sleep again. */
  function WakeOnce(): seq<D.Step> {
    [D.Notify, D.WaitEvent, D.CheckReady, D.Decide(true, D.Normal)]
  }

  /** The end of the sequence wakes it up once more. */
  function WakeAtEnd(): seq<D.Step> {
    [D.SequenceEnd, D.WaitEvent, D.CheckReady, D.Decide(true, D.Normal)]
  }

  function Asleep(): D.State {
    var q := [D.FrameInfo(1, 1, true)];
    D.State([0], q, None, D.Idle, D.Waiting, false, true, false, true, false, false, 2, q, 0, [])
  }

  lemma OneMade() returns (states: seq<D.State>)
    ensures Stretch(states, MakeOne()) && states[0] == D.Init(2)
    ensures states[|MakeOne()|] == Asleep().(maker := D.Notifying)
  {
    var s1 := D.Next(D.Init(2), D.StartPop);
    var s2 := D.Next(s1, D.TakeBuffer);
    var s3 := D.Next(s2, D.Exec(1, true));
    states := [D.Init(2), s1, s2, s3, D.Next(s3, D.PushFrame)];
    assert D.Init(2).pool == [0, 1];
  }

  lemma WokenOnce() returns (states: seq<D.State>)
    ensures Stretch(states, WakeOnce()) && states[0] == Asleep().(maker := D.Notifying)
    ensures states[|WakeOnce()|] == Asleep()
  {
    var s0 := Asleep().(maker := D.Notifying);
    var s1 := D.Next(s0, D.Notify);
    var s2 := D.Next(s1, D.WaitEvent);
    var s3 := D.Next(s2, D.CheckReady);
    states := [s0, s1, s2, s3, D.Next(s3, D.Decide(true, D.Normal))];
  }

  lemma AsleepAgain() returns (states: seq<D.State>)
    ensures Stretch(states, WakeAtEnd()) && states[0] == Asleep()
    ensures states[|WakeAtEnd()|] == Asleep().(maker := D.Stopped, sequence := false, mySequence := false)
    ensures !D.Enabled(states[|WakeAtEnd()|], D.WaitEvent)
  {
    var s1 := D.Next(Asleep(), D.SequenceEnd);
    var s2 := D.Next(s1, D.WaitEvent);
    var s3 := D.Next(s2, D.CheckReady);
    states := [Asleep(), s1, s2, s3, D.Next(s3, D.Decide(true, D.Normal))];
  }

  /** Then the frame is queued and the sequence over, but the display sleeps, and nothing is left to wake it up. */
  lemma ShortVideoSleeps() returns (states: seq<D.State>, steps: seq<D.Step>)
    ensures D.IsRun(2, states, steps)
    ensures var s := states[|steps|];
      && |s.queue| == 1 && !s.sequence && s.maker.Stopped? && s.display.Waiting?
      && !D.Enabled(s, D.WaitEvent) && !s.videoEnd
  {
    var first := OneMade();
    var second := WokenOnce();
    var third := AsleepAgain();
    hide D.Next, D.Enabled, D.Init;
    StretchOn(first, MakeOne(), second, WakeOnce());
    states, steps := first + second[1..], MakeOne() + WakeOnce();
    assert states[|steps|] == second[|WakeOnce()|];
    StretchOn(states, steps, third, WakeAtEnd());
    states, steps := states + third[1..], steps + WakeAtEnd();
    assert states[|steps|] == third[|WakeAtEnd()|];
  }

  // ---- A switch without a seek (SwitchWithoutSeek)

  /** A file of two bytes, one of them read, the other pooled: read after the switch, it is not found. */
  method OnePooledByte() returns (right: seq<byte>, got: seq<byte>)
    ensures right == [2] && got == []
  {
    var file: seq<byte> := [1, 2];
    var r := new UtilBufferedFileReader(file);
    var dst := new byte[1];
    var copied := r.ReadSome(dst, 0, 1);
    right := ReadBytes(file, r.filePos, 1);
    got := r.SwitchThenRead(1);
  }
}
