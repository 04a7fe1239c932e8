/**
 Feeding a stream to the parser chunk by chunk, as the file's index cut it, with an AU buffer
 always free. The AUs do not depend on where the chunk boundaries fall.
 */
module Chunking {
  import opened Bytes
  import opened Framing

  /** Parses after each chunk; the window and the flag carry over. */
  function Feed(f: Format, w: seq<byte>, search: bool, chunks: seq<seq<byte>>): Outcome
    requires Good(f)
    decreases |chunks|
  {
    if chunks == [] then Outcome([], w, search, false)
    else
      var o := DrainAll(f, w + chunks[0], search);
      Joined(o, Feed(f, o.window, o.search, chunks[1..]))
  }

  /**
   In the parse of `w` as one chunk, whenever the parser is locked (not searching) and has a
   header to look at, the next sync word is where the last AU ended.
   */
  ghost predicate Steady(f: Format, w: seq<byte>, search: bool)
    requires Good(f)
    decreases |w|
  {
    && (!search && |w| > 4 ==> AtSync(f, w, 0))
    && match ParseTurn(f, w, search, ZEROS)
       case Stop(_, _) => true
       case Slide(w') => Steady(f, w', search)
       case Cut(_, w') => Steady(f, w', false)
  }

  /** Equal up to bytes at the front of the window that hold no sync word. */
  predicate Alike(f: Format, a: Outcome, b: Outcome) {
    a.aus == b.aus && a.search == b.search && Core(f, a.window) == Core(f, b.window)
  }

  // ---- While searching, only the core of the window counts

  lemma CoreTurn(f: Format, w: seq<byte>)
    requires Good(f) && f.Framed?
    ensures
      var t := ParseTurn(f, w, true, ZEROS);
      var u := ParseTurn(f, Core(f, w), true, ZEROS);
      t == u || (t.Stop? && u.Stop? && t.search && u.search && Core(f, t.window) == Core(f, u.window))
  {
    CoreIdempotent(f, w);
    assert |Core(f, w)| <= |w| && (w == [] ==> Core(f, w) == []);
    hide Core, AtSync;
  }

  lemma CoreDrain(f: Format, w: seq<byte>, free: nat)
    requires Good(f) && f.Framed?
    ensures Alike(f, Drain(f, w, true, free, ZEROS), Drain(f, Core(f, w), true, free, ZEROS))
    ensures Steady(f, w, true) == Steady(f, Core(f, w), true)
  {
    CoreTurn(f, w);
    hide ParseTurn, Core;
  }

  lemma CoreAppend(f: Format, a: seq<byte>, b: seq<byte>)
    requires f.Framed?
    ensures Core(f, a + b) == Core(f, Core(f, a) + b)
    ensures |Core(f, a)| > 1 ==> Core(f, a + b) == Core(f, a) + b
  {
    if a != [] {
      var h := SyncIndex(f, a, 0);
      assert a + b == a[..h] + (a[h..] + b);
      assert forall k: nat | k < h :: AtSync(f, a + b, k) == AtSync(f, a, k);
      CoreSkip(f, a[..h], a[h..] + b);
      CoreIdempotent(f, a[h..] + b);
      if AtSync(f, a, h) { assert AtSync(f, a[h..] + b, 0); }
    }
  }

  /** Bytes at the front that start no sync word are not in the core. */
  lemma CoreSkip(f: Format, p: seq<byte>, w: seq<byte>)
    requires f.Framed? && w != []
    requires forall k: nat | k < |p| :: !AtSync(f, p + w, k)
    ensures Core(f, p + w) == Core(f, w)
  {
    assert forall k: nat | k < |w| :: AtSync(f, w, k) == AtSync(f, p + w, |p| + k);
    var g, h := SyncIndex(f, p + w, 0), SyncIndex(f, w, 0);
    assert AtSync(f, p + w, |p| + h) || |p| + h == |p + w| - 1;
    assert g >= |p| && (AtSync(f, w, g - |p|) || g - |p| == |w| - 1);
    assert (p + w)[|p| + SyncIndex(f, w, 0)..] == w[SyncIndex(f, w, 0)..];
  }

  // ---- Cutting a stream in two

  /** A turn on `a` goes as it would with `b` already there, or stops with nothing lost. */
  lemma TurnSplit(f: Format, a: seq<byte>, b: seq<byte>, search: bool)
    requires Good(f) && f.Framed?
    requires !search && |a + b| > 4 ==> AtSync(f, a + b, 0)
    ensures
      match ParseTurn(f, a, search, ZEROS)
      case Stop(w', s') => s' == search && (w' == a || (search && w' == Core(f, a)))
      case Slide(w') => ParseTurn(f, a + b, search, ZEROS) == Slide(w' + b)
      case Cut(au, w') => ParseTurn(f, a + b, search, ZEROS) == Cut(au, w' + b)
  {
    if |a| > 4 {
      CoreAppend(f, a, b);
      if !search { assert AtSync(f, a, 0); }
      var c := Core(f, a);
      if |c| > 4 { HeaderSplit(f, c, b); }
    }
  }

  lemma HeaderSplit(f: Format, c: seq<byte>, b: seq<byte>)
    requires Good(f) && f.Framed? && |c| > 4
    ensures HeaderLength(f, c + ZEROS) == HeaderLength(f, c + b + ZEROS)
    ensures var n := HeaderLength(f, c + ZEROS);
            && (n <= |c| ==> (c + b)[..n] == c[..n] && (c + b)[n..] == c[n..] + b)
            && (n + 2 <= |c| ==> AtSync(f, c + b, n) == AtSync(f, c, n))
            && (c + b)[1..] == c[1..] + b
  {}

  /** Parsing the window again, with no new bytes, finds nothing. */
  ghost predicate Settled(f: Format, w: seq<byte>, search: bool)
    requires Good(f)
  {
    Alike(f, DrainAll(f, w, search), Outcome([], w, search, false))
  }

  lemma {:induction false} Split(f: Format, a: seq<byte>, b: seq<byte>, search: bool, free: nat)
    requires Good(f) && f.Framed? && |a + b| <= free
    requires Steady(f, a + b, search)
    ensures var r := Drain(f, a, search, free, ZEROS);
            && Steady(f, r.window + b, r.search)
            && Alike(f, Drain(f, a + b, search, free, ZEROS),
                        Joined(r, Drain(f, r.window + b, r.search, free, ZEROS)))
    decreases |a|
  {
    hide ParseTurn, Core;
    TurnSplit(f, a, b, search);
    var r := Drain(f, a, search, free, ZEROS);
    match ParseTurn(f, a, search, ZEROS)
    case Stop(w', _) => SplitStop(f, a, b, search, w', free);
    case Slide(w') => Split(f, w', b, search, free);
    case Cut(au, w') =>
      Split(f, w', b, false, free - 1);
      var r' := Drain(f, w', false, free - 1, ZEROS);
      AlikeCons(f, au, Drain(f, w' + b, false, free - 1, ZEROS), r',
                Drain(f, r'.window + b, r'.search, free - 1, ZEROS));
      WindowShrinks(f, w', false, free - 1);
      MoreBuffers(f, r'.window + b, r'.search, free - 1, free);
  }

  lemma AlikeCons(f: Format, au: seq<byte>, o: Outcome, first: Outcome, second: Outcome)
    requires Alike(f, o, Joined(first, second))
    ensures Alike(f, o.(aus := [au] + o.aus), Joined(first.(aus := [au] + first.aus), second))
  {
    JoinedCons(au, first, second);
  }

  /** What a parse leaves in the window is settled. */
  lemma {:induction false} LeavesSettled(f: Format, a: seq<byte>, b: seq<byte>, search: bool, free: nat)
    requires Good(f) && f.Framed? && |a| <= free
    requires Steady(f, a + b, search)
    ensures var r := Drain(f, a, search, free, ZEROS); Settled(f, r.window, r.search)
    decreases |a|
  {
    hide ParseTurn, Core;
    TurnSplit(f, a, b, search);
    match ParseTurn(f, a, search, ZEROS)
    case Stop(w', _) =>
      if w' != a {
        CoreDrain(f, a, |a|);
        CoreIdempotent(f, a);
        MoreBuffers(f, w', search, |a|, |w'|);
      }
    case Slide(w') => LeavesSettled(f, w', b, search, free);
    case Cut(au, w') => LeavesSettled(f, w', b, false, free - 1);
  }

  lemma {:induction false} SplitStop(f: Format, a: seq<byte>, b: seq<byte>, search: bool, w': seq<byte>, free: nat)
    requires Good(f) && f.Framed?
    requires Steady(f, a + b, search)
    requires w' == a || (search && w' == Core(f, a))
    ensures Steady(f, w' + b, search)
    ensures var second := Drain(f, w' + b, search, free, ZEROS);
            Alike(f, Drain(f, a + b, search, free, ZEROS), Joined(Outcome([], w', search, false), second))
  {
    hide ParseTurn, Core;
    if w' != a {
      CoreAppend(f, a, b);
      CoreDrain(f, w' + b, free);
      CoreDrain(f, a + b, free);
    }
    var second := Drain(f, w' + b, search, free, ZEROS);
    assert [] + second.aus == second.aus;
  }

  lemma {:induction false} WindowShrinks(f: Format, w: seq<byte>, search: bool, free: nat)
    requires Good(f)
    ensures |Drain(f, w, search, free, ZEROS).window| <= |w|
    decreases |w|
  {
    hide ParseTurn, Core;
    match ParseTurn(f, w, search, ZEROS)
    case Stop(_, _) =>
    case Slide(w') => WindowShrinks(f, w', search, free);
    case Cut(au, w') =>
      CutIsCore(f, w, search);
      if free > 0 { WindowShrinks(f, w', false, free - 1); }
  }

  lemma MoreBuffers(f: Format, w: seq<byte>, search: bool, free: nat, more: nat)
    requires Good(f) && |w| <= free && |w| <= more
    ensures Drain(f, w, search, free, ZEROS) == Drain(f, w, search, more, ZEROS)
  {
    hide ParseTurn, Core;
    EnoughBuffers(f, w, search, free);
    EnoughBuffers(f, w, search, more);
  }

  /**
   Chunk boundaries do not matter: for every stream whose parse in one piece is steady, every
   way of cutting it into chunks makes the parser emit the same AUs and end in the same state
   (up to bytes at the front of the window that can start no AU).
   */
  lemma {:induction false} ChunkBoundariesIrrelevant(f: Format, w: seq<byte>, search: bool, chunks: seq<seq<byte>>)
    requires Good(f) && f.Framed?
    requires Settled(f, w, search) && Steady(f, w + Flatten(chunks), search)
    ensures Alike(f, Feed(f, w, search, chunks), DrainAll(f, w + Flatten(chunks), search))
    decreases |chunks|
  {
    hide ParseTurn, Core;
    if chunks == [] {
      assert w + [] == w;
    } else {
      var a, b := w + chunks[0], Flatten(chunks[1..]);
      assert w + Flatten(chunks) == a + b;
      Split(f, a, b, search, |a + b|);
      LeavesSettled(f, a, b, search, |a|);
      MoreBuffers(f, a, search, |a|, |a + b|);
      var r := DrainAll(f, a, search);
      WindowShrinks(f, a, search, |a|);
      MoreBuffers(f, r.window + b, r.search, |a + b|, |r.window + b|);
      ChunkBoundariesIrrelevant(f, r.window, r.search, chunks[1..]);
    }
  }

  // ---- Streams of whole frames

  /** A frame starts with the sync word and has the length its header gives. */
  predicate WellFormed(f: Format, frame: seq<byte>) {
    && f.Framed? && |frame| > 4
    && AtSync(f, frame, 0) && |frame| == HeaderLength(f, frame)
  }

  ghost predicate AllWellFormed(f: Format, frames: seq<seq<byte>>) {
    forall fr <- frames :: WellFormed(f, fr)
  }

  lemma FrameTurn(f: Format, frame: seq<byte>, rest: seq<byte>, search: bool)
    requires Good(f) && WellFormed(f, frame)
    ensures AtSync(f, frame + rest, 0)
    ensures ParseTurn(f, frame + rest, search, ZEROS)
         == if search && |rest| < 2 then Stop(frame + rest, search)
            else if search && !AtSync(f, rest, 0) then Slide((frame + rest)[1..])
            else Cut(frame, rest)
  {
    HeaderSplit(f, frame, rest);
    var w := frame + rest;
    assert w[|frame|..] == rest && w[..|frame|] == frame;
    if |rest| >= 2 { assert w[|frame|] == rest[0] && w[|frame| + 1] == rest[1]; }
    assert HeaderLength(f, w + ZEROS) == HeaderLength(f, frame);
  }

  lemma EmptyTurn(f: Format, search: bool)
    ensures ParseTurn(f, [], search, ZEROS) == Stop([], search)
  {}

  lemma LockedFrame(f: Format, frame: seq<byte>, rest: seq<byte>, free: nat)
    requires Good(f) && WellFormed(f, frame) && 0 < free
    ensures Drain(f, frame + rest, false, free, ZEROS)
         == var o := Drain(f, rest, false, free - 1, ZEROS); o.(aus := [frame] + o.aus)
    ensures Steady(f, frame + rest, false) == Steady(f, rest, false)
  {
    hide ParseTurn, Core;
    FrameTurn(f, frame, rest, false);
  }

  lemma {:induction false} LockedParse(f: Format, frames: seq<seq<byte>>, free: nat)
    requires Good(f) && f.Framed? && AllWellFormed(f, frames) && |Flatten(frames)| <= free
    ensures Drain(f, Flatten(frames), false, free, ZEROS) == Outcome(frames, [], false, false)
    ensures Steady(f, Flatten(frames), false)
  {
    hide *;
    if frames == [] {
      NothingToParse(f, false, free);
      assert Flatten(frames) == [] by { FlattenEmpty<byte>(); }
    } else {
      FramesHead(f, frames);
      LockedFrame(f, frames[0], Flatten(frames[1..]), free);
      LockedParse(f, frames[1..], free - 1);
      assert [frames[0]] + frames[1..] == frames;
    }
  }

  lemma NothingToParse(f: Format, search: bool, free: nat)
    requires Good(f)
    ensures Drain(f, [], search, free, ZEROS) == Outcome([], [], search, false)
    ensures Steady(f, [], search)
  {
    EmptyTurn(f, search);
  }

  lemma FramesHead(f: Format, frames: seq<seq<byte>>)
    requires frames != [] && AllWellFormed(f, frames)
    ensures |frames[0]| > 4 && WellFormed(f, frames[0]) && AllWellFormed(f, frames[1..])
    ensures AtSync(f, Flatten(frames), 0) && Flatten(frames) == frames[0] + Flatten(frames[1..])
  {
    assert frames[0] in frames && forall fr <- frames[1..] :: fr in frames;
  }

  lemma FirstFrame(f: Format, frame: seq<byte>, rest: seq<byte>, free: nat)
    requires Good(f) && WellFormed(f, frame) && AtSync(f, rest, 0) && 0 < free
    ensures Drain(f, frame + rest, true, free, ZEROS)
         == var o := Drain(f, rest, false, free - 1, ZEROS); o.(aus := [frame] + o.aus)
    ensures Steady(f, frame + rest, true) == Steady(f, rest, false)
  {
    hide ParseTurn, Core;
    FrameTurn(f, frame, rest, true);
  }

  /** A frame at the front of a stream is cut off, and the parser is locked from then on. */
  lemma {:induction false} FrameThenRest(f: Format, frame: seq<byte>, rest: seq<byte>, o: Outcome)
    requires Good(f) && WellFormed(f, frame) && AtSync(f, rest, 0)
    requires |frame| > 0 && Drain(f, rest, false, |frame| + |rest| - 1, ZEROS) == o
    ensures DrainAll(f, frame + rest, true) == o.(aus := [frame] + o.aus)
    ensures Steady(f, frame + rest, true) == Steady(f, rest, false)
  {
    hide Good, WellFormed, Drain, Steady;
    assert |frame + rest| == |frame| + |rest|;
    FirstFrame(f, frame, rest, |frame + rest|);
  }

  lemma {:induction false} WholeParse(f: Format, frames: seq<seq<byte>>)
    requires Good(f) && f.Framed? && (forall fr <- frames :: WellFormed(f, fr))
    requires |frames| > 1
    ensures Steady(f, Flatten(frames), true)
    ensures DrainAll(f, Flatten(frames), true) == Outcome(frames, [], false, false)
  {
    assert AllWellFormed(f, frames) && [frames[0]] + frames[1..] == frames;
    hide *;
    var first, rest, s := frames[0], frames[1..], Flatten(frames[1..]);
    FramesHead(f, frames);
    FramesHead(f, rest);
    LockedParse(f, rest, |first| + |s| - 1);
    FrameThenRest(f, first, s, Outcome(rest, [], false, false));
  }

  lemma SingleParse(f: Format, frame: seq<byte>)
    requires Good(f) && WellFormed(f, frame)
    ensures Steady(f, frame, true)
    ensures DrainAll(f, frame, true) == Outcome([], frame, true, false)
  {
    FrameTurn(f, frame, [], true);
    assert frame + [] == frame;
  }

  /** A stream of frames as one chunk: all of them come out, but for a frame on its own. */
  lemma {:induction false} StreamParse(f: Format, frames: seq<seq<byte>>)
    requires Good(f) && f.Framed? && (forall fr <- frames :: WellFormed(f, fr))
    ensures Steady(f, Flatten(frames), true)
    ensures DrainAll(f, Flatten(frames), true)
         == if |frames| == 1 then Outcome([], frames[0], true, false) else Outcome(frames, [], |frames| == 0, false)
  {
    hide ParseTurn, Core;
    EmptyTurn(f, true);
    if |frames| > 1 {
      WholeParse(f, frames);
    } else if |frames| == 1 {
      SingleParse(f, frames[0]);
      assert Flatten(frames) == frames[0];
    }
  }

  lemma AlikeParts(f: Format, a: Outcome, b: Outcome)
    requires Alike(f, a, b)
    ensures a.aus == b.aus && a.search == b.search && Core(f, a.window) == Core(f, b.window)
  {}

  lemma CoreEmpty(f: Format, w: seq<byte>)
    ensures Core(f, w) == [] <==> w == []
  {}

  /**
   From a cleared parser, a stream made of whole frames comes out frame by frame, byte for byte
   and with nothing left over, however it was cut into chunks - unless it is a single frame:
   the first frame is only emitted once the sync word of a second one has been seen.
   */
  lemma {:induction false} FramesSurviveChunking(f: Format, frames: seq<seq<byte>>, chunks: seq<seq<byte>>)
    requires Good(f) && f.Framed? && (forall fr <- frames :: WellFormed(f, fr))
    requires Flatten(chunks) == Flatten(frames)
    ensures Feed(f, [], true, chunks).aus == frames <==> |frames| != 1
    ensures |frames| != 1 ==> Feed(f, [], true, chunks).window == []
    ensures |frames| == 1 ==> Feed(f, [], true, chunks).aus == []
  {
    StreamParse(f, frames);
    assert Settled(f, [], true);
    hide *;
    assert [] + Flatten(chunks) == Flatten(chunks);
    ChunkBoundariesIrrelevant(f, [], true, chunks);
    AlikeParts(f, Feed(f, [], true, chunks), DrainAll(f, Flatten(frames), true));
    CoreEmpty(f, []);
    CoreEmpty(f, Feed(f, [], true, chunks).window);
  }

  lemma FramesNotEmpty(f: Format, frames: seq<seq<byte>>)
    requires (forall fr <- frames :: WellFormed(f, fr)) && frames != []
    ensures Flatten(frames) != []
  {
    assert frames[0] in frames;
  }

  lemma {:induction false} LeadingBytesParse(f: Format, junk: seq<byte>, frames: seq<seq<byte>>)
    requires Good(f) && f.Framed? && (forall fr <- frames :: WellFormed(f, fr)) && |frames| > 1
    requires forall k: nat | k < |junk| :: !AtSync(f, junk + Flatten(frames), k)
    ensures var u := junk + Flatten(frames);
      Steady(f, u, true) && DrainAll(f, u, true).aus == frames && !DrainAll(f, u, true).search
  {
    var w, u := Flatten(frames), junk + Flatten(frames);
    FramesNotEmpty(f, frames);
    WholeParse(f, frames);
    hide ParseTurn, Core, WellFormed, AtSync, Drain, Steady, Good;
    CoreSkip(f, junk, w);
    CoreDrain(f, u, |u|);
    CoreDrain(f, w, |u|);
    MoreBuffers(f, w, true, |w|, |u|);
  }

  /** Nor do bytes before the first frame matter, as long as no sync word starts in them. */
  lemma {:induction false} LeadingBytesSkipped(f: Format, junk: seq<byte>, frames: seq<seq<byte>>,
      chunks: seq<seq<byte>>)
    requires Good(f) && f.Framed? && (forall fr <- frames :: WellFormed(f, fr)) && |frames| > 1
    requires forall k: nat | k < |junk| :: !AtSync(f, junk + Flatten(frames), k)
    requires Flatten(chunks) == junk + Flatten(frames)
    ensures Feed(f, [], true, chunks).aus == frames && !Feed(f, [], true, chunks).search
  {
    LeadingBytesParse(f, junk, frames);
    assert Settled(f, [], true);
    hide *;
    assert [] + Flatten(chunks) == junk + Flatten(frames);
    ChunkBoundariesIrrelevant(f, [], true, chunks);
    AlikeParts(f, Feed(f, [], true, chunks), DrainAll(f, junk + Flatten(frames), true));
  }
}
