/**
 The parse buffer: twice maxDataSize bytes, where maxDataSize is the size of the stream's largest
 chunk. Nothing in the parser checks that a chunk read behind the window, or a header read at its
 end, stays inside; here such an access ends the parse without a result.
 */
module ParseBuffer {
  import opened Bytes
  import opened Results
  import opened Framing
  import opened Chunking
  import opened Resuming

  /** Index of the deepest header byte that the next turn reads, in a window that ends before index `end`. */
  function HeaderByte(f: Format, w: seq<byte>, end: nat): int
    requires f.Framed?
  {
    end - |Core(f, w)| + f.deep
  }

  /** The next turn's header read, if there is one, stays inside `cap` bytes. */
  predicate HeaderFits(f: Format, w: seq<byte>, end: nat, cap: nat) {
    f.Framed? && |w| > 4 && |Core(f, w)| > 1 ==> HeaderByte(f, w, end) < cap
  }

  /** Every header read of a parse does. A call moves the window's start and leaves its end where it was. */
  ghost predicate ReadsFit(f: Format, w: seq<byte>, search: bool, free: nat, end: nat, cap: nat)
    requires Good(f)
    decreases |w|
  {
    && HeaderFits(f, w, end, cap)
    && match ParseTurn(f, w, search, ZEROS)
       case Stop(_, _) => true
       case Slide(w') => ReadsFit(f, w', search, free, end, cap)
       case Cut(_, w') => free > 0 ==> ReadsFit(f, w', false, free - 1, end, cap)
  }

  predicate AtMost(chunks: seq<seq<byte>>, size: nat) {
    forall c <- chunks :: |c| <= size
  }

  /** As Feed, in a buffer of twice `maxDataSize`: None once an access falls outside it. */
  ghost function FeedIn(f: Format, maxDataSize: nat, w: seq<byte>, search: bool, chunks: seq<seq<byte>>)
    : Option<Outcome>
    requires Good(f)
    decreases |chunks|
  {
    if chunks == [] then Some(Outcome([], w, search, false))
    else
      var u := w + chunks[0];
      if |u| > 2 * maxDataSize || !ReadsFit(f, u, search, |u|, |u|, 2 * maxDataSize) then None
      else
        var o := DrainAll(f, u, search);
        match FeedIn(f, maxDataSize, o.window, o.search, chunks[1..])
        case None => None
        case Some(rest) => Some(Joined(o, rest))
  }

  /** Every chunk of a stream fits behind the window it is read to. */
  ghost predicate WritesFit(f: Format, maxDataSize: nat, w: seq<byte>, search: bool, chunks: seq<seq<byte>>)
    requires Good(f)
    decreases |chunks|
  {
    chunks != [] ==>
      var u := w + chunks[0];
      var o := DrainAll(f, u, search);
      |u| <= 2 * maxDataSize && WritesFit(f, maxDataSize, o.window, o.search, chunks[1..])
  }

  // ---- A result inside the buffer is the result

  lemma {:induction false} FeedInIsFeed(f: Format, maxDataSize: nat, w: seq<byte>, search: bool, chunks: seq<seq<byte>>)
    requires Good(f) && FeedIn(f, maxDataSize, w, search, chunks).Some?
    ensures FeedIn(f, maxDataSize, w, search, chunks).value == Feed(f, w, search, chunks)
    ensures WritesFit(f, maxDataSize, w, search, chunks)
    decreases |chunks|
  {
    hide ReadsFit, Drain;
    if chunks != [] {
      var o := DrainAll(f, w + chunks[0], search);
      FeedInIsFeed(f, maxDataSize, o.window, o.search, chunks[1..]);
    }
  }

  // ---- When every access fits

  lemma {:induction false} RoomFits(f: Format, w: seq<byte>, search: bool, free: nat, end: nat, cap: nat)
    requires Good(f) && f.Framed? && end + f.deep - 1 <= cap
    ensures ReadsFit(f, w, search, free, end, cap)
    decreases |w|
  {
    hide ParseTurn, Core;
    match ParseTurn(f, w, search, ZEROS)
    case Stop(_, _) =>
    case Slide(w') => RoomFits(f, w', search, free, end, cap);
    case Cut(_, w') => if free > 0 { RoomFits(f, w', false, free - 1, end, cap); }
  }

  lemma {:induction false} WritesAlwaysFit(f: Format, maxDataSize: nat, w: seq<byte>, search: bool,
      chunks: seq<seq<byte>>)
    requires Good(f) && f.Framed? && f.maxLength < maxDataSize
    requires AtMost(chunks, maxDataSize) && |w| <= CarryBound(f)
    ensures WritesFit(f, maxDataSize, w, search, chunks)
    decreases |chunks|
  {
    hide Drain;
    if chunks != [] {
      var u := w + chunks[0];
      NeverFull(f, u, search, |u|);
      DrainCarry(f, u, search, |u|);
      WritesAlwaysFit(f, maxDataSize, DrainAll(f, u, search).window, DrainAll(f, u, search).search, chunks[1..]);
    }
  }

  lemma {:induction false} AccessesAlwaysFit(f: Format, maxDataSize: nat, w: seq<byte>, search: bool,
      chunks: seq<seq<byte>>)
    requires Good(f) && f.Framed? && f.maxLength + f.deep <= maxDataSize
    requires AtMost(chunks, maxDataSize) && |w| <= CarryBound(f)
    ensures FeedIn(f, maxDataSize, w, search, chunks).Some?
    decreases |chunks|
  {
    hide Drain, ReadsFit;
    if chunks != [] {
      var u := w + chunks[0];
      RoomFits(f, u, search, |u|, |u|, 2 * maxDataSize);
      NeverFull(f, u, search, |u|);
      DrainCarry(f, u, search, |u|);
      AccessesAlwaysFit(f, maxDataSize, DrainAll(f, u, search).window, DrainAll(f, u, search).search, chunks[1..]);
    }
  }

  lemma {:induction false} NothingFits(f: Format, chunks: seq<seq<byte>>)
    requires Good(f) && f.Framed? && AtMost(chunks, 0)
    ensures FeedIn(f, 0, [], true, chunks).Some?
    decreases |chunks|
  {
    if chunks != [] {
      EmptyTurn(f, true);
      assert [] + chunks[0] == [];
      NothingFits(f, chunks[1..]);
    }
  }

  // ---- When some access does not

  lemma CoreAtSync(f: Format, w: seq<byte>)
    requires AtSync(f, w, 0)
    ensures Core(f, w) == w
  {}

  lemma HeadTurn(f: Format, frame: seq<byte>, w: seq<byte>)
    requires Good(f) && WellFormed(f, frame) && 4 < |w| <= |frame| + 1
    requires forall k | 0 <= k < |w| && k < |frame| :: w[k] == frame[k]
    ensures ParseTurn(f, w, true, ZEROS) == Stop(w, true)
  {
    assert AtSync(f, w, 0);
    CoreAtSync(f, w);
    hide Core;
    assert (w + ZEROS)[1] == frame[1] && (w + ZEROS)[2] == frame[2] && (w + ZEROS)[4] == frame[4];
  }

  /** Until a frame is followed by two bytes of the next, the parser keeps all it has of it. */
  lemma HeadStays(f: Format, frame: seq<byte>, w: seq<byte>)
    requires Good(f) && WellFormed(f, frame) && |w| <= |frame| + 1
    requires forall k | 0 <= k < |w| && k < |frame| :: w[k] == frame[k]
    ensures DrainAll(f, w, true) == Outcome([], w, true, false)
  {
    if |w| > 4 { HeadTurn(f, frame, w); } else { ShortTurn(f, w); }
    hide ParseTurn, WellFormed;
  }

  lemma ShortTurn(f: Format, w: seq<byte>)
    requires f.Framed? && |w| <= 4
    ensures ParseTurn(f, w, true, ZEROS) == Stop(w, true)
  {}

  /** Chunks of one byte. */
  function Singles(s: seq<byte>): (r: seq<seq<byte>>)
    ensures |r| == |s| && AtMost(r, 1)
  {
    seq(|s|, i requires 0 <= i < |s| => [s[i]])
  }

  lemma {:induction false} FlattenSingles(s: seq<byte>)
    ensures Flatten(Singles(s)) == s
  {
    if s != [] {
      FlattenSingles(s[1..]);
      assert Singles(s)[1..] == Singles(s[1..]);
    }
  }

  lemma FullOverruns(f: Format, maxDataSize: nat, w: seq<byte>, chunks: seq<seq<byte>>)
    requires Good(f) && chunks != [] && |w| + |chunks[0]| > 2 * maxDataSize
    ensures !WritesFit(f, maxDataSize, w, true, chunks)
  {
    hide Drain;
  }

  /** A later chunk does not fit either if the window keeps the first one whole. */
  lemma KeptOverruns(f: Format, maxDataSize: nat, w: seq<byte>, chunks: seq<seq<byte>>)
    requires Good(f) && chunks != []
    requires DrainAll(f, w + chunks[0], true) == Outcome([], w + chunks[0], true, false)
    requires !WritesFit(f, maxDataSize, w + chunks[0], true, chunks[1..])
    ensures !WritesFit(f, maxDataSize, w, true, chunks)
  {
    hide Drain;
  }

  /** A chunk behind a carry of the longest frame and a byte overruns a buffer of twice at most that frame. */
  lemma {:induction false} CarryOverruns(f: Format, maxDataSize: nat, frame: seq<byte>, p: seq<byte>, k: nat,
                                         c: seq<byte>, rest: seq<seq<byte>>)
    requires Good(f) && WellFormed(f, frame) && |p| == |frame| + 1 && frame <= p && k <= |p|
    requires |p| + |c| > 2 * maxDataSize
    ensures !WritesFit(f, maxDataSize, p[..k], true, Singles(p[k..]) + ([c] + rest))
    decreases |p| - k
  {
    var chunks := Singles(p[k..]) + ([c] + rest);
    if k == |p| {
      assert chunks[0] == c && p[..k] == p;
      hide *;
      FullOverruns(f, maxDataSize, p, chunks);
    } else {
      assert chunks[0] == [p[k]] && p[..k] + [p[k]] == p[..k + 1];
      assert chunks[1..] == Singles(p[k + 1..]) + ([c] + rest);
      hide *;
      HeadStays(f, frame, p[..k + 1]);
      CarryOverruns(f, maxDataSize, frame, p, k + 1, c, rest);
      KeptOverruns(f, maxDataSize, p[..k], chunks);
    }
  }

  /** Chunks of one byte, then `c`, then chunks of one byte again. */
  function Around(a: seq<byte>, c: seq<byte>, b: seq<byte>): seq<seq<byte>> {
    Singles(a) + ([c] + Singles(b))
  }

  lemma FlattenAround(a: seq<byte>, c: seq<byte>, b: seq<byte>)
    ensures Flatten(Around(a, c, b)) == a + (c + b)
  {
    hide Singles;
    FlattenSingles(a);
    FlattenSingles(b);
    FlattenAppend(Singles(a), [c] + Singles(b));
    assert ([c] + Singles(b))[1..] == Singles(b);
  }

  lemma ShortAround(a: seq<byte>, c: seq<byte>, b: seq<byte>, maxDataSize: nat)
    requires |c| <= maxDataSize && 0 < maxDataSize
    ensures AtMost(Around(a, c, b), maxDataSize)
  {
    hide Singles;
  }

  lemma ThreeParts(s: seq<byte>, i: nat, j: nat)
    requires i <= j <= |s|
    ensures s[..i] + (s[i..j] + s[j..]) == s
  {}

  /** A stream of three frames of the longest kind, cut so that a chunk meets the longest carry. */
  function WorstChunks(frame: seq<byte>, maxDataSize: nat): (chunks: seq<seq<byte>>)
    requires maxDataSize + 1 <= 2 * |frame|
  {
    var s := frame + frame + frame;
    var n := |frame| + 1;
    Around(s[..n], s[n..n + maxDataSize], s[n + maxDataSize..])
  }

  lemma WorstChunksStream(frame: seq<byte>, maxDataSize: nat)
    requires 0 < maxDataSize && maxDataSize + 1 <= 2 * |frame|
    ensures AtMost(WorstChunks(frame, maxDataSize), maxDataSize)
    ensures Flatten(WorstChunks(frame, maxDataSize)) == frame + frame + frame
  {
    hide Around, AtMost, Flatten;
    var s, n := frame + frame + frame, |frame| + 1;
    FlattenAround(s[..n], s[n..n + maxDataSize], s[n + maxDataSize..]);
    ShortAround(s[..n], s[n..n + maxDataSize], s[n + maxDataSize..], maxDataSize);
    ThreeParts(s, n, n + maxDataSize);
  }

  lemma WorstChunksOverrun(f: Format, maxDataSize: nat, frame: seq<byte>)
    requires Good(f) && WellFormed(f, frame) && 0 < maxDataSize <= |frame|
    ensures !WritesFit(f, maxDataSize, [], true, WorstChunks(frame, maxDataSize))
  {
    hide WritesFit, WellFormed;
    var s, n := frame + frame + frame, |frame| + 1;
    assert |frame| > 4 by { FrameLong(f, frame); }
    assert frame <= s[..n];
    CarryOverruns(f, maxDataSize, frame, s[..n], 0, s[n..n + maxDataSize], Singles(s[n + maxDataSize..]));
    assert s[..n][..0] == [] && s[..n][0..] == s[..n];
  }

  lemma FrameLong(f: Format, frame: seq<byte>)
    requires WellFormed(f, frame)
    ensures |frame| > 4
  {}

  /**
   Chunks fit the parse buffer for every stream exactly if the largest chunk is larger than the
   longest AU (or there is nothing to read); otherwise not even for a stream of three frames.
   */
  lemma WritesFitIff(f: Format, maxDataSize: nat, frame: seq<byte>)
    requires Good(f) && f.Framed? && WellFormed(f, frame) && |frame| == f.maxLength
    ensures (forall chunks | AtMost(chunks, maxDataSize) :: WritesFit(f, maxDataSize, [], true, chunks))
       <==> maxDataSize == 0 || f.maxLength < maxDataSize
  {
    hide WritesFit, WellFormed, FeedIn;
    if maxDataSize == 0 {
      forall chunks | AtMost(chunks, 0) ensures WritesFit(f, 0, [], true, chunks) {
        NothingFits(f, chunks);
        FeedInIsFeed(f, 0, [], true, chunks);
      }
    } else if f.maxLength < maxDataSize {
      forall chunks | AtMost(chunks, maxDataSize) ensures WritesFit(f, maxDataSize, [], true, chunks) {
        WritesAlwaysFit(f, maxDataSize, [], true, chunks);
      }
    } else {
      WorstChunksStream(frame, maxDataSize);
      WorstChunksOverrun(f, maxDataSize, frame);
    }
  }

  // ---- Header reads

  /** No sync word starts or ends in a zero. */
  ghost predicate ZeroQuiet(f: Format) {
    f.Framed? ==> forall x :: !f.sync(0, x) && !f.sync(x, 0)
  }

  /** The only sync word of the frame is the one it starts with. */
  predicate OneSync(f: Format, frame: seq<byte>) {
    forall k: nat | 0 < k < |frame| :: !AtSync(f, frame, k)
  }

  function Zeros(n: nat): (r: seq<byte>)
    ensures |r| == n
  {
    seq(n, _ => 0)
  }

  /** A chunk of zeros that ends in the first half of a header. */
  function LateSync(frame: seq<byte>, size: nat): seq<byte>
    requires |frame| > 1 && size > 1
  {
    Zeros(size - 2) + frame[..2]
  }

  lemma CoreLast(f: Format, w: seq<byte>)
    requires f.Framed? && |w| >= 2 && AtSync(f, w, |w| - 2) && forall k: nat | k < |w| - 2 :: !AtSync(f, w, k)
    ensures Core(f, w) == w[|w| - 2..]
  {
    assert SyncIndex(f, w, 0) == |w| - 2;
  }

  /** Behind the frame at its front, the window has a single sync word: its last two bytes. */
  lemma LateSyncAt(f: Format, frame: seq<byte>, size: nat)
    requires f.Framed? && ZeroQuiet(f) && OneSync(f, frame) && AtSync(f, frame, 0) && size > 1
    ensures var u := frame + [0] + LateSync(frame, size);
      && |u[1..]| == |frame| + size && u[1..][|frame| + size - 2..] == frame[..2] && AtSync(f, u, 0)
      && AtSync(f, u[1..], |frame| + size - 2) && !AtSync(f, u, |frame|)
      && forall k: nat | k < |frame| + size - 2 :: !AtSync(f, u[1..], k)
  {
    var u := frame + [0] + LateSync(frame, size);
    var w, last := u[1..], |frame| + size - 2;
    assert w[last] == frame[0] && w[last + 1] == frame[1] && u[|frame|] == 0;
    forall k: nat | k < last ensures !AtSync(f, w, k) {
      if k + 2 < |frame| { assert !AtSync(f, frame, k + 1); }
    }
  }

  lemma LateSyncCore(f: Format, frame: seq<byte>, size: nat)
    requires f.Framed? && ZeroQuiet(f) && OneSync(f, frame) && AtSync(f, frame, 0) && size > 1
    ensures var u := frame + [0] + LateSync(frame, size);
      Core(f, u) == u && Core(f, u[1..]) == frame[..2] && !AtSync(f, u, |frame|)
  {
    var u := frame + [0] + LateSync(frame, size);
    hide *;
    LateSyncAt(f, frame, size);
    CoreAtSync(f, u);
    CoreLast(f, u[1..]);
  }

  lemma SlideTurn(f: Format, u: seq<byte>, n: nat)
    requires Good(f) && f.Framed? && |u| > 4 && |u| > n + 2 && Core(f, u) == u
    requires HeaderLength(f, u + ZEROS) == n && !AtSync(f, u, n)
    ensures ParseTurn(f, u, true, ZEROS) == Slide(u[1..])
  {
    hide Core, HeaderLength, AtSync, Good;
  }

  lemma LateSyncTurn(f: Format, frame: seq<byte>, size: nat)
    requires Good(f) && WellFormed(f, frame) && ZeroQuiet(f) && OneSync(f, frame) && |frame| < size
    ensures var u := frame + [0] + LateSync(frame, size); ParseTurn(f, u, true, ZEROS) == Slide(u[1..])
  {
    var u := frame + [0] + LateSync(frame, size);
    assert |u| > |frame| + 2 && |frame| > 4 && AtSync(f, frame, 0) && f.Framed?;
    assert HeaderLength(f, u + ZEROS) == |frame| by {
      assert (u + ZEROS)[1] == frame[1] && (u + ZEROS)[2] == frame[2] && (u + ZEROS)[4] == frame[4];
    }
    hide *;
    LateSyncCore(f, frame, size);
    SlideTurn(f, u, |frame|);
  }

  /** With room for its chunks but not for the deepest header byte, the buffer is read past its end. */
  lemma LateSyncRead(f: Format, frame: seq<byte>, maxDataSize: nat)
    requires Good(f) && WellFormed(f, frame) && ZeroQuiet(f) && OneSync(f, frame)
    requires |frame| < maxDataSize < |frame| + f.deep
    ensures var u := frame + [0] + LateSync(frame, maxDataSize);
      !ReadsFit(f, u, true, |u|, |u|, 2 * maxDataSize)
  {
    var u := frame + [0] + LateSync(frame, maxDataSize);
    LateSyncCore(f, frame, maxDataSize);
    LateSyncTurn(f, frame, maxDataSize);
    assert |u| == |frame| + 1 + maxDataSize && |frame| > 4 && f.Framed?;
    hide *;
    HeaderOutside(f, u[1..], |u|, 2 * maxDataSize);
    SlideReads(f, u, u[1..], |u|, |u|, 2 * maxDataSize);
  }

  lemma HeaderOutside(f: Format, w: seq<byte>, end: nat, cap: nat)
    requires f.Framed? && |w| > 4 && |Core(f, w)| == 2 && cap <= end - 2 + f.deep
    ensures !HeaderFits(f, w, end, cap)
  {}

  lemma SlideReads(f: Format, w: seq<byte>, w': seq<byte>, free: nat, end: nat, cap: nat)
    requires Good(f) && ParseTurn(f, w, true, ZEROS) == Slide(w') && !HeaderFits(f, w', end, cap)
    ensures !ReadsFit(f, w, true, free, end, cap)
  {
    hide ParseTurn, HeaderFits;
  }

  lemma {:induction false} LateSyncOverruns(f: Format, maxDataSize: nat, frame: seq<byte>, k: nat)
    requires Good(f) && WellFormed(f, frame) && ZeroQuiet(f) && OneSync(f, frame)
    requires |frame| < maxDataSize < |frame| + f.deep && k <= |frame| + 1
    ensures var p := frame + [0];
      FeedIn(f, maxDataSize, p[..k], true, Singles(p[k..]) + [LateSync(frame, maxDataSize)]).None?
    decreases |frame| + 1 - k
  {
    var p, c := frame + [0], LateSync(frame, maxDataSize);
    var chunks := Singles(p[k..]) + [c];
    if k == |p| {
      assert chunks[0] == c && p[..k] == p;
      LateSyncRead(f, frame, maxDataSize);
    } else {
      assert chunks[0] == [p[k]] && p[..k] + [p[k]] == p[..k + 1];
      assert chunks[1..] == Singles(p[k + 1..]) + [c];
      HeadStays(f, frame, p[..k + 1]);
      LateSyncOverruns(f, maxDataSize, frame, k + 1);
    }
  }

  /**
   Every access of the parser stays inside the parse buffer, for every stream, exactly if the
   largest chunk is longer than the longest AU by the offset of the deepest header byte (or there
   is nothing to read).
   */
  lemma AccessesFitIff(f: Format, maxDataSize: nat, frame: seq<byte>)
    requires Good(f) && f.Framed? && WellFormed(f, frame) && |frame| == f.maxLength && ZeroQuiet(f) && OneSync(f, frame)
    ensures (forall chunks | AtMost(chunks, maxDataSize) :: FeedIn(f, maxDataSize, [], true, chunks).Some?)
       <==> maxDataSize == 0 || f.maxLength + f.deep <= maxDataSize
  {
    hide FeedIn, WritesFit, WellFormed, OneSync, ZeroQuiet;
    if maxDataSize == 0 {
      forall chunks | AtMost(chunks, 0) ensures FeedIn(f, 0, [], true, chunks).Some? { NothingFits(f, chunks); }
    } else if f.maxLength + f.deep <= maxDataSize {
      forall chunks | AtMost(chunks, maxDataSize) ensures FeedIn(f, maxDataSize, [], true, chunks).Some? {
        AccessesAlwaysFit(f, maxDataSize, [], true, chunks);
      }
    } else {
      SomeAccessOutside(f, maxDataSize, frame);
    }
  }

  lemma SomeAccessOutside(f: Format, maxDataSize: nat, frame: seq<byte>)
    requires Good(f) && f.Framed? && WellFormed(f, frame) && |frame| == f.maxLength && ZeroQuiet(f) && OneSync(f, frame)
    requires 0 < maxDataSize < f.maxLength + f.deep
    ensures exists chunks | AtMost(chunks, maxDataSize) :: FeedIn(f, maxDataSize, [], true, chunks).None?
  {
    FrameLong(f, frame);
    hide FeedIn, WritesFit, WellFormed, OneSync, ZeroQuiet;
    if maxDataSize <= |frame| {
      var chunks := WorstChunks(frame, maxDataSize);
      WorstChunksStream(frame, maxDataSize);
      WorstChunksOverrun(f, maxDataSize, frame);
      if FeedIn(f, maxDataSize, [], true, chunks).Some? { FeedInIsFeed(f, maxDataSize, [], true, chunks); }
      assert AtMost(chunks, maxDataSize) && FeedIn(f, maxDataSize, [], true, chunks).None?;
    } else {
      var p, c := frame + [0], LateSync(frame, maxDataSize);
      var chunks := Singles(p) + [c];
      LateSyncOverruns(f, maxDataSize, frame, 0);
      assert p[..0] == [] && p[0..] == p;
      assert AtMost(chunks, maxDataSize);
    }
  }

  // ---- Streams through the buffer

  /**
   Chunk boundaries do not matter: in a stream whose parse in one piece is steady, every way of
   cutting it into chunks that stays inside the buffer emits the same AUs and ends in the same
   state, up to bytes at the front of the window that can start no AU.
   */
  lemma BoundariesIrrelevant(f: Format, maxDataSize: nat, chunks: seq<seq<byte>>)
    requires Good(f) && f.Framed? && Steady(f, Flatten(chunks), true)
    requires FeedIn(f, maxDataSize, [], true, chunks).Some?
    ensures Alike(f, FeedIn(f, maxDataSize, [], true, chunks).value, DrainAll(f, Flatten(chunks), true))
  {
    hide *;
    FeedInIsFeed(f, maxDataSize, [], true, chunks);
    ClearedSettled(f);
    assert [] + Flatten(chunks) == Flatten(chunks);
    ChunkBoundariesIrrelevant(f, [], true, chunks);
  }

  /**
   From a cleared parser, a stream of whole frames comes out frame by frame, byte for byte and
   with nothing left over, however it was cut into chunks that stay inside the buffer - unless
   it is a single frame, which stays behind. Chunks of at most maxDataSize stay inside if that is
   enough for every stream.
   */
  lemma FramesSurvive(f: Format, maxDataSize: nat, frames: seq<seq<byte>>, chunks: seq<seq<byte>>)
    requires Good(f) && f.Framed? && (forall fr <- frames :: WellFormed(f, fr))
    requires Flatten(chunks) == Flatten(frames) && AtMost(chunks, maxDataSize)
    ensures f.maxLength + f.deep <= maxDataSize ==> FeedIn(f, maxDataSize, [], true, chunks).Some?
    ensures FeedIn(f, maxDataSize, [], true, chunks).Some? ==>
      var o := FeedIn(f, maxDataSize, [], true, chunks).value;
      && (o.aus == frames <==> |frames| != 1)
      && (if |frames| == 1 then o.aus == [] else o.window == [])
  {
    hide *;
    if f.maxLength + f.deep <= maxDataSize {
      CarryRoom(f);
      AccessesAlwaysFit(f, maxDataSize, [], true, chunks);
    }
    if FeedIn(f, maxDataSize, [], true, chunks).Some? {
      FeedInIsFeed(f, maxDataSize, [], true, chunks);
      FramesSurviveChunking(f, frames, chunks);
    }
  }

  lemma ClearedSettled(f: Format)
    requires Good(f)
    ensures Settled(f, [], true)
  {}

  lemma CarryRoom(f: Format)
    ensures 0 <= CarryBound(f)
  {}

  /** Nor do bytes before the first frame matter, as long as no sync word starts in them. */
  lemma LeadingBytesDropped(f: Format, maxDataSize: nat, junk: seq<byte>, frames: seq<seq<byte>>,
                            chunks: seq<seq<byte>>)
    requires Good(f) && f.Framed? && (forall fr <- frames :: WellFormed(f, fr)) && |frames| > 1
    requires forall k: nat | k < |junk| :: !AtSync(f, junk + Flatten(frames), k)
    requires Flatten(chunks) == junk + Flatten(frames)
    requires FeedIn(f, maxDataSize, [], true, chunks).Some?
    ensures FeedIn(f, maxDataSize, [], true, chunks).value.aus == frames
  {
    hide *;
    FeedInIsFeed(f, maxDataSize, [], true, chunks);
    LeadingBytesSkipped(f, junk, frames, chunks);
  }
}
