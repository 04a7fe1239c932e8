/**
 A parse that goes on after running out of AU buffers: what is still to come of the stream, turn by
 turn and call by call, and what the AUs that come out look like.
 */
module Resuming {
  import opened Bytes
  import opened Framing
  import opened Chunking

  /** What a parser that always finds a free AU emits for the whole stream. */
  ghost function Total(f: Format, chunks: seq<seq<byte>>): seq<seq<byte>>
    requires Good(f)
  {
    Feed(f, [], true, chunks).aus
  }

  /** The chunks from position `pos` on. */
  function From(chunks: seq<seq<byte>>, pos: nat): seq<seq<byte>> {
    if pos <= |chunks| then chunks[pos..] else []
  }

  /** What such a parser emits from window `w` on, with the chunks `rest` to come. */
  ghost function PendingFrom(f: Format, w: seq<byte>, search: bool, rest: seq<seq<byte>>): seq<seq<byte>>
    requires Good(f)
  {
    var o := DrainAll(f, w, search);
    o.aus + Feed(f, o.window, o.search, rest).aus
  }

  // ---- Turn by turn

  /** The outcome of a parse after its turn `t`. */
  ghost function DrainFrom(f: Format, t: Turn, search: bool): Outcome
    requires Good(f)
  {
    match t
    case Stop(w, search') => Outcome([], w, search', false)
    case Slide(w) => DrainAll(f, w, search)
    case Cut(au, w) => var o := DrainAll(f, w, false); o.(aus := [au] + o.aus)
  }

  lemma DrainTurn(f: Format, w: seq<byte>, search: bool)
    requires Good(f)
    ensures DrainAll(f, w, search) == DrainFrom(f, ParseTurn(f, w, search, ZEROS), search)
  {
    hide ParseTurn;
    match ParseTurn(f, w, search, ZEROS)
    case Stop(_, _) =>
    case Slide(w') => MoreBuffers(f, w', search, |w|, |w'|);
    case Cut(_, w') => MoreBuffers(f, w', false, |w| - 1, |w'|);
  }

  ghost function PendingAfter(f: Format, t: Turn, search: bool, rest: seq<seq<byte>>): seq<seq<byte>>
    requires Good(f)
  {
    match t
    case Stop(w, search') => Feed(f, w, search', rest).aus
    case Slide(w) => PendingFrom(f, w, search, rest)
    case Cut(au, w) => [au] + PendingFrom(f, w, false, rest)
  }

  lemma TurnPending(f: Format, w: seq<byte>, search: bool, rest: seq<seq<byte>>)
    requires Good(f)
    ensures var t := ParseTurn(f, w, search, ZEROS);
            && PendingFrom(f, w, search, rest) == PendingAfter(f, t, search, rest)
            && (t.Cut? ==> PendingFrom(f, t.au + t.window, search, rest) == PendingFrom(f, w, search, rest))
  {
    hide ParseTurn, DrainAll, Feed, Core;
    DrainTurn(f, w, search);
    match ParseTurn(f, w, search, ZEROS) {
      case Stop(w', search') => assert [] + Feed(f, w', search', rest).aus == Feed(f, w', search', rest).aus;
      case Slide(_) =>
      case Cut(au, w') =>
        CutIsCore(f, w, search);
        CutAgain(f, w, search);
        DrainTurn(f, Core(f, w), search);
        var o := DrainAll(f, w', false);
        assert [au] + o.aus + Feed(f, o.window, o.search, rest).aus == [au] + PendingFrom(f, w', false, rest);
    }
  }

  // ---- Call by call

  /** What is to come before a call: the rest of the chunk begun, if the last call ran out, and the chunks after it. */
  ghost function PendingCall(f: Format, w: seq<byte>, search: bool, full: bool, chunks: seq<seq<byte>>, pos: nat)
    : seq<seq<byte>>
    requires Good(f)
  {
    if full then PendingFrom(f, w, search, From(chunks, pos + 1)) else Feed(f, w, search, From(chunks, pos)).aus
  }

  /** A call with `free` AUs emits the first of what is to come, and leaves the rest to come. */
  lemma CallPending(f: Format, w: seq<byte>, search: bool, free: nat, rest: seq<seq<byte>>)
    requires Good(f)
    ensures var o := Drain(f, w, search, free, ZEROS);
      PendingFrom(f, w, search, rest)
        == o.aus + if o.full then PendingFrom(f, o.window, o.search, rest) else Feed(f, o.window, o.search, rest).aus
  {
    hide ParseTurn, Feed, Drain;
    var first := Drain(f, w, search, free, ZEROS);
    ResumeAfterFull(f, w, search, free, |w|);
    EnoughBuffers(f, w, search, free + |w|);
    WindowShrinks(f, w, search, free);
    MoreBuffers(f, first.window, first.search, |w|, |first.window|);
    if first.full {
      var second := DrainAll(f, first.window, first.search);
      assert (first.aus + second.aus) + Feed(f, second.window, second.search, rest).aus
          == first.aus + PendingFrom(f, first.window, first.search, rest);
    }
  }

  // ---- What comes out

  lemma TurnWellFormed(f: Format, w: seq<byte>, search: bool)
    requires Good(f) && f.Framed? && ParseTurn(f, w, search, ZEROS).Cut?
    ensures WellFormed(f, ParseTurn(f, w, search, ZEROS).au)
  {
    var c := Core(f, w);
    var n := HeaderLength(f, c + ZEROS);
    assert AtSync(f, c, 0) == AtSync(f, w, SyncIndex(f, w, 0));
    assert (c + ZEROS)[1] == c[..n][1] && (c + ZEROS)[2] == c[..n][2] && (c + ZEROS)[4] == c[..n][4];
  }

  /** Whatever the stream, every AU that the parser cuts is a frame: sync word and announced length. */
  lemma {:induction false} DrainWellFormed(f: Format, w: seq<byte>, search: bool, free: nat)
    requires Good(f) && f.Framed?
    ensures forall au <- Drain(f, w, search, free, ZEROS).aus :: WellFormed(f, au)
    decreases |w|
  {
    hide ParseTurn, WellFormed;
    match ParseTurn(f, w, search, ZEROS)
    case Stop(_, _) =>
    case Slide(w') => DrainWellFormed(f, w', search, free);
    case Cut(_, w') =>
      if free > 0 {
        TurnWellFormed(f, w, search);
        DrainWellFormed(f, w', false, free - 1);
      }
  }

  lemma {:induction false} FeedWellFormed(f: Format, w: seq<byte>, search: bool, chunks: seq<seq<byte>>)
    requires Good(f) && f.Framed?
    ensures forall au <- Feed(f, w, search, chunks).aus :: WellFormed(f, au)
    decreases |chunks|
  {
    hide Drain, WellFormed;
    if chunks != [] {
      var o := DrainAll(f, w + chunks[0], search);
      DrainWellFormed(f, w + chunks[0], search, |w + chunks[0]|);
      FeedWellFormed(f, o.window, o.search, chunks[1..]);
    }
  }

  function NotEmpty(chunks: seq<seq<byte>>): seq<seq<byte>> {
    if chunks == [] then [] else (if chunks[0] == [] then [] else [chunks[0]]) + NotEmpty(chunks[1..])
  }

  /** In the Whole format the AUs are the chunks that are not empty. */
  lemma {:induction false} FeedWhole(search: bool, chunks: seq<seq<byte>>)
    ensures Feed(Whole, [], search, chunks).aus == NotEmpty(chunks)
    decreases |chunks|
  {
    if chunks != [] {
      var w := [] + chunks[0];
      assert w == chunks[0];
      DrainTurn(Whole, w, search);
      DrainTurn(Whole, [], false);
      FeedWhole(if w == [] then search else false, chunks[1..]);
    }
  }

  lemma {:induction false} NotEmptyIn(chunks: seq<seq<byte>>)
    ensures forall c <- NotEmpty(chunks) :: c in chunks
  {
    if chunks != [] { NotEmptyIn(chunks[1..]); }
  }

  /** No AU is longer than the longest the format knows, or than the longest chunk. */
  lemma AuLengths(f: Format, chunks: seq<seq<byte>>, maxDataSize: nat)
    requires Good(f) && forall c <- chunks :: |c| <= maxDataSize
    ensures forall au <- Total(f, chunks) :: |au| <= if f.Framed? then f.maxLength else maxDataSize
  {
    if f.Framed? {
      FeedWellFormed(f, [], true, chunks);
    } else {
      FeedWhole(true, chunks);
      NotEmptyIn(chunks);
    }
  }
}
