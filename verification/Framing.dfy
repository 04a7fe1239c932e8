/**
 The re-framing of an elementary stream: a window of bytes from which whole access units
 (AUs) are cut. The MPEG and the AC-3 parser of avidmux.c differ only in the sync word and
 in the length that the header announces, so both are one algorithm over a Format.
 */
module Framing {
  import opened Bytes

  /**
   Framed: `sync(b0, b1)` recognises the sync word; `length(h1, h2, h4)` is the AU length that
   the header bytes at offsets 1, 2 and 4 give; `deep` is the deepest of these that the format
   reads; `maxLength` is the largest length it gives.
   Whole: every chunk of the file is one AU.
   */
  datatype Format =
    | Framed(sync: (byte, byte) -> bool, length: (byte, byte, byte) -> nat, deep: nat, maxLength: nat)
    | Whole

  /** What the proofs need of a format's sync word and length table. */
  ghost predicate Good(f: Format) {
    f.Framed? ==>
      && (f.deep == 2 || f.deep == 4)
      && (forall a, b, c :: 4 < f.length(a, b, c) <= f.maxLength)
      && (f.deep == 2 ==> forall a, b, c, d :: f.length(a, b, c) == f.length(a, b, d))
  }

  predicate AtSync(f: Format, w: seq<byte>, i: nat) {
    f.Framed? && i + 1 < |w| && f.sync(w[i], w[i + 1])
  }

  /** First sync word at or after `i`; the last byte's index if there is none. */
  function SyncIndex(f: Format, w: seq<byte>, i: nat): (r: nat)
    requires i < |w|
    ensures i <= r < |w| && (AtSync(f, w, r) || r == |w| - 1)
    ensures forall k: nat | i <= k < r :: !AtSync(f, w, k)
    decreases |w| - i
  {
    if AtSync(f, w, i) || i == |w| - 1 then i else SyncIndex(f, w, i + 1)
  }

  /** The window from its first sync word on; its last byte alone if it holds none. */
  function Core(f: Format, w: seq<byte>): seq<byte> {
    if w == [] || f.Whole? then w else w[SyncIndex(f, w, 0)..]
  }

  /** Length announced by the header at the front of `buffer`. */
  function HeaderLength(f: Format, buffer: seq<byte>): nat
    requires f.Framed? && |buffer| >= 5
  {
    f.length(buffer[1], buffer[2], buffer[4])
  }

  /** One turn of the parse loop: stop with a window, drop a false sync, or cut an AU. */
  datatype Turn =
    | Stop(window: seq<byte>, search: bool)
    | Slide(window: seq<byte>)
    | Cut(au: seq<byte>, window: seq<byte>)

  /**
   `w` is the valid window, `search` the parseSyncSearch flag, and `stale` the buffer bytes
   that follow the window, which the header read can reach.
   */
  function ParseTurn(f: Format, w: seq<byte>, search: bool, stale: seq<byte>): (t: Turn)
    requires |stale| >= 3
    ensures |t.window| <= |w|
    ensures t.Slide? ==> |t.window| < |w| && search
    ensures t.Cut? && Good(f) ==> |t.window| < |w| && |t.au| > 0
  {
    if f.Whole? then
      if w == [] then Stop(w, search) else Cut(w, [])
    else if |w| <= 4 then Stop(w, search)
    else
      var c := Core(f, w);
      if |c| == 1 then Stop(c, true)
      else
        var n := HeaderLength(f, c + stale);
        if |c| < n then Stop(c, search)
        else if search && |c| < n + 2 then Stop(c, search)
        else if search && !AtSync(f, c, n) then Slide(c[1..])
        else Cut(c[..n], c[n..])
  }

  /** What the parse loop leaves behind: AUs cut, window, flag, and whether it ran out of AU buffers. */
  datatype Outcome = Outcome(aus: seq<seq<byte>>, window: seq<byte>, search: bool, full: bool)

  /** The parse loop with `free` AU buffers to fill. */
  function Drain(f: Format, w: seq<byte>, search: bool, free: nat, stale: seq<byte>): (o: Outcome)
    requires Good(f) && |stale| >= 3
    ensures |o.aus| <= free && (o.full ==> |o.aus| == free)
    decreases |w|
  {
    match ParseTurn(f, w, search, stale)
    case Stop(w', search') => Outcome([], w', search', false)
    case Slide(w') => Drain(f, w', search, free, stale)
    case Cut(au, w') =>
      if free == 0 then Outcome([], au + w', search, true)
      else
        var o := Drain(f, w', false, free - 1, stale);
        o.(aus := [au] + o.aus)
  }

  const ZEROS: seq<byte> := [0, 0, 0]

  /** The parse loop when an AU buffer is always free. */
  function DrainAll(f: Format, w: seq<byte>, search: bool): Outcome
    requires Good(f)
  {
    Drain(f, w, search, |w|, ZEROS)
  }

  // ---- Bytes past the valid window

  lemma StaleTurn(f: Format, w: seq<byte>, search: bool, s: seq<byte>, t: seq<byte>)
    requires Good(f) && |s| >= 3 && |t| >= 3
    ensures ParseTurn(f, w, search, s) == ParseTurn(f, w, search, t)
  {
    if f.Framed? && |w| > 4 {
      var c := Core(f, w);
      if 1 < |c| {
        assert (c + s)[1] == (c + t)[1];
        if |c| > 2 { assert (c + s)[2] == (c + t)[2]; }
        if |c| > 4 { assert (c + s)[4] == (c + t)[4]; }
      }
    }
  }

  /**
   The header read may run past the valid window into bytes left over from earlier chunks.
   Whatever they are, the AUs cut and the state left behind are the same.
   */
  lemma {:induction false} StaleBytesIrrelevant(f: Format, w: seq<byte>, search: bool, free: nat,
                                                s: seq<byte>, t: seq<byte>)
    requires Good(f) && |s| >= 3 && |t| >= 3
    ensures Drain(f, w, search, free, s) == Drain(f, w, search, free, t)
    decreases |w|
  {
    hide ParseTurn, Core;
    StaleTurn(f, w, search, s, t);
    match ParseTurn(f, w, search, s)
    case Stop(_, _) =>
    case Slide(w') => StaleBytesIrrelevant(f, w', search, free, s, t);
    case Cut(au, w') => if free > 0 { StaleBytesIrrelevant(f, w', false, free - 1, s, t); }
  }

  // ---- Running out of AU buffers

  /** The outcome of a parse that goes on from `first` and ends as `second`. */
  function Joined(first: Outcome, second: Outcome): Outcome {
    second.(aus := first.aus + second.aus)
  }

  lemma JoinedCons(au: seq<byte>, first: Outcome, second: Outcome)
    ensures Joined(first.(aus := [au] + first.aus), second)
         == Joined(first, second).(aus := [au] + Joined(first, second).aus)
  {
    assert ([au] + first.aus) + second.aus == [au] + (first.aus + second.aus);
  }

  lemma CoreIdempotent(f: Format, w: seq<byte>)
    ensures Core(f, Core(f, w)) == Core(f, w)
  {
    if w != [] && f.Framed? {
      var c := Core(f, w);
      assert AtSync(f, c, 0) == AtSync(f, w, SyncIndex(f, w, 0));
    }
  }

  lemma CutIsCore(f: Format, w: seq<byte>, search: bool)
    requires Good(f) && ParseTurn(f, w, search, ZEROS).Cut?
    ensures var t := ParseTurn(f, w, search, ZEROS);
            t.au + t.window == Core(f, w) && |Core(f, w)| <= |w| && (f.Framed? ==> 4 < |Core(f, w)|)
  {}

  /** A window re-anchored at its header is cut in the same way. */
  lemma CutAgain(f: Format, w: seq<byte>, search: bool)
    requires Good(f) && ParseTurn(f, w, search, ZEROS).Cut?
    ensures ParseTurn(f, Core(f, w), search, ZEROS) == ParseTurn(f, w, search, ZEROS)
  {
    CutIsCore(f, w, search);
    CoreIdempotent(f, w);
  }

  lemma {:induction false} CutAgainDrain(f: Format, w: seq<byte>, search: bool, more: nat)
    requires Good(f) && ParseTurn(f, w, search, ZEROS).Cut?
    ensures var first := Drain(f, w, search, 0, ZEROS);
            first.full
            && Drain(f, w, search, more, ZEROS)
            == Joined(first, Drain(f, first.window, first.search, more, ZEROS))
  {
    CutIsCore(f, w, search);
    CutAgain(f, w, search);
    var second := Drain(f, Core(f, w), search, more, ZEROS);
    assert second == Drain(f, w, search, more, ZEROS);
    assert [] + second.aus == second.aus;
  }

  /**
   Resuming a parse that ran out of buffers, with `more` of them, gives what one parse with
   all the buffers would have given; a parse that did not run out is unchanged by more.
   */
  lemma {:induction false} ResumeAfterFull(f: Format, w: seq<byte>, search: bool, free: nat, more: nat)
    requires Good(f)
    ensures
      var first := Drain(f, w, search, free, ZEROS);
      Drain(f, w, search, free + more, ZEROS)
        == if first.full then Joined(first, Drain(f, first.window, first.search, more, ZEROS)) else first
    decreases |w|
  {
    hide ParseTurn, Core;
    match ParseTurn(f, w, search, ZEROS)
    case Stop(_, _) =>
    case Slide(w') => ResumeAfterFull(f, w', search, free, more);
    case Cut(au, w') =>
      if free == 0 {
        CutAgainDrain(f, w, search, more);
      } else {
        ResumeAfterFull(f, w', false, free - 1, more);
        var first := Drain(f, w', false, free - 1, ZEROS);
        assert free + more - 1 == free - 1 + more;
        if first.full {
          JoinedCons(au, first, Drain(f, first.window, first.search, more, ZEROS));
        }
      }
  }

  /** As many buffers as bytes are enough never to run out. */
  lemma {:induction false} EnoughBuffers(f: Format, w: seq<byte>, search: bool, free: nat)
    requires Good(f) && |w| <= free
    ensures !Drain(f, w, search, free, ZEROS).full
    ensures Drain(f, w, search, free, ZEROS) == DrainAll(f, w, search)
    decreases |w|
  {
    hide ParseTurn, Core;
    NeverFull(f, w, search, |w|);
    ResumeAfterFull(f, w, search, |w|, free - |w|);
  }

  lemma {:induction false} NeverFull(f: Format, w: seq<byte>, search: bool, free: nat)
    requires Good(f) && |w| <= free
    ensures !Drain(f, w, search, free, ZEROS).full
    decreases |w|
  {
    hide ParseTurn, Core;
    match ParseTurn(f, w, search, ZEROS)
    case Stop(_, _) =>
    case Slide(w') => NeverFull(f, w', search, free);
    case Cut(au, w') => NeverFull(f, w', false, free - 1);
  }

  // ---- How much a call carries over

  /** The largest window that a parse which did not run out of buffers leaves behind. */
  function CarryBound(f: Format): nat {
    if f.Framed? then f.maxLength + 1 else 0
  }

  lemma TurnCarry(f: Format, w: seq<byte>, search: bool)
    requires Good(f) && ParseTurn(f, w, search, ZEROS).Stop?
    ensures |ParseTurn(f, w, search, ZEROS).window| <= CarryBound(f)
  {
    if f.Framed? { assert f.maxLength >= f.length(0, 0, 0) > 4; }
  }

  /** With an AU buffer always free, no more than the longest AU and one byte is carried over. */
  lemma {:induction false} DrainCarry(f: Format, w: seq<byte>, search: bool, free: nat)
    requires Good(f)
    ensures var o := Drain(f, w, search, free, ZEROS); !o.full ==> |o.window| <= CarryBound(f)
    decreases |w|
  {
    hide ParseTurn;
    match ParseTurn(f, w, search, ZEROS)
    case Stop(_, _) => TurnCarry(f, w, search);
    case Slide(w') => DrainCarry(f, w', search, free);
    case Cut(_, w') => if free > 0 { DrainCarry(f, w', false, free - 1); }
  }
}
