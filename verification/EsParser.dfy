/**
 One elementary stream of the demultiplexer: its parse buffer and the parser that cuts AUs from it
 into the stream's AU buffers.
 */
module EsParser {
  import opened Bytes
  import opened Results
  import opened Ownership
  import opened BufferedReader
  import opened Framing
  import opened AuBuffers

  /** A seek followed by an unbuffered read of a whole chunk. */
  method ReadWhole(bfr: UtilBufferedFileReader, offset: nat, size: nat) returns (failed: bool, data: seq<byte>)
    requires bfr.Valid() && bfr.open && bfr.bUnbufferedMode
    modifies bfr
    ensures bfr.Valid() && bfr.open && bfr.bUnbufferedMode
    ensures failed == (offset + size > |bfr.file|)
    ensures |data| <= size && (!failed ==> data == bfr.file[offset..offset + size])
  {
    var chunk := new byte[size];
    failed, data := true, [];
    var ret := bfr.Seek(offset, Set);
    if ret == 0 {
      ret := bfr.UnbufferedRead(chunk, 0, size);
      failed, data := ret != 0, chunk[..];
    }
  }

  /** A turn, decided on the core of the window and whatever bytes follow it. */
  lemma TurnByHeader(f: Format, w: seq<byte>, search: bool, stale: seq<byte>)
    requires Good(f) && f.Framed? && |w| > 4 && |stale| >= 3
    ensures var c := Core(f, w);
      ParseTurn(f, w, search, ZEROS)
      == if |c| <= 1 then Stop(c, true)
         else
           var n := HeaderLength(f, c + stale);
           if |c| < n || (search && |c| < n + 2) then Stop(c, search)
           else if search && !AtSync(f, c, n) then Slide(c[1..])
           else Cut(c[..n], c[n..])
  {
    StaleTurn(f, w, search, stale, ZEROS);
  }

  datatype Found = Nothing | FalseSync | Ready(auSize: nat)

  datatype TurnEnd = GoOn | Settled | NoBuffer

  /** No AU is longer than a buffer for it. */
  ghost predicate Fit(aus: seq<seq<byte>>, size: nat) {
    forall au <- aus :: |au| <= size
  }

  /** Return code, window, flag and books after the parse loop has run on a window. */
  ghost function AfterParse(f: Format, w: seq<byte>, search: bool, b: Books): (RetCode, seq<byte>, bool, Books)
    requires Good(f) && b.Valid()
  {
    var o := Drain(f, w, search, |b.write|, ZEROS);
    (if o.full then ErrFull else CellOk, o.window, o.search, b.EmitAll(o.aus))
  }

  /** The same after a call, which reads a chunk first unless the last call ran out of AU buffers. */
  ghost function AfterCall(f: Format, lastError: RetCode, w: seq<byte>, search: bool, b: Books,
                           file: seq<byte>, offset: nat, size: nat): (RetCode, seq<byte>, bool, Books)
    requires Good(f) && b.Valid()
  {
    if lastError != CellOk then AfterParse(f, w, search, b)
    else if offset + size > |file| then (ErrFatal, w, search, b)
    else AfterParse(f, w + file[offset..offset + size], search, b)
  }

  /** The AUs that a call stores fit their buffers. */
  ghost predicate CallFits(f: Format, lastError: RetCode, w: seq<byte>, search: bool, b: Books,
                           file: seq<byte>, offset: nat, size: nat, maxAuSize: nat)
    requires Good(f)
  {
    if lastError != CellOk then Fit(Drain(f, w, search, |b.write|, ZEROS).aus, maxAuSize)
    else
      offset + size <= |file| ==>
        Fit(Drain(f, w + file[offset..offset + size], search, |b.write|, ZEROS).aus, maxAuSize)
  }

  /** Return code and books after a chunk that is a whole AU; a failed read gives the AU buffer back. */
  ghost function AfterWhole(b: Books, file: seq<byte>, offset: nat, size: nat): (RetCode, Books)
    requires b.Valid()
  {
    if size == 0 then (CellOk, b)
    else if b.write == [] then (ErrFull, b)
    else if offset + size > |file| then (ErrFatal, b.(write := b.write[1..] + [b.write[0]]))
    else (CellOk, b.Emit(file[offset..offset + size]))
  }

  /** A chunk that is a whole AU is parsed as Framing's Whole format says. */
  lemma WholeIsDrain(b: Books, file: seq<byte>, offset: nat, size: nat, search: bool)
    requires b.Valid() && offset + size <= |file|
    ensures var o := Drain(Whole, file[offset..offset + size], search, |b.write|, ZEROS);
      AfterWhole(b, file, offset, size) == (if o.full then ErrFull else CellOk, b.EmitAll(o.aus))
  {
    var chunk := file[offset..offset + size];
    if size > 0 && b.write != [] {
      assert Drain(Whole, [], false, |b.write| - 1, ZEROS) == Outcome([], [], false, false);
      EmitOne(b, chunk);
      assert [chunk] + [] == [chunk];
    }
  }

  /**
   What a chunk that is a whole AU comes to: nothing if it is empty; no change if no AU is free or, but
   for the order of the free AUs, if the file is too short; else the oldest free AU holds it and is
   the last one filled, with a time stamp if it is the first since the parser was cleared.
   */
  lemma WholeOutcome(b: Books, file: seq<byte>, offset: nat, size: nat)
    requires b.Valid()
    ensures var (ret, c) := AfterWhole(b, file, offset, size);
      && (ret == CellOk <==> size == 0 || (b.write != [] && offset + size <= |file|))
      && (ret == ErrFull <==> size > 0 && b.write == [])
      && (size == 0 || b.write == [] ==> c == b)
      && (ret == ErrFatal ==> c == b.(write := b.write[1..] + [b.write[0]]))
      && (ret == CellOk && size > 0 ==>
            && c.write == b.write[1..] && c.read == b.read + [b.write[0]] && c.auCount == b.auCount + 1
            && c.info == b.info[b.write[0] :=
                 AuInfo(file[offset..offset + size], if b.auCount == 0 then Some(0) else None)])
  {}

  /**
   What a call comes to: it fails, changing nothing, exactly if it reads and the file is too short; after
   running out of AUs it reads nothing; it runs out itself only when no AU is free; and the AUs it
   fills are the oldest free ones, in order.
   */
  lemma CallOutcome(f: Format, lastError: RetCode, w: seq<byte>, search: bool, b: Books,
                    file: seq<byte>, offset: nat, size: nat)
    requires Good(f) && b.Valid()
    ensures var (ret, w', search', c) := AfterCall(f, lastError, w, search, b, file, offset, size);
      && (ret == ErrFatal <==> lastError == CellOk && offset + size > |file|)
      && (ret == ErrFatal ==> w' == w && search' == search && c == b)
      && (ret == CellOk || ret == ErrFull || ret == ErrFatal) && (ret == ErrFull ==> c.write == [])
      && |c.write| <= |b.write|
      && (var n := |b.write| - |c.write|;
          c.write == b.write[n..] && c.read == b.read + b.write[..n] && c.auCount == b.auCount + n)
    ensures lastError != CellOk ==>
      AfterCall(f, lastError, w, search, b, file, offset, size) == AfterCall(f, lastError, w, search, b, [], 0, 0)
  {
    if lastError != CellOk {
      ParseOutcome(f, w, search, b);
    } else if offset + size <= |file| {
      ParseOutcome(f, w + file[offset..offset + size], search, b);
    } else {
      assert b.write[0..] == b.write && b.read + b.write[..0] == b.read;
    }
    hide AfterParse, Good, Books.Valid;
  }

  lemma ParseOutcome(f: Format, w: seq<byte>, search: bool, b: Books)
    requires Good(f) && b.Valid()
    ensures var (ret, _, _, c) := AfterParse(f, w, search, b);
      && (ret == CellOk || ret == ErrFull) && (ret == ErrFull ==> c.write == [])
      && |c.write| <= |b.write|
      && (var n := |b.write| - |c.write|;
          c.write == b.write[n..] && c.read == b.read + b.write[..n] && c.auCount == b.auCount + n)
  {
    var o := Drain(f, w, search, |b.write|, ZEROS);
    hide Drain, Good, Books.EmitAll, Books.Valid;
    EmitAllQueues(b, o.aus);
  }

  /** What a turn of the parse loop leaves: how it ends, window, flag and books. */
  ghost function AfterTurn(f: Format, w: seq<byte>, search: bool, b: Books): (TurnEnd, seq<byte>, bool, Books)
    requires b.Valid()
  {
    match ParseTurn(f, w, search, ZEROS)
    case Stop(w', search') => (Settled, w', search', b)
    case Slide(w') => (GoOn, w', search, b)
    case Cut(au, w') => if b.write == [] then (NoBuffer, au + w', search, b) else (GoOn, w', false, b.Emit(au))
  }

  /** The AU that a turn stores fits its buffer. */
  ghost predicate TurnFits(f: Format, w: seq<byte>, search: bool, b: Books, size: nat) {
    var t := ParseTurn(f, w, search, ZEROS);
    t.Cut? && b.write != [] ==> |t.au| <= size
  }

  lemma CutFits(f: Format, w: seq<byte>, search: bool, free: nat, size: nat)
    requires Good(f) && ParseTurn(f, w, search, ZEROS).Cut? && free > 0
    requires Fit(Drain(f, w, search, free, ZEROS).aus, size)
    ensures |ParseTurn(f, w, search, ZEROS).au| <= size
  {
    hide ParseTurn;
    assert ParseTurn(f, w, search, ZEROS).au in Drain(f, w, search, free, ZEROS).aus;
  }

  /** A turn that goes on leaves the rest of the parse to be done, with a smaller window; any other ends it. */
  lemma TurnParses(f: Format, w: seq<byte>, search: bool, b: Books, size: nat)
    requires Good(f) && b.Valid() && Fit(Drain(f, w, search, |b.write|, ZEROS).aus, size)
    ensures TurnFits(f, w, search, b, size)
    ensures var (end, w', search', b') := AfterTurn(f, w, search, b);
      if end == GoOn then
        && |w'| < |w| && b'.Valid()
        && AfterParse(f, w', search', b') == AfterParse(f, w, search, b)
        && Fit(Drain(f, w', search', |b'.write|, ZEROS).aus, size)
      else
        AfterParse(f, w, search, b) == (if end == NoBuffer then ErrFull else CellOk, w', search', b')
  {
    var t := ParseTurn(f, w, search, ZEROS);
    if t.Cut? && b.write != [] {
      CutFits(f, w, search, |b.write|, size);
      CutParses(f, w, search, b, size);
    }
    hide ParseTurn, Fit;
  }

  lemma DrainCut(f: Format, w: seq<byte>, search: bool, free: nat)
    requires Good(f) && free > 0 && ParseTurn(f, w, search, ZEROS).Cut?
    ensures var t := ParseTurn(f, w, search, ZEROS);
      var o := Drain(f, t.window, false, free - 1, ZEROS);
      Drain(f, w, search, free, ZEROS) == Outcome([t.au] + o.aus, o.window, o.search, o.full)
  {
    hide ParseTurn;
  }

  lemma FitTail(au: seq<byte>, aus: seq<seq<byte>>, size: nat)
    requires Fit([au] + aus, size)
    ensures Fit(aus, size)
  {
    assert forall a <- aus :: a in [au] + aus;
  }

  lemma EmitFirst(b: Books, au: seq<byte>, aus: seq<seq<byte>>)
    requires b.Valid() && |aus| < |b.write|
    ensures b.Emit(au).Valid() && b.EmitAll([au] + aus) == b.Emit(au).EmitAll(aus)
  {
    EmitKeepsValid(b, au);
    hide Books.Valid;
    assert ([au] + aus)[1..] == aus;
  }

  lemma CutParses(f: Format, w: seq<byte>, search: bool, b: Books, size: nat)
    requires Good(f) && b.Valid() && b.write != [] && ParseTurn(f, w, search, ZEROS).Cut?
    requires Fit(Drain(f, w, search, |b.write|, ZEROS).aus, size)
    ensures var t := ParseTurn(f, w, search, ZEROS);
      && |t.window| < |w| && b.Emit(t.au).Valid()
      && AfterParse(f, t.window, false, b.Emit(t.au)) == AfterParse(f, w, search, b)
      && Fit(Drain(f, t.window, false, |b.Emit(t.au).write|, ZEROS).aus, size)
  {
    hide ParseTurn, Drain, Fit, Good, Books.Valid, Books.EmitAll;
    var t := ParseTurn(f, w, search, ZEROS);
    var o := Drain(f, t.window, false, |b.write| - 1, ZEROS);
    DrainCut(f, w, search, |b.write|);
    EmitFirst(b, t.au, o.aus);
    FitTail(t.au, o.aus, size);
  }

  lemma ShortParse(f: Format, w: seq<byte>, search: bool, b: Books)
    requires Good(f) && f.Framed? && b.Valid() && |w| <= 4
    ensures AfterParse(f, w, search, b) == (CellOk, w, search, b)
  {}

  class EsCtlInfo {
    const f: Format
    const pParseBuffer: array<byte>
    const aus: AuBuffers
    var parseSyncSearch: bool
    var parseStartIndex: nat
    var parseSize: nat
    var parseLastError: RetCode

    ghost function Window(): seq<byte>
      reads `parseStartIndex, `parseSize, pParseBuffer
      requires parseStartIndex + parseSize <= pParseBuffer.Length
    {
      pParseBuffer[parseStartIndex..parseStartIndex + parseSize]
    }

    ghost function Repr(): set<object> {
      {this, pParseBuffer} + aus.Repr()
    }

    ghost predicate Valid()
      reads `parseStartIndex, `parseSize, aus.Repr()
    {
      && Good(f) && aus.Valid() && pParseBuffer != aus.pAuBuffer
      && parseStartIndex + parseSize <= pParseBuffer.Length
    }

    /** A header at the very end of the window can still be read inside the buffer. */
    ghost predicate HeaderRoom()
      reads `parseStartIndex, `parseSize
    {
      parseStartIndex + parseSize + (if f.Framed? then f.deep - 1 else 0) <= pParseBuffer.Length
    }

    ghost predicate Cleared()
      reads `parseStartIndex, `parseSize, `parseSyncSearch, `parseLastError, aus`parseAuCount
    {
      parseStartIndex == parseSize == aus.parseAuCount == 0 && parseSyncSearch && parseLastError == CellOk
    }

    constructor (f: Format, parseBuffer: array<byte>, aus: AuBuffers)
      requires aus.parseAuCount == 0
      ensures this.f == f && pParseBuffer == parseBuffer && this.aus == aus && Cleared()
    {
      this.f, pParseBuffer, this.aus := f, parseBuffer, aus;
      parseStartIndex, parseSize := 0, 0;
      parseSyncSearch, parseLastError := true, CellOk;
    }

    method ClearParseInfo()
      requires Valid()
      modifies this, aus`parseAuCount
      ensures Valid() && Window() == [] && Cleared()
      ensures aus.Kept() == old(aus.Kept()) && aus.Ledger() == old(aus.Ledger()).(auCount := 0)
    {
      parseSyncSearch := true;
      parseStartIndex := 0;
      parseSize := 0;
      aus.ClearCount();
      parseLastError := CellOk;
    }

    // ---- Finding an AU

    /** Index in the buffer of the first sync word of the window, or -1. */
    method FindHeader() returns (headerOffset: int)
      requires parseStartIndex + parseSize <= pParseBuffer.Length && f.Framed? && parseSize >= 2
      ensures var h := SyncIndex(f, Window(), 0);
              headerOffset == if AtSync(f, Window(), h) then parseStartIndex + h else -1
    {
      headerOffset := -1;
      var end := parseStartIndex + parseSize - 1;
      ghost var w := Window();
      for index := parseStartIndex to end
        invariant headerOffset == -1
        invariant forall k: nat | k < index - parseStartIndex :: !AtSync(f, w, k)
      {
        ghost var at := index - parseStartIndex;
        assert w[at] == pParseBuffer[index] && w[at + 1] == pParseBuffer[index + 1];
        if f.sync(pParseBuffer[index], pParseBuffer[index + 1]) {
          assert AtSync(f, w, at);
          headerOffset := index;
          return;
        }
      }
    }

    /** Keeps the last byte alone, which may be half of a sync word, and searches on. */
    method KeepLastByte()
      requires parseStartIndex + parseSize <= pParseBuffer.Length && parseSize >= 2
      modifies `parseStartIndex, `parseSize, `parseSyncSearch, pParseBuffer
      ensures parseStartIndex == 0 && parseSize == 1 <= pParseBuffer.Length && parseSyncSearch
      ensures Window() == [old(Window())[old(parseSize) - 1]]
    {
      pParseBuffer[0] := pParseBuffer[parseStartIndex + parseSize - 1];
      parseStartIndex := 0;
      parseSize := 1;
      parseSyncSearch := true;
    }

    /** Moves to the first sync word. Without one, keeps the last byte. */
    method Anchor() returns (found: bool)
      requires HeaderRoom() && f.Framed? && parseSize >= 2
      requires parseStartIndex + parseSize <= pParseBuffer.Length
      modifies `parseStartIndex, `parseSize, `parseSyncSearch, pParseBuffer
      ensures parseStartIndex + parseSize <= old(parseStartIndex + parseSize)
      ensures parseStartIndex + parseSize <= pParseBuffer.Length && Window() == Core(f, old(Window()))
      ensures found == (|Core(f, old(Window()))| > 1)
      ensures parseSyncSearch == (old(parseSyncSearch) || !found)
    {
      ghost var w := Window();
      var headerOffset := FindHeader();
      found := headerOffset >= 0;
      if !found {
        KeepLastByte();
      } else {
        parseSize := parseSize - (headerOffset - parseStartIndex);
        parseStartIndex := headerOffset;
      }
    }

    /** The buffer bytes that follow the window, and zeros behind them. */
    ghost function Stale(): (r: seq<byte>)
      reads `parseStartIndex, `parseSize, pParseBuffer
      requires parseStartIndex + parseSize <= pParseBuffer.Length
      ensures |r| >= 3
    {
      pParseBuffer[parseStartIndex + parseSize..] + ZEROS
    }

    /** Length announced by the header at the front of the window, read from wherever the buffer reaches. */
    method ReadHeader() returns (auSize: nat)
      requires HeaderRoom() && Good(f) && f.Framed? && parseSize >= 2
      requires parseStartIndex + parseSize <= pParseBuffer.Length
      ensures auSize == HeaderLength(f, Window() + Stale())
    {
      ghost var all := Window() + Stale();
      assert all[1] == pParseBuffer[parseStartIndex + 1] && all[2] == pParseBuffer[parseStartIndex + 2];
      assert f.deep == 4 ==> all[4] == pParseBuffer[parseStartIndex + 4];
      var h4: byte := if f.deep == 4 then pParseBuffer[parseStartIndex + 4] else 0;
      auSize := f.length(pParseBuffer[parseStartIndex + 1], pParseBuffer[parseStartIndex + 2], h4);
    }

    /** Whether a sync word follows an AU of this size. */
    method SyncAhead(auSize: nat) returns (ahead: bool)
      requires parseStartIndex + parseSize <= pParseBuffer.Length && f.Framed? && auSize + 2 <= parseSize
      ensures ahead == AtSync(f, Window(), auSize)
    {
      var next := parseStartIndex + auSize;
      assert Window()[auSize] == pParseBuffer[next] && Window()[auSize + 1] == pParseBuffer[next + 1];
      ahead := f.sync(pParseBuffer[next], pParseBuffer[next + 1]);
    }

    /** Drops the first `count` bytes of the window. */
    method Advance(count: nat)
      requires parseStartIndex + parseSize <= pParseBuffer.Length && count <= parseSize
      modifies `parseStartIndex, `parseSize
      ensures parseStartIndex + parseSize == old(parseStartIndex + parseSize)
      ensures parseSize == old(parseSize) - count && Window() == old(Window())[count..]
    {
      parseStartIndex := parseStartIndex + count;
      parseSize := parseSize - count;
    }

    /** Whether the window holds an AU of `auSize` bytes and, while searching, a sync word behind it. */
    method CheckSize(auSize: nat) returns (found: Found)
      requires parseStartIndex + parseSize <= pParseBuffer.Length && f.Framed? && parseSize > 0
      modifies `parseStartIndex, `parseSize
      ensures parseStartIndex + parseSize == old(parseStartIndex + parseSize)
      ensures var c, search := old(Window()), parseSyncSearch;
        if |c| < auSize || (search && |c| < auSize + 2) then found == Nothing && Window() == c
        else if search && !AtSync(f, c, auSize) then found == FalseSync && Window() == c[1..]
        else found == Ready(auSize) && auSize <= parseSize && Window() == c[..auSize] + c[auSize..]
    {
      hide AtSync;
      ghost var c := Window();
      assert |c| == parseSize;
      if parseSize < auSize {
        return Nothing;
      }
      if parseSyncSearch {
        if parseSize < auSize + 2 {
          return Nothing;
        }
        var ahead := SyncAhead(auSize);
        if !ahead {
          Advance(1);
          return FalseSync;
        }
      }
      assert c[..auSize] + c[auSize..] == c;
      found := Ready(auSize);
    }

    /** What a turn finds, as ParseTurn says it. */
    ghost predicate Finds(found: Found, t: Turn, search: bool)
      reads `parseStartIndex, `parseSize, `parseSyncSearch, pParseBuffer
      requires parseStartIndex + parseSize <= pParseBuffer.Length
    {
      match t
      case Stop(w, search') => found == Nothing && Window() == w && parseSyncSearch == search'
      case Slide(w) => found == FalseSync && Window() == w && parseSyncSearch == search
      case Cut(au, w) =>
        found == Ready(|au|) && |au| <= parseSize && parseSyncSearch == search && Window() == au + w
    }

    /** One turn of the parse loop, up to the point where an AU is ready to be cut. */
    method Locate() returns (found: Found)
      requires Good(f) && HeaderRoom() && f.Framed? && parseSize > 4
      requires parseStartIndex + parseSize <= pParseBuffer.Length
      modifies `parseStartIndex, `parseSize, `parseSyncSearch, pParseBuffer
      ensures parseStartIndex + parseSize <= old(parseStartIndex + parseSize)
      ensures parseStartIndex + parseSize <= pParseBuffer.Length
      ensures Finds(found, ParseTurn(f, old(Window()), old(parseSyncSearch), ZEROS), old(parseSyncSearch))
    {
      hide ParseTurn, Core, AtSync, HeaderLength;
      ghost var w := Window();
      TurnByHeader(f, w, parseSyncSearch, ZEROS);
      found := Nothing;
      var anchored := Anchor();
      if anchored {
        TurnByHeader(f, w, parseSyncSearch, Stale());
        var auSize := ReadHeader();
        found := CheckSize(auSize);
      }
    }

    // ---- The parse loop

    /** Moves the first `auSize` bytes of the window into a free AU buffer and queues it for the decoder. */
    method EmitAu(auSize: nat) returns (ok: bool)
      requires Valid() && auSize <= parseSize && (aus.Ledger().write != [] ==> auSize <= aus.maxAuSize)
      modifies `parseStartIndex, `parseSize, `parseSyncSearch, aus.Repr()
      ensures Valid() && aus.Kept() == old(aus.Kept()) && old(aus.Ledger()).Valid()
      ensures parseStartIndex + parseSize == old(parseStartIndex + parseSize)
      ensures ok == (old(aus.Ledger()).write != [])
      ensures (Window(), parseSyncSearch, aus.Ledger()) ==
        if ok then (old(Window())[auSize..], false, old(aus.Ledger()).Emit(old(Window())[..auSize]))
        else (old(Window()), old(parseSyncSearch), old(aus.Ledger()))
    {
      ghost var w := Window();
      var au := pParseBuffer[parseStartIndex..parseStartIndex + auSize];
      assert w[..auSize] == au;
      hide Good, AuBuffers.Valid, AuBuffers.Ledger, AuBuffers.Kept, AuBuffers.Info, Books.Emit, Books.Valid;
      ok := aus.EmitAu(au);
      if ok {
        Advance(auSize);
        parseSyncSearch := false;
      }
    }

    /** One turn of the parse loop. */
    method Turn() returns (end: TurnEnd)
      requires Valid() && HeaderRoom() && f.Framed? && parseSize > 4
      requires TurnFits(f, Window(), parseSyncSearch, aus.Ledger(), aus.maxAuSize)
      modifies `parseStartIndex, `parseSize, `parseSyncSearch, pParseBuffer, aus.Repr()
      ensures Valid() && aus.Kept() == old(aus.Kept()) && old(aus.Ledger()).Valid()
      ensures parseStartIndex + parseSize <= old(parseStartIndex + parseSize)
      ensures (end, Window(), parseSyncSearch, aus.Ledger())
           == AfterTurn(f, old(Window()), old(parseSyncSearch), old(aus.Ledger()))
    {
      hide Core, Good, ParseTurn, AuBuffers.Valid, AuBuffers.Ledger, AuBuffers.Kept, AuBuffers.Info;
      aus.LedgerValid();
      ghost var t := ParseTurn(f, Window(), parseSyncSearch, ZEROS);
      var found := Locate();
      match found {
        case Nothing => end := Settled;
        case FalseSync => end := GoOn;
        case Ready(auSize) =>
          assert Window()[..auSize] == t.au && Window()[auSize..] == t.window;
          var ok := EmitAu(auSize);
          end := if ok then GoOn else NoBuffer;
      }
    }

    /** The parse loop: cuts AUs into free AU buffers until the window or the buffers run out. */
    method ParseLoop() returns (ret: RetCode)
      requires Valid() && HeaderRoom() && f.Framed?
      requires Fit(Drain(f, Window(), parseSyncSearch, |aus.Ledger().write|, ZEROS).aus, aus.maxAuSize)
      modifies `parseStartIndex, `parseSize, `parseSyncSearch, pParseBuffer, aus.Repr()
      ensures Valid() && HeaderRoom() && aus.Kept() == old(aus.Kept()) && old(aus.Ledger()).Valid()
      ensures (ret, Window(), parseSyncSearch, aus.Ledger())
           == AfterParse(f, old(Window()), old(parseSyncSearch), old(aus.Ledger()))
    {
      hide ParseTurn, Core, Good, Drain, Fit, AfterTurn, TurnFits, AfterParse;
      hide AuBuffers.Valid, AuBuffers.Ledger, AuBuffers.Kept, AuBuffers.Info;
      aus.LedgerValid();
      ghost var all := AfterParse(f, Window(), parseSyncSearch, aus.Ledger());
      while parseSize > 4
        invariant Valid() && HeaderRoom() && aus.Kept() == old(aus.Kept()) && aus.Ledger().Valid()
        invariant Fit(Drain(f, Window(), parseSyncSearch, |aus.Ledger().write|, ZEROS).aus, aus.maxAuSize)
        invariant all == AfterParse(f, Window(), parseSyncSearch, aus.Ledger())
        decreases parseSize
      {
        TurnParses(f, Window(), parseSyncSearch, aus.Ledger(), aus.maxAuSize);
        var end := Turn();
        aus.LedgerValid();
        if end != GoOn {
          return if end == NoBuffer then ErrFull else CellOk;
        }
      }
      ShortParse(f, Window(), parseSyncSearch, aus.Ledger());
      ret := CellOk;
    }

    // ---- Reading

    method MoveToFront()
      requires parseStartIndex + parseSize <= pParseBuffer.Length
      modifies `parseStartIndex, pParseBuffer
      ensures parseStartIndex == 0 && Window() == old(Window())
    {
      if parseStartIndex > 0 {
        forall k | 0 <= k < parseSize { pParseBuffer[k] := pParseBuffer[parseStartIndex + k]; }
        parseStartIndex := 0;
      }
    }

    /** Reads a chunk of the file into the buffer, behind the window. */
    method ReadAt(bfr: UtilBufferedFileReader, offset: nat, size: nat) returns (ok: bool)
      requires bfr.Valid() && bfr.open && bfr.bUnbufferedMode && bfr.buffer != pParseBuffer
      requires parseSize + size <= pParseBuffer.Length
      modifies pParseBuffer, bfr
      ensures bfr.Valid() && bfr.open && bfr.bUnbufferedMode
      ensures ok == (offset + size <= |bfr.file|)
      ensures pParseBuffer[..parseSize] == old(pParseBuffer[..parseSize])
      ensures ok ==> pParseBuffer[parseSize..parseSize + size] == bfr.file[offset..offset + size]
    {
      var ret := bfr.Seek(offset, Set);
      if ret == 0 {
        ret := bfr.UnbufferedRead(pParseBuffer, parseSize, size);
        assert pParseBuffer[..parseSize] == pParseBuffer[..][..parseSize];
        assert pParseBuffer[parseSize..parseSize + size] == pParseBuffer[..][parseSize..parseSize + size];
      }
      ok := ret == 0;
    }

    /** Moves the window to the front of the buffer and reads a chunk of the file behind it. */
    method ReadChunk(bfr: UtilBufferedFileReader, offset: nat, size: nat) returns (ok: bool)
      requires bfr.Valid() && bfr.open && bfr.bUnbufferedMode && bfr.buffer != pParseBuffer
      requires parseStartIndex + parseSize <= pParseBuffer.Length && parseSize + size <= pParseBuffer.Length
      modifies `parseStartIndex, `parseSize, pParseBuffer, bfr
      ensures bfr.Valid() && bfr.open && bfr.bUnbufferedMode
      ensures ok == (offset + size <= |bfr.file|)
      ensures parseStartIndex == 0 && parseSize == old(parseSize) + if ok then size else 0
      ensures Window() == if ok then old(Window()) + bfr.file[offset..offset + size] else old(Window())
    {
      ghost var w := Window();
      MoveToFront();
      ok := ReadAt(bfr, offset, size);
      if ok { parseSize := parseSize + size; }
    }

    // ---- Calls

    /** What a call needs: room for its chunk and the header reads behind it, unless it goes on with the last one. */
    ghost predicate CallRoom(size: nat)
      reads `parseStartIndex, `parseSize, `parseLastError
    {
      if parseLastError == CellOk
      then parseSize + size + (if f.Framed? then f.deep - 1 else 0) <= pParseBuffer.Length
      else HeaderRoom()
    }

    /** The reader can be read from, and shares no memory with the stream. */
    ghost predicate Readable(bfr: UtilBufferedFileReader)
      reads bfr, bfr.buffer
    {
      && bfr.Valid() && bfr.open && bfr.bUnbufferedMode
      && bfr.buffer != pParseBuffer && bfr.buffer != aus.pAuBuffer
    }

    /** The read part of a call: nothing to read when the last call ran out of AUs. */
    method TakeChunk(bfr: UtilBufferedFileReader, offset: nat, size: nat) returns (ok: bool)
      requires Valid() && Readable(bfr) && CallRoom(size)
      modifies `parseStartIndex, `parseSize, pParseBuffer, bfr
      ensures Valid() && HeaderRoom() && Readable(bfr)
      ensures aus.Ledger() == old(aus.Ledger()) && aus.Kept() == old(aus.Kept())
      ensures ok == (parseLastError != CellOk || offset + size <= |bfr.file|)
      ensures Window() ==
        if parseLastError == CellOk && ok then old(Window()) + bfr.file[offset..offset + size] else old(Window())
    {
      ok := true;
      if parseLastError == CellOk {
        ok := ReadChunk(bfr, offset, size);
      }
    }

    /** Reads, if there is something to read, and parses. */
    method ReadAndParse(bfr: UtilBufferedFileReader, offset: nat, size: nat) returns (ret: RetCode)
      requires Valid() && f.Framed? && Readable(bfr) && CallRoom(size)
      requires
        CallFits(f, parseLastError, Window(), parseSyncSearch, aus.Ledger(), bfr.file, offset, size, aus.maxAuSize)
      modifies `parseStartIndex, `parseSize, `parseSyncSearch, pParseBuffer, bfr, aus.Repr()
      ensures Valid() && HeaderRoom() && Readable(bfr) && aus.Kept() == old(aus.Kept()) && old(aus.Ledger()).Valid()
      ensures (ret, Window(), parseSyncSearch, aus.Ledger())
           == AfterCall(f, parseLastError, old(Window()), old(parseSyncSearch), old(aus.Ledger()),
                        bfr.file, offset, size)
    {
      hide AfterParse, Good, Fit, Drain, AuBuffers.Valid, AuBuffers.Ledger, AuBuffers.Kept, AuBuffers.Info;
      hide Readable, CallRoom, HeaderRoom, UtilBufferedFileReader.Valid;
      aus.LedgerValid();
      ret := ErrFatal;
      var ok := TakeChunk(bfr, offset, size);
      if ok {
        ret := ParseLoop();
      }
    }

    /**
     Parses the chunk at a position of the file, or goes on with the last one after running out of
     AUs. Room for header reads, and for the next call if it is to go on, is left behind.
     */
    method ParseAudioEs(bfr: UtilBufferedFileReader, offset: nat, size: nat) returns (ret: RetCode)
      requires Valid() && f.Framed? && Readable(bfr) && CallRoom(size)
      requires
        CallFits(f, parseLastError, Window(), parseSyncSearch, aus.Ledger(), bfr.file, offset, size, aus.maxAuSize)
      modifies this, pParseBuffer, bfr, aus.Repr()
      ensures Valid() && HeaderRoom() && Readable(bfr) && aus.Kept() == old(aus.Kept()) && old(aus.Ledger()).Valid()
      ensures ret == parseLastError
      ensures (ret, Window(), parseSyncSearch, aus.Ledger())
           == AfterCall(f, old(parseLastError), old(Window()), old(parseSyncSearch), old(aus.Ledger()),
                        bfr.file, offset, size)
    {
      hide AfterCall, CallFits, Good, AuBuffers.Valid, AuBuffers.Ledger, AuBuffers.Kept, AuBuffers.Info;
      ret := ReadAndParse(bfr, offset, size);
      parseLastError := ret;
    }

    /** Stores what was read in AU `au`, in hand; a failed read gives the AU back. */
    method StoreRead(au: nat, failed: bool, data: seq<byte>) returns (ret: RetCode)
      requires aus.QueuesHolding(au) && aus.StoreValid() && |data| <= aus.maxAuSize
      modifies aus.Repr()
      ensures aus.Valid() && aus.Kept() == old(Queued(aus.auReleaseQueue)) && au < aus.pAuInfo.Length
      ensures var w, r, info := old(Queued(aus.auWriteQueue)), old(Queued(aus.auReadQueue)), old(aus.Info());
        var n := old(aus.parseAuCount);
        (ret, aus.Ledger()) ==
          if failed then (ErrFatal, Books(w + [au], r, info, n))
          else (CellOk, Books(w, r + [au], info[au := AuInfo(data, if n == 0 then Some(0) else None)], n + 1))
    {
      aus.HoldingIndex(au);
      hide AuBuffers.QueuesHolding, AuBuffers.QueuesValid, AuBuffers.StoreValid, AuBuffers.Info, AtRest;
      if failed {
        aus.PutBack(au);
        ret := ErrFatal;
      } else {
        aus.FillAu(au, data);
        ret := CellOk;
      }
    }

    /** Reads a whole AU from the file into AU `au`, in hand. */
    method StoreWhole(au: nat, bfr: UtilBufferedFileReader, offset: nat, size: nat) returns (ret: RetCode)
      requires aus.QueuesHolding(au) && aus.StoreValid() && Readable(bfr) && size <= aus.maxAuSize
      modifies bfr, aus.Repr()
      ensures aus.Valid() && Readable(bfr) && aus.Kept() == old(Queued(aus.auReleaseQueue)) && au < aus.pAuInfo.Length
      ensures var w, r, info := old(Queued(aus.auWriteQueue)), old(Queued(aus.auReadQueue)), old(aus.Info());
        var n, pts := old(aus.parseAuCount), if old(aus.parseAuCount) == 0 then Some(0) else None;
        (ret, aus.Ledger()) ==
          if offset + size > |bfr.file| then (ErrFatal, Books(w + [au], r, info, n))
          else (CellOk, Books(w, r + [au], info[au := AuInfo(bfr.file[offset..offset + size], pts)], n + 1))
    {
      hide AuBuffers.QueuesHolding, AuBuffers.QueuesValid, AuBuffers.StoreValid, AuBuffers.Info, AtRest;
      var failed, data := ReadWhole(bfr, offset, size);
      ret := StoreRead(au, failed, data);
    }

    /** Takes a free AU for a chunk that is not empty, and stores it there. */
    method TakeAndStore(bfr: UtilBufferedFileReader, offset: nat, size: nat) returns (ret: RetCode)
      requires aus.Valid() && Readable(bfr) && 0 < size <= aus.maxAuSize
      modifies bfr, aus.Repr()
      ensures aus.Valid() && Readable(bfr) && aus.Kept() == old(aus.Kept()) && old(aus.Ledger()).Valid()
      ensures (ret, aus.Ledger()) == AfterWhole(old(aus.Ledger()), bfr.file, offset, size)
    {
      aus.LedgerValid();
      hide Good, AtRest, AuBuffers.QueuesHolding, AuBuffers.StoreValid, AuBuffers.Info, Readable;
      var au := aus.TakeAu();
      if au.None? {
        ret := ErrFull;
      } else {
        ret := StoreWhole(au.value, bfr, offset, size);
      }
    }

    /** There is nothing to do for an empty chunk. */
    method TakeWhole(bfr: UtilBufferedFileReader, offset: nat, size: nat) returns (ret: RetCode)
      requires aus.Valid() && Readable(bfr) && size <= aus.maxAuSize
      modifies bfr, aus.Repr()
      ensures aus.Valid() && Readable(bfr) && aus.Kept() == old(aus.Kept()) && old(aus.Ledger()).Valid()
      ensures (ret, aus.Ledger()) == AfterWhole(old(aus.Ledger()), bfr.file, offset, size)
    {
      if size > 0 {
        hide *;
        ret := TakeAndStore(bfr, offset, size);
      } else {
        aus.LedgerValid();
        hide AuBuffers.Valid, AuBuffers.Ledger, AuBuffers.Kept, Readable;
        ret := CellOk;
      }
    }

    /** Streams whose chunks are whole AUs: the chunk at a position goes straight into a free AU buffer. */
    method ParseDefaultEs(bfr: UtilBufferedFileReader, offset: nat, size: nat) returns (ret: RetCode)
      requires Valid() && f.Whole? && Readable(bfr) && size <= aus.maxAuSize
      modifies `parseLastError, bfr, aus.Repr()
      ensures Valid() && Readable(bfr) && aus.Kept() == old(aus.Kept()) && old(aus.Ledger()).Valid()
      ensures ret == parseLastError
      ensures (ret, aus.Ledger()) == AfterWhole(old(aus.Ledger()), bfr.file, offset, size)
    {
      hide AfterWhole, Good, AuBuffers.Valid, AuBuffers.Ledger, AuBuffers.Kept;
      ret := TakeWhole(bfr, offset, size);
      parseLastError := ret;
    }
  }

  /** Sets a stream up: all its AUs are free to write. */
  method EnableEs(f: Format, auBufferNum: nat, maxAuSize: nat, parseBufferSize: nat) returns (es: EsCtlInfo)
    requires Good(f)
    ensures es.Valid() && es.Cleared() && fresh(es.Repr())
    ensures es.f == f && es.pParseBuffer.Length == parseBufferSize
    ensures es.aus.maxAuSize == maxAuSize && |es.aus.Ledger().info| == auBufferNum
    ensures es.aus.Ledger().write == Indices(auBufferNum) && es.aus.Ledger().read == [] && es.aus.Kept() == []
  {
    var parseBuffer := new byte[parseBufferSize];
    var aus := NewAuBuffers(auBufferNum, maxAuSize);
    hide Good, AuBuffers.Valid, AuBuffers.Kept;
    es := new EsCtlInfo(f, parseBuffer, aus);
  }
}
