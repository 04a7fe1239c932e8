/**
 A stream played in place: the demultiplexer's calls to the parser at one position of the index after
 another, with AUs taken and released by the decoder between the calls, on the real buffers.
 */
module StreamPlayer {
  import opened Bytes
  import opened Results
  import opened Ownership
  import opened AuStore
  import opened BufferedReader
  import opened Framing
  import opened Chunking
  import opened Resuming
  import opened AuBuffers
  import opened EsParser

  /** A position of the index: where a chunk is in the file. */
  datatype Place = Place(offset: nat, size: nat)

  predicate InFile(places: seq<Place>, fileSize: nat, maxDataSize: nat) {
    forall p <- places :: p.offset + p.size <= fileSize && p.size <= maxDataSize
  }

  function Chunks(file: seq<byte>, places: seq<Place>): (r: seq<seq<byte>>)
    ensures |r| == |places|
  {
    seq(|places|, i requires 0 <= i < |places| =>
      var p := places[i];
      if p.offset + p.size <= |file| then file[p.offset..p.offset + p.size] else [])
  }

  // ---- The decoder

  lemma AuIsInfo(bytes: seq<byte>, headers: seq<AuHeader>, stride: nat, au: nat)
    requires Laid(bytes, headers, stride) && au < |headers|
    ensures headers[au].auAddr + headers[au].auSize <= |bytes|
    ensures AuInfo(bytes[headers[au].auAddr..headers[au].auAddr + headers[au].auSize], headers[au].pts)
         == Infos(bytes, headers, stride)[au]
  {
    LaidStore(bytes, headers, stride);
    SlotsInside(StoreOf(bytes, headers, stride), au);
  }

  /** What the decoder finds at an AU's address. */
  method ReadAu(aus: AuBuffers, au: nat) returns (data: seq<byte>, pts: Option<nat>)
    requires aus.Valid() && au < aus.pAuInfo.Length
    ensures aus.Info()[au] == AuInfo(data, pts)
  {
    var header := aus.pAuInfo[au];
    AuIsInfo(aus.pAuBuffer[..], aus.pAuInfo[..], aus.maxAuSize, au);
    hide Infos, Laid;
    data := aus.pAuBuffer[header.auAddr..header.auAddr + header.auSize];
    pts := header.pts;
  }

  /** The books after the decoder has taken and released the oldest filled AU. */
  function Passed(b: Books): Books
    requires b.read != []
  {
    b.(read := b.read[1..], write := b.write + [b.read[0]])
  }

  lemma PassedFilled(b: Books)
    requires b.Valid() && b.read != [] && Passed(b).Valid()
    ensures b.Filled() == [b.info[b.read[0]].data] + Passed(b).Filled()
    ensures b.Stamps() == [b.info[b.read[0]].pts] + Passed(b).Stamps()
  {}

  /** The decoder takes the oldest filled AU, reads it and releases it. */
  method TakeOne(aus: AuBuffers) returns (data: seq<byte>, pts: Option<nat>)
    requires aus.Valid() && aus.Kept() == [] && aus.Ledger().read != []
    modifies aus.Repr()
    ensures aus.Valid() && aus.Kept() == [] && aus.Ledger() == Passed(old(aus.Ledger()))
    ensures aus.parseAuCount == old(aus.parseAuCount)
    ensures old(aus.Ledger()).Valid() && aus.Ledger().Valid()
    ensures old(aus.Ledger()).Filled() == [data] + aus.Ledger().Filled()
    ensures old(aus.Ledger()).Stamps() == [pts] + aus.Ledger().Stamps()
  {
    hide AtRest, AuBuffers.Info;
    aus.LedgerValid();
    ghost var b := aus.Ledger();
    var ret, au := aus.GetAu();
    data, pts := ReadAu(aus, au.value);
    ret := aus.ReleaseAu();
    aus.LedgerValid();
    PassedFilled(b);
    hide Books.Valid, Books.Filled, Books.Stamps, AuBuffers.Valid;
  }

  /** The decoder takes and releases up to `count` AUs. */
  method TakeSome(aus: AuBuffers, count: nat) returns (taken: seq<seq<byte>>, stamps: seq<Option<nat>>)
    requires aus.Valid() && aus.Kept() == []
    modifies aus.Repr()
    ensures aus.Valid() && aus.Kept() == []
    ensures old(aus.Ledger()).Valid() && aus.Ledger().Valid()
    ensures old(aus.Ledger()).Filled() == taken + aus.Ledger().Filled()
    ensures old(aus.Ledger()).Stamps() == stamps + aus.Ledger().Stamps()
    ensures |stamps| == |taken| && aus.parseAuCount == old(aus.parseAuCount)
  {
    hide AuBuffers.Valid, AuBuffers.Ledger, AuBuffers.Kept, Books.Valid, Books.Filled, Books.Stamps;
    aus.LedgerValid();
    taken, stamps := [], [];
    ghost var all, times := aus.Ledger().Filled(), aus.Ledger().Stamps();
    for i := 0 to count
      invariant aus.Valid() && aus.Kept() == [] && aus.Ledger().Valid() && aus.parseAuCount == old(aus.parseAuCount)
      invariant all == taken + aus.Ledger().Filled() && times == stamps + aus.Ledger().Stamps() && |stamps| == |taken|
    {
      var any := HasFilled(aus);
      if any {
        var data, pts := TakeOne(aus);
        taken, stamps := taken + [data], stamps + [pts];
      }
    }
  }

  method HasFilled(aus: AuBuffers) returns (any: bool)
    requires aus.Valid()
    ensures any == (aus.Ledger().read != [])
  {
    var slot, count := aus.auReadQueue.Peek();
    any := count > 0;
  }

  // ---- One call

  lemma FromHead(chunks: seq<seq<byte>>, pos: nat)
    requires pos < |chunks|
    ensures From(chunks, pos) == [chunks[pos]] + From(chunks, pos + 1)
  {}

  /** The window that a call parses: with its chunk, or as the last call left it. */
  function CallWindow(w: seq<byte>, full: bool, chunk: seq<byte>): seq<byte> {
    if full then w else w + chunk
  }

  lemma CallStarts(f: Format, w: seq<byte>, search: bool, full: bool, chunks: seq<seq<byte>>, pos: nat)
    requires Good(f) && pos < |chunks|
    ensures PendingCall(f, w, search, full, chunks, pos)
         == PendingFrom(f, CallWindow(w, full, chunks[pos]), search, From(chunks, pos + 1))
  {
    FromHead(chunks, pos);
    hide Drain;
    assert ([chunks[pos]] + From(chunks, pos + 1))[1..] == From(chunks, pos + 1);
  }

  /** What has been taken, what is queued and what is to come make up the whole stream. */
  ghost predicate OnCourse(f: Format, taken: seq<seq<byte>>, b: Books, w: seq<byte>, search: bool, full: bool,
                           chunks: seq<seq<byte>>, pos: nat)
    requires Good(f) && b.Valid()
  {
    taken + b.Filled() + PendingCall(f, w, search, full, chunks, pos) == Total(f, chunks)
  }

  /** A call's AUs are the next of the stream, so they fit their buffers if the stream's do. */
  lemma CallParses(f: Format, taken: seq<seq<byte>>, b: Books, w: seq<byte>, search: bool, full: bool,
                   chunks: seq<seq<byte>>, pos: nat, maxAuSize: nat)
    requires Good(f) && b.Valid() && pos < |chunks| && Fit(Total(f, chunks), maxAuSize)
    requires OnCourse(f, taken, b, w, search, full, chunks, pos)
    ensures var u := CallWindow(w, full, chunks[pos]);
      var o := Drain(f, u, search, |b.write|, ZEROS);
      var b' := b.EmitAll(o.aus);
      && Fit(o.aus, maxAuSize) && b'.Valid()
      && OnCourse(f, taken, b', o.window, o.search, o.full, chunks, if o.full then pos else pos + 1)
      && (!o.full ==> |o.window| <= CarryBound(f))
  {
    assert |ZEROS| == 3;
    hide *;
    var u := CallWindow(w, full, chunks[pos]);
    var o := Drain(f, u, search, |b.write|, ZEROS);
    var next := if o.full then pos else pos + 1;
    var rest := PendingCall(f, o.window, o.search, o.full, chunks, next);
    CallStarts(f, w, search, full, chunks, pos);
    CallLeaves(f, u, search, |b.write|, chunks, pos);
    DrainCarry(f, u, search, |b.write|);
    DrainUses(f, u, search, |b.write|);
    EmitAllFilled(b, o.aus);
    CourseIs(f, taken, b, w, search, full, chunks, pos);
    CourseIs(f, taken, b.EmitAll(o.aus), o.window, o.search, o.full, chunks, next);
    Regroup(taken, b.Filled(), o.aus, rest, Total(f, chunks));
    FitInside(taken + b.Filled(), o.aus, rest, maxAuSize);
  }

  lemma DrainUses(f: Format, w: seq<byte>, search: bool, free: nat)
    requires Good(f)
    ensures |Drain(f, w, search, free, ZEROS).aus| <= free
  {}

  lemma CallLeaves(f: Format, u: seq<byte>, search: bool, free: nat, chunks: seq<seq<byte>>, pos: nat)
    requires Good(f)
    ensures var o := Drain(f, u, search, free, ZEROS);
      PendingFrom(f, u, search, From(chunks, pos + 1))
        == o.aus + PendingCall(f, o.window, o.search, o.full, chunks, if o.full then pos else pos + 1)
  {
    hide Drain, PendingFrom, Feed, From, Good;
    CallPending(f, u, search, free, From(chunks, pos + 1));
  }

  lemma CourseIs(f: Format, taken: seq<seq<byte>>, b: Books, w: seq<byte>, search: bool, full: bool,
                 chunks: seq<seq<byte>>, pos: nat)
    requires Good(f) && b.Valid()
    ensures OnCourse(f, taken, b, w, search, full, chunks, pos)
       <==> taken + b.Filled() + PendingCall(f, w, search, full, chunks, pos) == Total(f, chunks)
  {}

  lemma Regroup(taken: seq<seq<byte>>, filled: seq<seq<byte>>, aus: seq<seq<byte>>, rest: seq<seq<byte>>,
                total: seq<seq<byte>>)
    ensures taken + filled + (aus + rest) == taken + (filled + aus) + rest
    ensures taken + filled + (aus + rest) == (taken + filled) + aus + rest
  {}

  lemma FitInside(before: seq<seq<byte>>, aus: seq<seq<byte>>, rest: seq<seq<byte>>, size: nat)
    requires Fit(before + aus + rest, size)
    ensures Fit(aus, size)
  {
    forall au <- aus ensures |au| <= size { assert au in before + aus + rest; }
  }

  // ---- Time stamps

  /** With `n` AUs taken, those filled and not taken have the stamps that follow; all of them were counted. */
  ghost predicate Timed(n: nat, b: Books) {
    b.Valid() && b.auCount == n + |b.read| && b.Stamps() == FirstAtZero(n, |b.read|)
  }

  lemma StampsJoin(n: nat, a: nat, b: nat)
    ensures FirstAtZero(n, a) + FirstAtZero(n + a, b) == FirstAtZero(n, a + b)
  {}

  lemma TimedEmit(n: nat, b: Books, aus: seq<seq<byte>>)
    requires Timed(n, b) && |aus| <= |b.write|
    ensures Timed(n, b.EmitAll(aus))
  {
    EmitAllQueues(b, aus);
    EmitAllStamps(b, aus);
    StampsJoin(n, |b.read|, |aus|);
    hide Books.Valid, Books.Stamps, Books.EmitAll, FirstAtZero;
  }

  lemma TimedTaken(n: nat, b: Books, b': Books, stamps: seq<Option<nat>>)
    requires Timed(n, b) && b'.Valid() && b'.auCount == b.auCount && b.Stamps() == stamps + b'.Stamps()
    ensures Timed(n + |stamps|, b') && stamps == FirstAtZero(n, |stamps|)
  {
    assert |b.Stamps()| == |b.read| && |b'.Stamps()| == |b'.read|;
    StampsJoin(n, |stamps|, |b'.read|);
    hide Books.Valid, Books.Stamps, FirstAtZero;
    SplitEqual(stamps, b'.Stamps(), FirstAtZero(n, |stamps|), FirstAtZero(n + |stamps|, |b'.read|));
  }

  lemma SplitEqual<T>(a: seq<T>, b: seq<T>, c: seq<T>, d: seq<T>)
    requires a + b == c + d && |a| == |c|
    ensures a == c && b == d
  {
    assert a == (a + b)[..|a|] && c == (c + d)[..|c|];
    assert b == (a + b)[|a|..] && d == (c + d)[|c|..];
  }

  /** Where the stream stands between two calls; a call to go on with has a position. */
  ghost predicate Stands(f: Format, taken: seq<seq<byte>>, b: Books, w: seq<byte>, search: bool, err: RetCode,
                         chunks: seq<seq<byte>>, pos: nat)
    requires Good(f)
  {
    && Timed(|taken|, b) && (err == CellOk || err == ErrFull)
    && (if err == CellOk then pos <= |chunks| && |w| <= CarryBound(f) else pos < |chunks|)
    && OnCourse(f, taken, b, w, search, err != CellOk, chunks, pos)
  }

  /** The chunk at position `pos` is what the file holds at place `p`. */
  predicate ChunkIs(chunks: seq<seq<byte>>, pos: nat, file: seq<byte>, p: Place) {
    pos < |chunks| && p.offset + p.size <= |file| && chunks[pos] == file[p.offset..p.offset + p.size]
  }

  lemma CallIsParse(f: Format, b: Books, w: seq<byte>, search: bool, err: RetCode, chunks: seq<seq<byte>>, pos: nat,
                    file: seq<byte>, p: Place, maxAuSize: nat)
    requires Good(f) && b.Valid() && ChunkIs(chunks, pos, file, p)
    ensures pos < |chunks|
    ensures var u := CallWindow(w, err != CellOk, chunks[pos]);
      && AfterCall(f, err, w, search, b, file, p.offset, p.size) == AfterParse(f, u, search, b)
      && CallFits(f, err, w, search, b, file, p.offset, p.size, maxAuSize)
         == Fit(Drain(f, u, search, |b.write|, ZEROS).aus, maxAuSize)
  {
    hide Drain, AfterParse, Fit, Good, Books.Valid;
  }

  lemma ParseStands(f: Format, taken: seq<seq<byte>>, b: Books, w: seq<byte>, search: bool, err: RetCode,
                    chunks: seq<seq<byte>>, pos: nat, maxAuSize: nat)
    requires Good(f) && Stands(f, taken, b, w, search, err, chunks, pos) && Fit(Total(f, chunks), maxAuSize)
    requires pos < |chunks|
    ensures var u := CallWindow(w, err != CellOk, chunks[pos]);
      && Fit(Drain(f, u, search, |b.write|, ZEROS).aus, maxAuSize)
      && var (ret, w', search', b') := AfterParse(f, u, search, b);
         Stands(f, taken, b', w', search', ret, chunks, if ret == CellOk then pos + 1 else pos)
  {
    CallParses(f, taken, b, w, search, err != CellOk, chunks, pos, maxAuSize);
    TimedEmit(|taken|, b, Drain(f, CallWindow(w, err != CellOk, chunks[pos]), search, |b.write|, ZEROS).aus);
    hide Timed, OnCourse, Drain, Books.Valid, Total, Fit, CarryBound, CallWindow, Good, Books.EmitAll;
  }

  lemma CallStands(f: Format, taken: seq<seq<byte>>, b: Books, w: seq<byte>, search: bool, err: RetCode,
                   chunks: seq<seq<byte>>, pos: nat, file: seq<byte>, p: Place, maxAuSize: nat)
    requires Good(f) && Stands(f, taken, b, w, search, err, chunks, pos) && Fit(Total(f, chunks), maxAuSize)
    requires ChunkIs(chunks, pos, file, p)
    ensures CallFits(f, err, w, search, b, file, p.offset, p.size, maxAuSize)
    ensures var (ret, w', search', b') := AfterCall(f, err, w, search, b, file, p.offset, p.size);
      Stands(f, taken, b', w', search', ret, chunks, if ret == CellOk then pos + 1 else pos)
  {
    assert b.Valid();
    hide *;
    CallIsParse(f, b, w, search, err, chunks, pos, file, p, maxAuSize);
    ParseStands(f, taken, b, w, search, err, chunks, pos, maxAuSize);
  }

  lemma TakenStands(f: Format, taken: seq<seq<byte>>, more: seq<seq<byte>>, stamps: seq<Option<nat>>,
                    b: Books, b': Books, w: seq<byte>, search: bool, err: RetCode, chunks: seq<seq<byte>>, pos: nat)
    requires Good(f) && Stands(f, taken, b, w, search, err, chunks, pos)
    requires b'.Valid() && b.Filled() == more + b'.Filled()
    requires |stamps| == |more| && b'.auCount == b.auCount && b.Stamps() == stamps + b'.Stamps()
    ensures Stands(f, taken + more, b', w, search, err, chunks, pos) && stamps == FirstAtZero(|taken|, |stamps|)
  {
    TimedTaken(|taken|, b, b', stamps);
    hide Timed, Books.Valid, Books.Filled, Total, PendingCall;
    assert taken + (more + b'.Filled()) == taken + more + b'.Filled();
  }

  // ---- The stream

  /** The sizes of the stream's buffers are fit for its format and its positions. */
  ghost predicate BuffersFit(f: Format, bufferSize: nat, maxAuSize: nat, file: seq<byte>, places: seq<Place>,
                             maxDataSize: nat)
    requires Good(f)
  {
    && InFile(places, |file|, maxDataSize)
    && f.Framed? && bufferSize == 2 * maxDataSize && f.maxLength + f.deep <= maxDataSize
    && Fit(Total(f, Chunks(file, places)), maxAuSize)
  }

  ghost predicate Ready(es: EsCtlInfo, bfr: UtilBufferedFileReader, places: seq<Place>, maxDataSize: nat)
    reads es`parseStartIndex, es`parseSize, es.aus.Repr(), bfr, bfr.buffer
  {
    && es.Valid() && es.f.Framed? && es.Readable(bfr) && es.aus.Kept() == []
    && BuffersFit(es.f, es.pParseBuffer.Length, es.aus.maxAuSize, bfr.file, places, maxDataSize)
  }

  /** Where the stream in place stands. */
  ghost predicate Between(es: EsCtlInfo, chunks: seq<seq<byte>>, pos: nat, taken: seq<seq<byte>>)
    reads es, es.pParseBuffer, es.aus.Repr()
    requires es.Valid()
  {
    && Stands(es.f, taken, es.aus.Ledger(), es.Window(), es.parseSyncSearch, es.parseLastError, chunks, pos)
    && (es.parseLastError != CellOk ==> es.HeaderRoom())
  }

  lemma ChunkAt(file: seq<byte>, places: seq<Place>, maxDataSize: nat, pos: nat)
    requires InFile(places, |file|, maxDataSize) && pos < |places|
    ensures places[pos].size <= maxDataSize && ChunkIs(Chunks(file, places), pos, file, places[pos])
  {}

  lemma RoomForCall(es: EsCtlInfo, bfr: UtilBufferedFileReader, places: seq<Place>, maxDataSize: nat, pos: nat,
                    taken: seq<seq<byte>>)
    requires Ready(es, bfr, places, maxDataSize) && pos < |places|
    requires Between(es, Chunks(bfr.file, places), pos, taken)
    ensures es.CallRoom(places[pos].size) && places[pos].offset + places[pos].size <= |bfr.file|
  {
    ChunkAt(bfr.file, places, maxDataSize, pos);
    hide OnCourse, Total, Fit, InFile, Chunks, Good, AuBuffers.Valid, AuBuffers.Ledger;
  }

  lemma BetweenStands(es: EsCtlInfo, bfr: UtilBufferedFileReader, places: seq<Place>, maxDataSize: nat, pos: nat,
                      taken: seq<seq<byte>>)
    requires Ready(es, bfr, places, maxDataSize) && Between(es, Chunks(bfr.file, places), pos, taken)
    ensures Good(es.f) && InFile(places, |bfr.file|, maxDataSize)
    ensures Fit(Total(es.f, Chunks(bfr.file, places)), es.aus.maxAuSize)
    ensures Stands(es.f, taken, es.aus.Ledger(), es.Window(), es.parseSyncSearch, es.parseLastError,
                   Chunks(bfr.file, places), pos)
    ensures es.aus.Ledger().Valid()
  {
    hide Good, InFile, Fit, Total, Chunks, OnCourse, Books.Valid, AuBuffers.Valid, AuBuffers.Ledger, AuBuffers.Kept;
  }

  /** What a call at position `pos` needs, and where it leaves the stream. */
  lemma CallReady(es: EsCtlInfo, bfr: UtilBufferedFileReader, places: seq<Place>, maxDataSize: nat, pos: nat,
                  taken: seq<seq<byte>>)
    requires Ready(es, bfr, places, maxDataSize) && pos < |places|
    requires Between(es, Chunks(bfr.file, places), pos, taken)
    ensures es.aus.Ledger().Valid() && es.CallRoom(places[pos].size)
    ensures CallFits(es.f, es.parseLastError, es.Window(), es.parseSyncSearch, es.aus.Ledger(), bfr.file,
                     places[pos].offset, places[pos].size, es.aus.maxAuSize)
    ensures var (ret, w, search, b) := AfterCall(es.f, es.parseLastError, es.Window(), es.parseSyncSearch,
        es.aus.Ledger(), bfr.file, places[pos].offset, places[pos].size);
      Stands(es.f, taken, b, w, search, ret, Chunks(bfr.file, places), if ret == CellOk then pos + 1 else pos)
  {
    RoomForCall(es, bfr, places, maxDataSize, pos, taken);
    BetweenStands(es, bfr, places, maxDataSize, pos, taken);
    hide *;
    ChunkAt(bfr.file, places, maxDataSize, pos);
    CallStands(es.f, taken, es.aus.Ledger(), es.Window(), es.parseSyncSearch, es.parseLastError,
               Chunks(bfr.file, places), pos, bfr.file, places[pos], es.aus.maxAuSize);
  }

  /** A call for the position `pos`. */
  method CallParser(es: EsCtlInfo, bfr: UtilBufferedFileReader, places: seq<Place>, maxDataSize: nat, pos: nat,
                    ghost taken: seq<seq<byte>>) returns (next: nat)
    requires Ready(es, bfr, places, maxDataSize) && pos < |places|
    requires Between(es, Chunks(bfr.file, places), pos, taken)
    modifies es, es.pParseBuffer, bfr, es.aus.Repr()
    ensures Ready(es, bfr, places, maxDataSize) && Between(es, Chunks(bfr.file, places), next, taken)
    ensures next == (if es.parseLastError == CellOk then pos + 1 else pos)
  {
    CallReady(es, bfr, places, maxDataSize, pos, taken);
    hide Stands, AfterCall, CallFits, BuffersFit, Chunks, Good, EsCtlInfo.CallRoom, EsCtlInfo.Readable;
    hide AuBuffers.Valid, AuBuffers.Ledger, AuBuffers.Kept, AuBuffers.Info, UtilBufferedFileReader.Valid;
    var ret := es.ParseAudioEs(bfr, places[pos].offset, places[pos].size);
    next := if ret == CellOk then pos + 1 else pos;
  }

  /**
   The stream played under any schedule: before each call the decoder takes and releases as many
   AUs as `schedule` says. Every access stays inside the buffers; what the decoder has taken, what is
   queued for it and what is still to come make up what a parser with unlimited buffers emits, and
   past the last position nothing is to come. Of all the AUs taken only the first has a time stamp.
   */
  method Play(es: EsCtlInfo, bfr: UtilBufferedFileReader, places: seq<Place>, maxDataSize: nat, schedule: seq<nat>)
    returns (taken: seq<seq<byte>>, stamps: seq<Option<nat>>, pos: nat)
    requires Ready(es, bfr, places, maxDataSize) && es.Cleared() && es.aus.Ledger().read == []
    modifies es, es.pParseBuffer, bfr, es.aus.Repr()
    ensures Ready(es, bfr, places, maxDataSize) && Between(es, Chunks(bfr.file, places), pos, taken)
    ensures es.aus.Ledger().Valid() && pos <= |places|
    ensures taken + es.aus.Ledger().Filled() <= Total(es.f, Chunks(bfr.file, places))
    ensures pos == |places| ==> taken + es.aus.Ledger().Filled() == Total(es.f, Chunks(bfr.file, places))
    ensures |stamps| == |taken| && forall k | 0 <= k < |stamps| :: stamps[k] == if k == 0 then Some(0) else None
  {
    ghost var chunks := Chunks(bfr.file, places);
    taken, stamps, pos := [], [], 0;
    es.aus.LedgerValid();
    StartStands(es.f, es.aus.Ledger(), es.Window(), chunks);
    for i := 0 to |schedule|
      invariant Ready(es, bfr, places, maxDataSize) && Between(es, chunks, pos, taken)
      invariant |stamps| == |taken| && stamps == FirstAtZero(0, |stamps|)
    {
      taken, stamps := Release(es, bfr, places, maxDataSize, schedule[i], pos, taken, stamps);
      if pos < |places| {
        pos := CallParser(es, bfr, places, maxDataSize, pos, taken);
      }
    }
    StandsPrefix(es.f, taken, es.aus.Ledger(), es.Window(), es.parseSyncSearch, es.parseLastError, chunks, pos);
  }

  /** The decoder's part between two calls. */
  method Release(es: EsCtlInfo, bfr: UtilBufferedFileReader, places: seq<Place>, maxDataSize: nat, count: nat,
                 ghost pos: nat, taken: seq<seq<byte>>, stamps: seq<Option<nat>>)
    returns (more: seq<seq<byte>>, times: seq<Option<nat>>)
    requires Ready(es, bfr, places, maxDataSize) && Between(es, Chunks(bfr.file, places), pos, taken)
    requires |stamps| == |taken| && stamps == FirstAtZero(0, |stamps|)
    modifies es.aus.Repr()
    ensures Ready(es, bfr, places, maxDataSize) && Between(es, Chunks(bfr.file, places), pos, more)
    ensures |times| == |more| && times == FirstAtZero(0, |times|)
  {
    hide Stands, BuffersFit, Chunks, Good, Books.Valid, Books.Filled, Books.Stamps, FirstAtZero;
    hide AuBuffers.Valid, AuBuffers.Kept, AuBuffers.Info, UtilBufferedFileReader.Valid;
    ghost var b := es.aus.Ledger();
    var now, nowStamps := TakeSome(es.aus, count);
    more, times := taken + now, stamps + nowStamps;
    TakenStands(es.f, taken, now, nowStamps, b, es.aus.Ledger(), es.Window(), es.parseSyncSearch, es.parseLastError,
                Chunks(bfr.file, places), pos);
    StampsJoin(0, |stamps|, |nowStamps|);
  }

  lemma StartStands(f: Format, b: Books, w: seq<byte>, chunks: seq<seq<byte>>)
    requires Good(f) && b.Valid() && b.read == [] && b.auCount == 0 && w == []
    ensures Stands(f, [], b, w, true, CellOk, chunks, 0)
  {
    assert b.Filled() == [] && b.Stamps() == FirstAtZero(0, 0) == [] && From(chunks, 0) == chunks;
    hide Feed;
    assert [] + [] + Total(f, chunks) == Total(f, chunks);
  }

  lemma StandsPrefix(f: Format, taken: seq<seq<byte>>, b: Books, w: seq<byte>, search: bool, err: RetCode,
                     chunks: seq<seq<byte>>, pos: nat)
    requires Good(f) && Stands(f, taken, b, w, search, err, chunks, pos)
    ensures b.Valid() && pos <= |chunks| && taken + b.Filled() <= Total(f, chunks)
    ensures pos == |chunks| ==> taken + b.Filled() == Total(f, chunks)
  {
    hide Books.Valid, Books.Filled, Total, PendingFrom;
    if pos == |chunks| {
      assert From(chunks, pos) == [] && Feed(f, w, search, []).aus == [];
    }
  }
}
