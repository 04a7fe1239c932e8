/**
 One elementary stream between the demultiplexer's thread and its decoder's thread, as a state
 machine: each step is one region that a lock protects, or what a thread does alone between two
 such regions. A wait is a step that is not enabled. The parser's steps are the turns of its
 loop, and the queues are the bounded lists that RingQueue proves the rings to be. An access
 outside the parse buffer or the block of AU buffers, which nothing in the source prevents, ends
 in the state Overrun.
 */
module AuPipeline {
  import opened Bytes
  import opened Ownership
  import opened AuStore
  import opened Framing
  import opened Chunking
  import opened Resuming
  import opened ParseBuffer

  /** The stream: its chunks, the number and size of its AU buffers, and the size of its largest chunk. */
  datatype Stream = Stream(f: Format, chunks: seq<seq<byte>>, auBufferNum: nat, maxAuSize: nat, maxDataSize: nat) {

    /** The parse buffer's size. */
    function BufferSize(): nat { 2 * maxDataSize }

    ghost predicate Proper() { Good(f) && AtMost(chunks, maxDataSize) }

    /** No AU of the stream is longer than an AU buffer. */
    ghost predicate AusFit()
      requires Good(f)
    {
      forall au <- Total(f, chunks) :: |au| <= maxAuSize
    }

    /** The parse buffer is large enough for every stream of this format. */
    predicate BufferFits() { f.Framed? ==> f.maxLength + f.deep <= maxDataSize }
  }

  /** Where the demultiplexer's thread is. */
  datatype Demux =
    | Waiting                    // for a release, before the next call
    | Woken                      // about to call the parser
    | Parsing                    // in the parse loop
    | Holding(au: nat, size: nat) // took a free AU to store the first `size` bytes of the window in
    | Stored(au: nat)            // stored them, about to queue it
    | Finished                   // past the last position
    | Failed                     // a read failed
    | Overrun(left: seq<nat>)    // accessed memory outside a buffer, with the AUs `left` in hand

  /** Where the decoder's thread is. */
  datatype Decoder =
    | Idle
    | Getting(got: nat)          // took a filled AU, about to put it into the release queue
    | Releasing(released: nat)   // took it back out, about to hand it to the parser
    | Signalling                 // handed it over, about to wake the parser

  datatype State = State(
    window: seq<byte>, start: nat,      // parse window and parseStartIndex
    search: bool,                       // parseSyncSearch
    pos: nat, blocked: bool,            // positionIndex; parseLastError is RET_CODE_ERR_FULL
    demux: Demux, decoder: Decoder,
    write: seq<nat>, read: seq<nat>, release: seq<nat>,
    store: Store,                       // the AU buffers
    released: bool, recvReleased: bool, // bReleaseDone of the thread and as received
    emitted: seq<seq<byte>>,            // AUs queued for the decoder so far
    taken: seq<seq<byte>>)              // AUs as the decoder found them
  {
    /** auBufferNum, the capacity of each queue. */
    function Size(): nat { |store.sizes| }

    /** Index in the parse buffer where the window ends. */
    function WindowEnd(): nat { start + |window| }
  }

  datatype Step =
    | Wake | Call | Turn | Store | Queue | ReadFails
    | TakeFilled | KeepFilled | TakeHeld | HandOver | Signal
    | OtherSignal    // the decoder of another stream wakes the thread

  predicate Enabled(c: Stream, s: State, step: Step) {
    match step
    case Wake => s.demux.Waiting? && (s.released || s.recvReleased)
    case Call => s.demux.Woken?
    case Turn => s.demux.Parsing?
    case Store => s.demux.Holding?
    case Queue => s.demux.Stored? && |s.read| < s.Size()
    case ReadFails =>
      if c.f.Whole? then s.demux.Holding? && |s.write| < s.Size()
      else s.demux.Woken? && !s.blocked && s.pos < |c.chunks|
    case TakeFilled => s.decoder.Idle? && s.read != []
    case KeepFilled => s.decoder.Getting? && |s.release| < s.Size()
    case TakeHeld => s.decoder.Idle? && s.release != []
    case HandOver => s.decoder.Releasing? && |s.write| < s.Size()
    case Signal => s.decoder.Signalling?
    case OtherSignal => true
  }

  ghost function Next(c: Stream, s: State, step: Step): State
    requires Good(c.f) && Enabled(c, s, step)
  {
    match step
    case Wake => s.(demux := Woken, released := true, recvReleased := false)
    case Call => NextCall(c, s)
    case Turn => NextTurn(c, s)
    case Store => NextStore(s)
    case Queue => s.(read := s.read + [s.demux.au], emitted := s.emitted + [s.store.At(s.demux.au)],
                     search := false, demux := Parsing)
    case ReadFails => if c.f.Whole? then s.(write := s.write + [s.demux.au], demux := Failed) else s.(demux := Failed)
    case TakeFilled =>
      s.(read := s.read[1..], decoder := Getting(s.read[0]), taken := s.taken + [s.store.At(s.read[0])])
    case KeepFilled => s.(release := s.release + [s.decoder.got], decoder := Idle)
    case TakeHeld => s.(release := s.release[1..], decoder := Releasing(s.release[0]))
    case HandOver => s.(write := s.write + [s.decoder.released], decoder := Signalling)
    case Signal => s.(recvReleased := true, decoder := Idle)
    case OtherSignal => s.(recvReleased := true)
  }

  /** The read part of a call: the next chunk goes behind the window, moved to the front of the buffer. */
  function NextCall(c: Stream, s: State): State {
    if s.blocked then s.(demux := Parsing)
    else if s.pos >= |c.chunks| then s.(demux := Finished)
    else if c.f.Framed? && |s.window| + |c.chunks[s.pos]| > c.BufferSize() then s.(demux := Overrun([]))
    else s.(demux := Parsing, start := 0, window := s.window + c.chunks[s.pos])
  }

  /** A turn of the parse loop, from its header read on. */
  ghost function NextTurn(c: Stream, s: State): State
    requires Good(c.f)
  {
    if !HeaderFits(c.f, s.window, s.WindowEnd(), c.BufferSize()) then s.(demux := Overrun([]))
    else AfterTurn(s, ParseTurn(c.f, s.window, s.search, ZEROS))
  }

  /** The window with its end where it is and its start moved up; its last byte alone goes to the front. */
  function Shrunk(s: State, w: seq<byte>): State {
    s.(window := w, start := if |w| <= |s.window| then s.start + (|s.window| - |w|) else 0)
  }

  /** Running out of AUs ends the call without moving to the next position. */
  function AfterTurn(s: State, t: Turn): State {
    match t
    case Stop(w, search) =>
      Shrunk(s, w).(search := search, blocked := false, pos := s.pos + 1, released := true, demux := Waiting)
    case Slide(w) => Shrunk(s, w)
    case Cut(au, w) =>
      if s.write == [] then Shrunk(s, au + w).(blocked := true, released := false, demux := Waiting)
      else Shrunk(s, au + w).(write := s.write[1..], demux := Holding(s.write[0], |au|))
  }

  /** The copy to the AU buffer in hand. */
  function NextStore(s: State): State
    requires s.demux.Holding?
  {
    var au, size := s.demux.au, s.demux.size;
    if size > |s.window| || !s.store.Room(au, size) then s.(demux := Overrun([au]))
    else Shrunk(s, s.window[size..]).(store := s.store.Put(au, s.window[..size]), demux := Stored(au))
  }

  /** As EnableEs and ClearParseInfo leave a stream; what its AU buffers hold is left open. */
  ghost predicate Init(c: Stream, s: State) {
    && s.window == [] && s.start == 0 && s.search && s.pos == 0 && !s.blocked
    && s.demux.Waiting? && s.decoder.Idle?
    && s.write == Indices(c.auBufferNum) && s.read == [] && s.release == []
    && s.store.Valid() && s.store.stride == c.maxAuSize && s.store.sizes == seq(c.auBufferNum, _ => 0)
    && s.released && s.recvReleased && s.emitted == [] && s.taken == []
  }

  // ---- Ownership: the queues and the threads' hands hold every AU exactly once

  lemma CopiesPop(q: seq<nat>, x: nat)
    requires q != []
    ensures Copies(q, x) == Copies(q[1..], x) + if q[0] == x then 1 else 0
  {
    assert q == [q[0]] + q[1..];
  }

  lemma CopiesPush(q: seq<nat>, y: nat, x: nat)
    ensures Copies(q + [y], x) == Copies(q, x) + if y == x then 1 else 0
  {}

  function Hand(d: Demux): seq<nat> {
    if d.Holding? || d.Stored? then [d.au] else if d.Overrun? then d.left else []
  }

  function DecoderHand(d: Decoder): seq<nat> {
    if d.Getting? then [d.got] else if d.Releasing? then [d.released] else []
  }

  /** In how many places AU `x` is. */
  function Owners(s: State, x: nat): nat {
    Copies(s.write, x) + Copies(Hand(s.demux), x) + Copies(s.read, x) + Copies(DecoderHand(s.decoder), x)
    + Copies(s.release, x)
  }

  function Held(s: State): nat {
    |s.write| + |Hand(s.demux)| + |s.read| + |DecoderHand(s.decoder)| + |s.release|
  }

  ghost predicate Owned(s: State) {
    && Held(s) == s.Size()
    && forall x: nat :: Owners(s, x) == if x < s.Size() then 1 else 0
  }

  ghost predicate Conserves(s: State, t: State, x: nat) {
    Owners(t, x) == Owners(s, x) && Held(t) == Held(s) && t.Size() == s.Size()
  }

  lemma AfterTurnMoves(s: State, t: Turn, x: nat)
    requires s.demux.Parsing?
    ensures Conserves(s, AfterTurn(s, t), x)
  {
    hide Copies;
    if s.write != [] { CopiesPop(s.write, x); CopiesOne(s.write[0], x); }
  }

  lemma TurnMoves(c: Stream, s: State, x: nat)
    requires Good(c.f) && s.demux.Parsing?
    ensures Conserves(s, NextTurn(c, s), x)
  {
    hide ParseTurn, Copies, HeaderFits, AfterTurn;
    AfterTurnMoves(s, ParseTurn(c.f, s.window, s.search, ZEROS), x);
  }

  lemma StoreMoves(s: State, x: nat)
    requires s.demux.Holding?
    ensures Conserves(s, NextStore(s), x)
  {
    hide Copies;
  }

  lemma {:induction false} DecoderMoves(c: Stream, s: State, step: Step, x: nat)
    requires Good(c.f) && Enabled(c, s, step)
    requires step.TakeFilled? || step.KeepFilled? || step.TakeHeld? || step.HandOver?
    ensures Conserves(s, Next(c, s, step), x)
  {
    hide Good, Copies;
    match step {
      case TakeFilled => CopiesPop(s.read, x); CopiesOne(s.read[0], x);
      case KeepFilled => CopiesPush(s.release, s.decoder.got, x); CopiesOne(s.decoder.got, x);
      case TakeHeld => CopiesPop(s.release, x); CopiesOne(s.release[0], x);
      case HandOver => CopiesPush(s.write, s.decoder.released, x); CopiesOne(s.decoder.released, x);
    }
  }

  lemma {:induction false} CallMoves(c: Stream, s: State, x: nat)
    requires s.demux.Woken?
    ensures Conserves(s, NextCall(c, s), x)
  {
    hide Copies;
  }

  /** A step only moves AUs from one owner to another. */
  lemma {:induction false} StepMoves(c: Stream, s: State, step: Step, x: nat)
    requires Good(c.f) && Enabled(c, s, step)
    ensures Conserves(s, Next(c, s, step), x)
  {
    hide Good, NextTurn, NextCall, NextStore, Copies, Store.At;
    match step {
      case Call => CallMoves(c, s, x);
      case Turn => TurnMoves(c, s, x);
      case Store => StoreMoves(s, x);
      case Queue => CopiesPush(s.read, s.demux.au, x); CopiesOne(s.demux.au, x);
      case ReadFails => if c.f.Whole? { CopiesPush(s.write, s.demux.au, x); CopiesOne(s.demux.au, x); }
      case TakeFilled | KeepFilled | TakeHeld | HandOver => DecoderMoves(c, s, step, x);
      case Wake | Signal | OtherSignal =>
    }
  }

  lemma StepKeepsOwned(c: Stream, s: State, step: Step)
    requires Good(c.f) && Enabled(c, s, step) && Owned(s)
    ensures Owned(Next(c, s, step)) && Next(c, s, step).Size() == s.Size()
  {
    hide Next, Enabled, Owners, Held;
    StepMoves(c, s, step, 0);
    forall x: nat ensures Owners(Next(c, s, step), x) == if x < s.Size() then 1 else 0 {
      StepMoves(c, s, step, x);
    }
  }

  /** The AU that the parser stores into is nowhere else: neither queued nor with the decoder. */
  lemma HandAlone(s: State)
    requires Owned(s) && (s.demux.Holding? || s.demux.Stored?)
    ensures s.demux.au < s.Size()
    ensures s.demux.au !in s.write && s.demux.au !in s.read && s.demux.au !in s.release
    ensures s.demux.au !in DecoderHand(s.decoder)
  {
    assert Owners(s, s.demux.au) >= 1;
  }

  /** No thread ever waits to push: whoever has an AU in hand finds room for it in every queue. */
  lemma PushesNeverWait(c: Stream, s: State)
    requires Owned(s)
    ensures s.demux.Stored? ==> Enabled(c, s, Queue)
    ensures s.demux.Holding? ==> |s.write| < s.Size()
    ensures s.decoder.Getting? ==> Enabled(c, s, KeepFilled)
    ensures s.decoder.Releasing? ==> Enabled(c, s, HandOver)
  {}

  // ---- Progress: back-pressure never changes what is emitted

  ghost function Pending(c: Stream, s: State): seq<seq<byte>>
    requires Good(c.f)
  {
    match s.demux
    case Waiting | Woken => PendingCall(c.f, s.window, s.search, s.blocked, c.chunks, s.pos)
    case Parsing => PendingFrom(c.f, s.window, s.search, From(c.chunks, s.pos + 1))
    case Holding(_, size) =>
      if size > |s.window| then []
      else [s.window[..size]] + PendingFrom(c.f, s.window[size..], false, From(c.chunks, s.pos + 1))
    case Stored(au) => [s.store.At(au)] + PendingFrom(c.f, s.window, false, From(c.chunks, s.pos + 1))
    case Finished | Failed | Overrun(_) => []
  }

  ghost predicate OnCourse(c: Stream, s: State)
    requires Good(c.f)
  {
    && (s.demux.Holding? ==> s.demux.size <= |s.window|)
    && if s.demux.Failed? || s.demux.Overrun? then s.emitted <= Total(c.f, c.chunks)
       else s.emitted + Pending(c, s) == Total(c.f, c.chunks)
  }

  lemma CutOnCourse(c: Stream, s: State, au: seq<byte>, window: seq<byte>)
    requires Good(c.f) && s.demux.Parsing? && OnCourse(c, s)
    requires PendingFrom(c.f, s.window, s.search, From(c.chunks, s.pos + 1))
          == [au] + PendingFrom(c.f, window, false, From(c.chunks, s.pos + 1))
          == PendingFrom(c.f, au + window, s.search, From(c.chunks, s.pos + 1))
    ensures OnCourse(c, AfterTurn(s, Cut(au, window)))
  {
    hide Good, PendingFrom, Feed, Total;
    assert (au + window)[..|au|] == au && (au + window)[|au|..] == window;
  }

  lemma AfterTurnOnCourse(c: Stream, s: State, t: Turn)
    requires Good(c.f) && s.demux.Parsing? && OnCourse(c, s)
    requires PendingFrom(c.f, s.window, s.search, From(c.chunks, s.pos + 1))
          == PendingAfter(c.f, t, s.search, From(c.chunks, s.pos + 1))
    requires t.Cut? ==>
               PendingFrom(c.f, t.au + t.window, s.search, From(c.chunks, s.pos + 1))
               == PendingFrom(c.f, s.window, s.search, From(c.chunks, s.pos + 1))
    ensures OnCourse(c, AfterTurn(s, t))
  {
    hide Good, PendingFrom, Feed, Total;
    if t.Cut? {
      hide AfterTurn, OnCourse;
      CutOnCourse(c, s, t.au, t.window);
    }
  }

  lemma TurnOnCourse(c: Stream, s: State)
    requires Good(c.f) && s.demux.Parsing? && OnCourse(c, s)
    ensures OnCourse(c, NextTurn(c, s))
  {
    var rest := From(c.chunks, s.pos + 1);
    assert s.emitted <= Total(c.f, c.chunks);
    hide ParseTurn, PendingFrom, PendingAfter, Feed, HeaderFits, Total, AfterTurn;
    TurnPending(c.f, s.window, s.search, rest);
    AfterTurnOnCourse(c, s, ParseTurn(c.f, s.window, s.search, ZEROS));
  }

  lemma CallOnCourse(c: Stream, s: State)
    requires Good(c.f) && s.demux.Woken? && OnCourse(c, s)
    ensures OnCourse(c, NextCall(c, s))
  {
    hide ParseTurn, DrainAll, Total;
    if !s.blocked && s.pos < |c.chunks| {
      assert c.chunks[s.pos..][1..] == c.chunks[s.pos + 1..];
    }
  }

  lemma StoreOnCourse(c: Stream, s: State)
    requires Good(c.f) && s.demux.Holding? && OnCourse(c, s)
    ensures OnCourse(c, NextStore(s))
  {
    hide PendingFrom, Total, Store.At, Store.Put;
    var au, size := s.demux.au, s.demux.size;
    if s.store.Room(au, size) { PutOwn(s.store, au, s.window[..size]); }
  }

  lemma {:induction false} StepOnCourse(c: Stream, s: State, step: Step)
    requires Good(c.f) && Enabled(c, s, step) && OnCourse(c, s)
    ensures OnCourse(c, Next(c, s, step))
  {
    hide PendingFrom, PendingCall, NextTurn, NextCall, NextStore, Total, Store.At;
    match step {
      case Call => CallOnCourse(c, s);
      case Turn => TurnOnCourse(c, s);
      case Store => StoreOnCourse(c, s);
      case Queue =>
        var d, rest := [s.store.At(s.demux.au)], PendingFrom(c.f, s.window, false, From(c.chunks, s.pos + 1));
        assert s.emitted + (d + rest) == (s.emitted + d) + rest;
      case Wake | ReadFails | TakeFilled | KeepFilled | TakeHeld | HandOver | Signal | OtherSignal =>
    }
  }

  /** If the stream's AUs fit the AU buffers, so does the one about to be stored. */
  lemma NextAuFits(c: Stream, s: State)
    requires Good(c.f) && c.AusFit() && OnCourse(c, s) && s.demux.Holding?
    ensures s.demux.size <= |s.window| && s.demux.size <= c.maxAuSize
  {
    hide PendingFrom, Total;
    var total := Total(c.f, c.chunks);
    assert total[|s.emitted|] == s.window[..s.demux.size];
    assert total[|s.emitted|] in total;
  }

  // ---- Data: what the decoder finds in an AU is what the parser stored for it

  /** The AUs of `q` hold `data`, one each. */
  ghost predicate Sees(store: Store, q: seq<nat>, data: seq<seq<byte>>) {
    |q| == |data| && forall i | 0 <= i < |q| :: store.At(q[i]) == data[i]
  }

  lemma SeesPut(store: Store, q: seq<nat>, data: seq<seq<byte>>, au: nat, stored: seq<byte>)
    requires Sees(store, q, data) && au !in q
    requires store.Snug() && store.Room(au, |stored|) && |stored| <= store.stride
    ensures Sees(store.Put(au, stored), q, data)
  {
    hide Store.At, Store.Put;
    forall i | 0 <= i < |q| ensures store.Put(au, stored).At(q[i]) == data[i] {
      PutOther(store, au, stored, q[i]);
    }
  }

  lemma SeesPush(store: Store, q: seq<nat>, data: seq<seq<byte>>, au: nat)
    requires Sees(store, q, data)
    ensures Sees(store, q + [au], data + [store.At(au)])
  {}

  lemma SeesPop(store: Store, q: seq<nat>, data: seq<seq<byte>>)
    requires Sees(store, q, data) && q != []
    ensures |data| == |q| && store.At(q[0]) == data[0] && Sees(store, q[1..], data[1..])
  {}

  lemma SeesLength(store: Store, q: seq<nat>, data: seq<seq<byte>>)
    requires Sees(store, q, data)
    ensures |q| == |data|
  {}

  /** The AUs that the decoder has got and not yet given back, oldest first. */
  function Kept(s: State): seq<nat> {
    s.release + if s.decoder.Getting? then [s.decoder.got] else []
  }

  function Last<T>(s: seq<T>, n: nat): seq<T> {
    if n <= |s| then s[|s| - n..] else s
  }

  /**
   The decoder has taken the oldest of the AUs emitted and the rest are in the read queue, in
   order and intact; so are those it has got and not given back.
   */
  ghost predicate InOrder(s: State) {
    && s.taken <= s.emitted
    && Sees(s.store, s.read, s.emitted[|s.taken|..])
    && Sees(s.store, Kept(s), Last(s.taken, |Kept(s)|))
  }

  lemma StoreKeepsInOrder(c: Stream, s: State)
    requires s.demux.Holding? && Owned(s) && InOrder(s) && s.store.Snug() && s.demux.size <= s.store.stride
    ensures InOrder(NextStore(s))
  {
    hide Owned, Sees, Store.At, Store.Put;
    HandAlone(s);
    var au, size := s.demux.au, s.demux.size;
    if size <= |s.window| && s.store.Room(au, size) {
      SeesPut(s.store, s.read, s.emitted[|s.taken|..], au, s.window[..size]);
      SeesPut(s.store, Kept(s), Last(s.taken, |Kept(s)|), au, s.window[..size]);
    }
  }

  lemma QueueKeepsInOrder(c: Stream, s: State)
    requires Good(c.f) && Enabled(c, s, Queue) && InOrder(s)
    ensures InOrder(Next(c, s, Queue))
  {
    hide ParseTurn, Store.At, Sees;
    var d := s.store.At(s.demux.au);
    SeesPush(s.store, s.read, s.emitted[|s.taken|..], s.demux.au);
    assert (s.emitted + [d])[|s.taken|..] == s.emitted[|s.taken|..] + [d];
  }

  lemma {:induction false} TakeFilledKeepsInOrder(c: Stream, s: State)
    requires Good(c.f) && Enabled(c, s, TakeFilled) && InOrder(s)
    ensures InOrder(Next(c, s, TakeFilled))
  {
    hide ParseTurn, Store.At, Sees;
    var d, n := s.store.At(s.read[0]), |Kept(s)|;
    SeesPop(s.store, s.read, s.emitted[|s.taken|..]);
    assert s.emitted[|s.taken|..][1..] == s.emitted[|s.taken + [d]|..];
    SeesPush(s.store, Kept(s), Last(s.taken, n), s.read[0]);
    assert Kept(s) == s.release;
    assert Last(s.taken + [d], n + 1) == Last(s.taken, n) + [d] by { SeesLength(s.store, Kept(s), Last(s.taken, n)); }
  }

  lemma TakeHeldKeepsInOrder(c: Stream, s: State)
    requires Good(c.f) && Enabled(c, s, TakeHeld) && InOrder(s)
    ensures InOrder(Next(c, s, TakeHeld))
  {
    hide ParseTurn, Store.At, Sees;
    var n := |Kept(s)|;
    SeesPop(s.store, Kept(s), Last(s.taken, n));
    assert Kept(s)[1..] == Kept(Next(c, s, TakeHeld));
    assert Last(s.taken, n)[1..] == Last(s.taken, n - 1);
  }

  /** A turn leaves the decoder's side and the AU buffers alone. */
  ghost predicate SameElsewhere(s: State, t: State) {
    && t.store == s.store && t.read == s.read && t.release == s.release && t.decoder == s.decoder
    && t.emitted == s.emitted && t.taken == s.taken && t.recvReleased == s.recvReleased
  }

  lemma AfterTurnFrame(s: State, t: Turn)
    ensures SameElsewhere(s, AfterTurn(s, t))
  {}

  lemma TurnFrame(c: Stream, s: State)
    requires Good(c.f)
    ensures SameElsewhere(s, NextTurn(c, s))
  {
    AfterTurnFrame(s, ParseTurn(c.f, s.window, s.search, ZEROS));
    hide ParseTurn, HeaderFits, AfterTurn;
  }

  lemma TurnKeepsInOrder(c: Stream, s: State)
    requires Good(c.f) && InOrder(s)
    ensures InOrder(NextTurn(c, s))
  {
    TurnFrame(c, s);
    hide NextTurn, Sees;
  }

  lemma {:induction false} StepKeepsInOrder(c: Stream, s: State, step: Step)
    requires Good(c.f) && Enabled(c, s, step) && Owned(s) && InOrder(s)
    requires s.store.Snug() && (s.demux.Holding? ==> s.demux.size <= s.store.stride)
    ensures InOrder(Next(c, s, step))
  {
    hide Owned, Sees, NextTurn, NextStore, Store.At;
    match step {
      case Turn => TurnKeepsInOrder(c, s);
      case Store => StoreKeepsInOrder(c, s);
      case Queue => QueueKeepsInOrder(c, s);
      case TakeFilled => TakeFilledKeepsInOrder(c, s);
      case TakeHeld => TakeHeldKeepsInOrder(c, s);
      case KeepFilled => assert Kept(Next(c, s, KeepFilled)) == Kept(s);
      case Wake | Call | ReadFails | HandOver | Signal | OtherSignal =>
    }
  }

  // ---- Accesses stay inside the buffers

  /** The block of AU buffers keeps its layout; if the AUs fit, no buffer holds more than its size. */
  ghost predicate Laid(c: Stream, s: State)
    requires Good(c.f)
  {
    && s.store.Valid() && s.store.stride == c.maxAuSize
    && (c.AusFit() ==> s.store.Snug())
  }

  /**
   Between calls that did not run out of AUs, no more than CarryBound is carried over; inside a
   call, and while it is blocked, the window ends at most one chunk further on. In a buffer that is
   large enough no access is outside it, and so none is outside the AU buffers if the AUs fit.
   */
  ghost predicate Inside(c: Stream, s: State)
    requires Good(c.f)
  {
    && (c.f.Framed? ==>
        match s.demux
        case Waiting | Woken =>
          if s.blocked then s.WindowEnd() <= CarryBound(c.f) + c.maxDataSize else |s.window| <= CarryBound(c.f)
        case Parsing | Holding(_, _) | Stored(_) => s.WindowEnd() <= CarryBound(c.f) + c.maxDataSize
        case Finished | Failed | Overrun(_) => true)
    && (c.BufferFits() && c.AusFit() ==> !s.demux.Overrun?)
  }

  lemma StepKeepsLaid(c: Stream, s: State, step: Step)
    requires Good(c.f) && Enabled(c, s, step) && Laid(c, s) && OnCourse(c, s)
    ensures Laid(c, Next(c, s, step))
  {
    hide OnCourse, NextTurn, NextCall, Slot, Stream.AusFit, Store.At;
    match step {
      case Call => assert NextCall(c, s).store == s.store by { CallKeepsStore(c, s); }
      case Turn => assert NextTurn(c, s).store == s.store by { TurnFrame(c, s); }
      case Store =>
        var au, size := s.demux.au, s.demux.size;
        if c.AusFit() { NextAuFits(c, s); }
        if size <= |s.window| && s.store.Room(au, size) { PutValid(s.store, au, s.window[..size]); }
      case _ =>
    }
  }

  lemma CallKeepsStore(c: Stream, s: State)
    ensures NextCall(c, s).store == s.store
  {}

  lemma TurnInside(c: Stream, s: State)
    requires Good(c.f) && s.demux.Parsing? && Inside(c, s)
    ensures Inside(c, NextTurn(c, s))
  {
    hide ParseTurn, Core, Stream.AusFit;
    if c.f.Framed? {
      if c.BufferFits() { HeaderInside(c, s); }
      hide HeaderFits;
      match ParseTurn(c.f, s.window, s.search, ZEROS)
      case Stop(_, _) => TurnCarry(c.f, s.window, s.search);
      case Slide(_) =>
      case Cut(_, _) => CutIsCore(c.f, s.window, s.search);
    }
  }

  lemma HeaderInside(c: Stream, s: State)
    requires Good(c.f) && c.f.Framed? && c.BufferFits() && s.WindowEnd() <= CarryBound(c.f) + c.maxDataSize
    ensures HeaderFits(c.f, s.window, s.WindowEnd(), c.BufferSize())
  {
    hide Core;
  }

  lemma CallInside(c: Stream, s: State)
    requires c.Proper() && s.demux.Woken? && Inside(c, s)
    ensures Inside(c, NextCall(c, s))
  {
    hide Core, Stream.AusFit;
  }

  lemma StoreFits(c: Stream, s: State)
    requires Good(c.f) && s.demux.Holding? && Owned(s) && Laid(c, s) && OnCourse(c, s) && c.AusFit()
    ensures s.demux.size <= |s.window| && s.store.Room(s.demux.au, s.demux.size)
  {
    HandAlone(s);
    NextAuFits(c, s);
    SlotsInside(s.store, s.demux.au);
  }

  lemma StoreEnds(s: State)
    requires s.demux.Holding?
    ensures var t := NextStore(s);
      if s.demux.size <= |s.window| && s.store.Room(s.demux.au, s.demux.size)
      then t.demux.Stored? && t.WindowEnd() == s.WindowEnd() else t.demux.Overrun?
  {
    hide Store.Room, Store.Put;
  }

  lemma StoreInside(c: Stream, s: State)
    requires Good(c.f) && s.demux.Holding? && Owned(s) && Laid(c, s) && OnCourse(c, s) && Inside(c, s)
    ensures Inside(c, NextStore(s))
  {
    hide Good, Owned, Laid, OnCourse, NextStore, CarryBound, Stream.AusFit, Stream.BufferFits, Store.Room;
    if c.AusFit() { StoreFits(c, s); }
    StoreEnds(s);
  }

  lemma StepKeepsInside(c: Stream, s: State, step: Step)
    requires c.Proper() && Enabled(c, s, step)
    requires Owned(s) && Laid(c, s) && OnCourse(c, s) && Inside(c, s)
    ensures Inside(c, Next(c, s, step))
  {
    hide NextTurn, NextCall, NextStore, Owned, Laid, OnCourse, CarryBound, Stream.AusFit, Stream.BufferFits, Store.At;
    match step {
      case Call => CallInside(c, s);
      case Turn => TurnInside(c, s);
      case Store => StoreInside(c, s);
      case _ =>
    }
  }

  // ---- Waking up

  /**
   The demultiplexer only sleeps while no AU is free or its wake-up is on the way; a call left to
   resume has a position.
   */
  ghost predicate Wakeful(c: Stream, s: State) {
    && (s.demux.Waiting? && !s.released && !s.recvReleased ==> s.write == [] || s.decoder.Signalling?)
    && (s.blocked || s.demux.Parsing? || s.demux.Holding? || s.demux.Stored? ==> s.pos < |c.chunks|)
  }

  lemma TurnKeepsWakeful(c: Stream, s: State)
    requires Good(c.f) && Wakeful(c, s) && s.demux.Parsing?
    ensures Wakeful(c, NextTurn(c, s))
  {
    hide ParseTurn, HeaderFits;
  }

  lemma StepKeepsWakeful(c: Stream, s: State, step: Step)
    requires Good(c.f) && Enabled(c, s, step) && Wakeful(c, s)
    ensures Wakeful(c, Next(c, s, step))
  {
    hide NextTurn, Store.At, Store.Put;
    if step.Turn? { TurnKeepsWakeful(c, s); }
  }

  // ---- Runs

  ghost predicate IsRun(c: Stream, states: seq<State>, steps: seq<Step>)
    requires Good(c.f)
  {
    && |states| == |steps| + 1 && Init(c, states[0])
    && forall i | 0 <= i < |steps| ::
         Enabled(c, states[i], steps[i]) && states[i + 1] == Next(c, states[i], steps[i])
  }

  ghost predicate Inv(c: Stream, s: State)
    requires Good(c.f)
  {
    && s.Size() == c.auBufferNum && Owned(s) && OnCourse(c, s) && Laid(c, s) && Inside(c, s) && Wakeful(c, s)
    && (c.AusFit() ==> InOrder(s))
  }

  lemma InitInv(c: Stream, s: State)
    requires Good(c.f) && Init(c, s)
    ensures Inv(c, s)
  {
    forall x: nat ensures Owners(s, x) == if x < s.Size() then 1 else 0 { IndicesOnce(c.auBufferNum, x); }
    hide Feed;
    assert [] + Total(c.f, c.chunks) == Total(c.f, c.chunks);
  }

  lemma StepKeepsInv(c: Stream, s: State, step: Step)
    requires c.Proper() && Enabled(c, s, step) && Inv(c, s)
    ensures Inv(c, Next(c, s, step))
  {
    StepKeepsOwned(c, s, step);
    StepOnCourse(c, s, step);
    StepKeepsLaid(c, s, step);
    StepKeepsInside(c, s, step);
    StepKeepsWakeful(c, s, step);
    if c.AusFit() {
      if s.demux.Holding? { NextAuFits(c, s); }
      StepKeepsInOrder(c, s, step);
    }
    hide Next, Enabled, Owned, InOrder, OnCourse, Laid, Inside, Wakeful, Stream.AusFit;
  }

  lemma {:induction false} RunKeepsInv(c: Stream, states: seq<State>, steps: seq<Step>, i: nat)
    requires c.Proper() && IsRun(c, states, steps) && i < |states|
    ensures Inv(c, states[i])
  {
    hide Next, Enabled, Inv, Init;
    if i == 0 {
      InitInv(c, states[0]);
    } else {
      RunKeepsInv(c, states, steps, i - 1);
      StepKeepsInv(c, states[i - 1], steps[i - 1]);
    }
  }

  /**
   In every reachable state each AU is in exactly one place; so no push ever waits, and the parser
   stores only into an AU that is neither queued nor with the decoder - and, if the stream's AUs fit
   the AU buffers, only into that AU's own bytes.
   */
  lemma ExclusiveOwnership(c: Stream, states: seq<State>, steps: seq<Step>, i: nat)
    requires c.Proper() && IsRun(c, states, steps) && i < |states|
    ensures var s := states[i];
            && (forall x: nat :: Owners(s, x) == if x < c.auBufferNum then 1 else 0)
            && (s.demux.Stored? ==> Enabled(c, s, Queue))
            && (s.demux.Holding? ==> |s.write| < c.auBufferNum)
            && (s.decoder.Getting? ==> Enabled(c, s, KeepFilled))
            && (s.decoder.Releasing? ==> Enabled(c, s, HandOver))
            && (s.demux.Holding? ==>
                && s.demux.au < c.auBufferNum
                && s.demux.au !in s.write + s.read + Kept(s) + DecoderHand(s.decoder)
                && (c.AusFit() ==> s.demux.size <= s.store.stride == c.maxAuSize))
  {
    hide IsRun, Enabled, Owners, Held, OnCourse, Inside, Wakeful, InOrder;
    var s := states[i];
    RunKeepsInv(c, states, steps, i);
    PushesNeverWait(c, s);
    if s.demux.Holding? {
      HandAlone(s);
      if c.AusFit() { NextAuFits(c, s); }
    }
  }

  /**
   Whatever the schedule of releases, what has been emitted is a prefix of what a parser that never
   runs out of AUs emits, and all of it once the stream is finished. If the AUs fit the AU buffers,
   the decoder gets it in that order, each AU with the bytes stored for it.
   */
  lemma BackPressureTransparent(c: Stream, states: seq<State>, steps: seq<Step>, i: nat)
    requires c.Proper() && IsRun(c, states, steps) && i < |states|
    ensures states[i].emitted <= Total(c.f, c.chunks)
    ensures states[i].demux.Finished? ==> states[i].emitted == Total(c.f, c.chunks)
    ensures c.AusFit() ==> states[i].taken <= states[i].emitted
    ensures c.AusFit() && states[i].read == [] ==> states[i].taken == states[i].emitted
  {
    RunKeepsInv(c, states, steps, i);
    hide IsRun, Owned, Laid, Inside, Wakeful, Total, Stream.AusFit;
  }

  /**
   While the decoder has got an AU and not released it, the AU holds the bytes it held when got, if
   the stream's AUs fit the AU buffers.
   */
  lemma KeptIntact(c: Stream, states: seq<State>, steps: seq<Step>, i: nat, k: nat)
    requires c.Proper() && c.AusFit() && IsRun(c, states, steps) && i < |states|
    requires k < |Kept(states[i])|
    ensures var s := states[i];
            && |Kept(s)| <= |s.taken|
            && s.store.At(Kept(s)[k]) == s.taken[|s.taken| - |Kept(s)| + k]
  {
    RunKeepsInv(c, states, steps, i);
    RunInOrder(c, states[i]);
    hide *;
    KeptInOrder(states[i], k);
  }

  lemma RunInOrder(c: Stream, s: State)
    requires Good(c.f) && Inv(c, s) && c.AusFit()
    ensures InOrder(s)
  {
    hide Owned, OnCourse, Laid, Inside, Wakeful, InOrder, Stream.AusFit;
  }

  lemma KeptInOrder(s: State, k: nat)
    requires InOrder(s) && k < |Kept(s)|
    ensures |Kept(s)| <= |s.taken|
    ensures s.store.At(Kept(s)[k]) == s.taken[|s.taken| - |Kept(s)| + k]
  {
    hide Kept, Store.At;
    var data := Last(s.taken, |Kept(s)|);
    assert Sees(s.store, Kept(s), data) && |data| == |Kept(s)|;
    assert data[k] == s.taken[|s.taken| - |Kept(s)| + k];
  }

  /**
   If they do not, an AU that the decoder has is not safe: when the parser stores into the next
   buffer while an AU runs over its own, the AU reads back as it was exactly if the bytes stored
   are the ones they replace.
   */
  lemma LongAuDisturbed(c: Stream, states: seq<State>, steps: seq<Step>, i: nat, au: nat)
    requires c.Proper() && IsRun(c, states, steps) && i < |steps| && steps[i].Store?
    requires states[i].demux.Holding? && states[i].demux.au == au + 1 && !states[i + 1].demux.Overrun?
    requires states[i].store.Room(au, states[i].store.sizes[au])
    ensures var s, was := states[i], states[i].store.At(au);
      && s.demux.size <= |s.window| && |was| == s.store.sizes[au]
      && (states[i + 1].store.At(au) == was <==> Agrees(was, c.maxAuSize, s.window[..s.demux.size]))
  {
    assert Good(c.f) && |states| == |steps| + 1;
    hide *;
    RunKeepsInv(c, states, steps, i);
    RunStores(c, states, steps, i);
    InvStride(c, states[i]);
    StoreDisturbs(states[i], au);
  }

  lemma RunStores(c: Stream, states: seq<State>, steps: seq<Step>, i: nat)
    requires Good(c.f) && IsRun(c, states, steps) && i < |steps| && steps[i].Store?
    ensures |states| == |steps| + 1 && states[i].demux.Holding? && states[i + 1] == NextStore(states[i])
  {
    hide NextStore;
  }

  lemma InvStride(c: Stream, s: State)
    requires Good(c.f) && Inv(c, s)
    ensures s.store.stride == c.maxAuSize
  {}

  lemma StoreDisturbs(s: State, au: nat)
    requires s.demux.Holding? && s.demux.au == au + 1 && !NextStore(s).demux.Overrun?
    requires s.store.Room(au, s.store.sizes[au])
    ensures var was := s.store.At(au);
      && s.demux.size <= |s.window| && |was| == s.store.sizes[au]
      && (NextStore(s).store.At(au) == was <==> Agrees(was, s.store.stride, s.window[..s.demux.size]))
  {
    PutNext(s.store, au, s.window[..s.demux.size]);
    hide Store.At, Slot, Store.Put, Agrees;
  }

  /**
   If the parse buffer is large enough for the format and the AU buffers for the stream, no access
   of the parser is ever outside them, under any schedule.
   */
  lemma NeverOutside(c: Stream, states: seq<State>, steps: seq<Step>, i: nat)
    requires c.Proper() && IsRun(c, states, steps) && i < |states| && c.BufferFits() && c.AusFit()
    ensures !states[i].demux.Overrun?
    ensures c.f.Framed? && (states[i].demux.Waiting? || states[i].demux.Woken?) && !states[i].blocked
            ==> |states[i].window| <= c.f.maxLength + 1
  {
    RunKeepsInv(c, states, steps, i);
    hide IsRun, Owned, InOrder, OnCourse, Laid, Wakeful, Stream.AusFit, Stream.BufferFits;
  }

  /**
   A stream of whole frames reaches the decoder frame by frame, whatever the chunks and the schedule,
   if parse buffer and AU buffers are large enough for it.
   */
  lemma FramesReachDecoder(c: Stream, frames: seq<seq<byte>>, states: seq<State>, steps: seq<Step>, i: nat)
    requires c.Proper() && c.f.Framed? && c.BufferFits() && (forall fr <- frames :: |fr| <= c.maxAuSize)
    requires (forall fr <- frames :: WellFormed(c.f, fr)) && Flatten(c.chunks) == Flatten(frames) && |frames| != 1
    requires IsRun(c, states, steps) && i < |states|
    ensures states[i].taken <= frames && !states[i].demux.Overrun?
    ensures states[i].demux.Finished? && states[i].read == [] ==> states[i].taken == frames
  {
    FramesSurviveChunking(c.f, frames, c.chunks);
    assert c.AusFit();
    hide *;
    NeverOutside(c, states, steps, i);
    BackPressureTransparent(c, states, steps, i);
    assert Total(c.f, c.chunks) == frames by { TotalFrames(c, frames); }
  }

  lemma TotalFrames(c: Stream, frames: seq<seq<byte>>)
    requires Good(c.f) && Feed(c.f, [], true, c.chunks).aus == frames
    ensures Total(c.f, c.chunks) == frames
  {}

  lemma {:induction false} FailedStays(c: Stream, s: State, step: Step)
    requires Good(c.f) && Enabled(c, s, step) && s.demux.Failed?
    ensures Next(c, s, step).demux.Failed? && Next(c, s, step).emitted == s.emitted
  {
    hide Good, NextTurn, NextCall, NextStore, Store.At;
  }

  /** A failed read ends the demultiplexer: nothing is emitted after it. */
  lemma {:induction false} FailureEndsStream(c: Stream, states: seq<State>, steps: seq<Step>, j: nat, i: nat)
    requires c.Proper() && IsRun(c, states, steps) && j < i < |states| && steps[j].ReadFails?
    ensures states[i].demux.Failed? && states[i].emitted == states[j].emitted
  {
    if j + 1 < i {
      FailureEndsStream(c, states, steps, j, i - 1);
      FailedStays(c, states[i - 1], steps[i - 1]);
      hide Next, Enabled;
    } else {
      hide Good, NextTurn, NextCall, NextStore, Store.At, Init;
    }
  }

  /**
   With at least one AU no reachable state is stuck before the stream is finished, even if no
   other stream ever wakes the thread: no wake-up gets lost.
   */
  lemma NeverStuck(c: Stream, states: seq<State>, steps: seq<Step>, i: nat)
    requires c.Proper() && IsRun(c, states, steps) && i < |states| && c.auBufferNum > 0
    ensures var s := states[i];
            s.demux.Finished? || s.demux.Failed? || s.demux.Overrun?
            || exists step: Step | !step.OtherSignal? :: Enabled(c, s, step)
  {
    RunKeepsInv(c, states, steps, i);
    hide IsRun, InOrder, OnCourse, Laid, Inside, Owners, Held, Wakeful, Enabled;
    var s := states[i];
    if !s.demux.Finished? && !s.demux.Failed? && !s.demux.Overrun? { NotStuck(c, s); }
  }

  lemma NotStuck(c: Stream, s: State)
    requires s.Size() > 0 && Held(s) == s.Size() && Wakeful(c, s)
    requires !s.demux.Finished? && !s.demux.Failed? && !s.demux.Overrun?
    ensures exists step: Step | !step.OtherSignal? :: Enabled(c, s, step)
  {
    var demux := match s.demux
      case Waiting => Wake case Woken => Call case Parsing => Turn case Holding(_, _) => Step.Store case _ => Queue;
    var decoder := match s.decoder
      case Idle => if s.read != [] then TakeFilled else TakeHeld
      case Getting(_) => KeepFilled case Releasing(_) => HandOver case Signalling => Signal;
    assert Enabled(c, s, demux) || Enabled(c, s, decoder);
  }
}
