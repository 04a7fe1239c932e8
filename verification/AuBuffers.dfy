/**
 The AU buffers of a stream and the three queues they travel through: free ones to write, filled
 ones to read, and those that the decoder has got and not released. AUs are named by their index.
 The methods here are what the parser and the decoder's thread run between them; AuPipeline
 interleaves their steps.
 */
module AuBuffers {
  import opened Bytes
  import opened Results
  import opened Ownership
  import opened AuStore
  import opened RingQueue

  /** What a reader of an AU finds; no pts stands for AVIDMUX_TIME_STAMP_INVALID. */
  datatype AuInfo = AuInfo(data: seq<byte>, pts: Option<nat>)

  /** What the stream keeps of an AU: where its buffer is, how much it holds, and its time stamp. */
  datatype AuHeader = AuHeader(auAddr: nat, auSize: nat, pts: Option<nat>)

  /** Only the first AU since the parser was cleared carries a time stamp, which is zero. */
  function Stamp(auCount: nat): Option<nat> {
    if auCount > 0 then None else Some(0)
  }

  // ---- The books: free AUs, filled AUs, what is stored, and how many were ever filled

  datatype Books = Books(write: seq<nat>, read: seq<nat>, info: seq<AuInfo>, auCount: nat) {

    ghost predicate Valid() {
      && Distinct(write + read)
      && (forall i | 0 <= i < |write| :: write[i] < |info|)
      && (forall i | 0 <= i < |read| :: read[i] < |info|)
    }

    /** Filling the oldest free AU and queueing it for the decoder. */
    function Emit(au: seq<byte>): Books
      requires write != [] && write[0] < |info|
    {
      Books(write[1..], read + [write[0]], info[write[0] := AuInfo(au, Stamp(auCount))], auCount + 1)
    }

    ghost function EmitAll(aus: seq<seq<byte>>): Books
      requires Valid() && |aus| <= |write|
      decreases |aus|
    {
      if aus == [] then this
      else
        EmitKeepsValid(this, aus[0]);
        Emit(aus[0]).EmitAll(aus[1..])
    }

    /** What the filled AUs hold, oldest first. */
    ghost function Filled(): seq<seq<byte>>
      requires Valid()
    {
      seq(|read|, i requires 0 <= i < |read| => info[read[i]].data)
    }

    /** Their time stamps. */
    ghost function Stamps(): seq<Option<nat>>
      requires Valid()
    {
      seq(|read|, i requires 0 <= i < |read| => info[read[i]].pts)
    }
  }

  lemma EmitKeepsValid(b: Books, au: seq<byte>)
    requires b.Valid() && b.write != []
    ensures b.Emit(au).Valid()
  {
    var c := b.Emit(au);
    assert b.write == [b.write[0]] + b.write[1..];
    RearrangedDistinct(c.write + c.read, b.write + b.read);
  }

  lemma EmitFilled(b: Books, au: seq<byte>)
    requires b.Valid() && b.write != []
    ensures b.write[0] < |b.info| && b.Emit(au).Valid() && b.Emit(au).Filled() == b.Filled() + [au]
  {
    EmitKeepsValid(b, au);
    forall i | 0 <= i < |b.read| ensures b.read[i] != b.write[0] {
      assert (b.write + b.read)[|b.write| + i] == b.read[i] && (b.write + b.read)[0] == b.write[0];
    }
  }

  lemma EmitOne(b: Books, au: seq<byte>)
    requires b.Valid() && b.write != []
    ensures b.EmitAll([au]) == b.Emit(au)
  {
    EmitKeepsValid(b, au);
    assert b.Emit(au).EmitAll([]) == b.Emit(au);
  }

  lemma {:induction false} EmitTwice(b: Books, done: seq<seq<byte>>, cut: seq<seq<byte>>)
    requires b.Valid() && |done| + |cut| <= |b.write|
    ensures var c := b.EmitAll(done);
      c.Valid() && |c.write| == |b.write| - |done| && c.EmitAll(cut) == b.EmitAll(done + cut)
    decreases |done|
  {
    if done == [] {
      assert done + cut == cut;
    } else {
      EmitKeepsValid(b, done[0]);
      EmitTwice(b.Emit(done[0]), done[1..], cut);
      assert (done + cut)[1..] == done[1..] + cut;
    }
  }

  /** The AUs emitted are what the decoder will find, behind those it has not taken yet. */
  lemma {:induction false} EmitAllFilled(b: Books, aus: seq<seq<byte>>)
    requires b.Valid() && |aus| <= |b.write|
    ensures b.EmitAll(aus).Valid() && b.EmitAll(aus).Filled() == b.Filled() + aus
    decreases |aus|
  {
    if aus != [] {
      EmitFilled(b, aus[0]);
      hide Books.Valid, Books.Filled;
      EmitAllFilled(b.Emit(aus[0]), aus[1..]);
      assert (b.Filled() + [aus[0]]) + aus[1..] == b.Filled() + aus;
    } else {
      assert b.Filled() + [] == b.Filled();
    }
  }

  /** They went through the free AUs in order, and were counted. */
  lemma {:induction false} EmitAllQueues(b: Books, aus: seq<seq<byte>>)
    requires b.Valid() && |aus| <= |b.write|
    ensures var c := b.EmitAll(aus);
      && c.write == b.write[|aus|..] && c.read == b.read + b.write[..|aus|]
      && c.auCount == b.auCount + |aus| && |c.info| == |b.info|
    decreases |aus|
  {
    if aus != [] {
      EmitKeepsValid(b, aus[0]);
      hide Books.Valid;
      EmitAllQueues(b.Emit(aus[0]), aus[1..]);
      assert b.write[1..][|aus| - 1..] == b.write[|aus|..];
      assert b.read + [b.write[0]] + b.write[1..][..|aus| - 1] == b.read + b.write[..|aus|];
    }
  }

  lemma EmitStamps(b: Books, au: seq<byte>)
    requires b.Valid() && b.write != []
    ensures b.write[0] < |b.info| && b.Emit(au).Valid()
    ensures b.Emit(au).Stamps() == b.Stamps() + [if b.auCount == 0 then Some(0) else None]
    ensures b.Emit(au).auCount == b.auCount + 1
  {
    EmitKeepsValid(b, au);
    forall i | 0 <= i < |b.read| ensures b.read[i] != b.write[0] {
      assert (b.write + b.read)[|b.write| + i] == b.read[i] && (b.write + b.read)[0] == b.write[0];
    }
  }

  /** The time stamps of the next `n` AUs, with `count` filled before them since the parser was cleared. */
  function FirstAtZero(count: nat, n: nat): seq<Option<nat>> {
    seq(n, k => if count == 0 && k == 0 then Some(0) else None)
  }

  /** Of all the AUs since the parser was cleared only the first has a time stamp, and it is zero. */
  lemma {:induction false} EmitAllStamps(b: Books, aus: seq<seq<byte>>)
    requires b.Valid() && |aus| <= |b.write|
    ensures b.EmitAll(aus).Valid() && b.EmitAll(aus).Stamps() == b.Stamps() + FirstAtZero(b.auCount, |aus|)
    decreases |aus|
  {
    if aus == [] {
      assert b.Stamps() + FirstAtZero(b.auCount, 0) == b.Stamps();
    } else {
      EmitStamps(b, aus[0]);
      hide Books.Valid, Books.Stamps, Books.Emit;
      EmitAllStamps(b.Emit(aus[0]), aus[1..]);
      StampsOn(b.Stamps(), b.auCount, |aus|);
    }
  }

  lemma StampsOn(s: seq<Option<nat>>, count: nat, n: nat)
    requires n > 0
    ensures (s + [if count == 0 then Some(0) else None]) + FirstAtZero(count + 1, n - 1) == s + FirstAtZero(count, n)
  {}

  /** Of AUs emitted one after another, the k-th goes into the k-th free AU, with its time stamp. */
  lemma EmittedInfo(b: Books, aus: seq<seq<byte>>, k: nat)
    requires b.Valid() && k < |aus| <= |b.write|
    ensures var c := b.EmitAll(aus);
      && |c.read| == |b.read| + |aus| && c.read[|b.read| + k] == b.write[k] < |c.info|
      && c.info[b.write[k]] == AuInfo(aus[k], if b.auCount == 0 && k == 0 then Some(0) else None)
  {
    EmitAllQueues(b, aus);
    EmitAllFilled(b, aus);
    EmitAllStamps(b, aus);
    var c, at := b.EmitAll(aus), |b.read| + k;
    hide Books.EmitAll;
    assert c.Filled()[at] == aus[k] && c.Stamps()[at] == FirstAtZero(b.auCount, |aus|)[k];
  }

  // ---- Who has which AU

  /** The queues hold each of the `n` AUs exactly once. */
  ghost predicate AtRest(write: seq<nat>, read: seq<nat>, release: seq<nat>, n: nat) {
    && Distinct(write + read + release)
    && |write| + |read| + |release| == n
    && (forall i | 0 <= i < |write| :: write[i] < n)
    && (forall i | 0 <= i < |read| :: read[i] < n)
    && (forall i | 0 <= i < |release| :: release[i] < n)
  }

  lemma AtRestRoom(write: seq<nat>, read: seq<nat>, release: seq<nat>, n: nat)
    requires AtRest(write, read, release, n)
    ensures |write| + |read| + |release| == n
    ensures forall i | 0 <= i < |write| :: write[i] < n
    ensures forall i | 0 <= i < |read| :: read[i] < n
  {}

  lemma AtRestBooks(write: seq<nat>, read: seq<nat>, release: seq<nat>, info: seq<AuInfo>, count: nat)
    requires AtRest(write, read, release, |info|)
    ensures Books(write, read, info, count).Valid()
  {
    assert forall i | 0 <= i < |write + read| :: (write + read)[i] == (write + read + release)[i];
  }

  lemma Requeued(write: seq<nat>, read: seq<nat>, release: seq<nat>, n: nat)
    requires AtRest(write, read, release, n) && write != []
    ensures AtRest(write[1..] + [write[0]], read, release, n)
  {
    assert write == [write[0]] + write[1..];
    RearrangedDistinct(write[1..] + [write[0]] + read + release, write + read + release);
  }

  lemma AllWritable(n: nat)
    ensures AtRest(Indices(n), [], [], n)
  {
    assert Indices(n) + [] + [] == Indices(n);
  }

  lemma Taken(write: seq<nat>, read: seq<nat>, release: seq<nat>, n: nat)
    requires AtRest(write, read, release, n) && read != []
    ensures AtRest(write, read[1..], release + [read[0]], n)
  {
    assert read == [read[0]] + read[1..];
    RearrangedDistinct(write + read[1..] + (release + [read[0]]), write + read + release);
  }

  lemma Released(write: seq<nat>, read: seq<nat>, release: seq<nat>, n: nat)
    requires AtRest(write, read, release, n) && release != []
    ensures AtRest(write + [release[0]], read, release[1..], n)
  {
    assert release == [release[0]] + release[1..];
    RearrangedDistinct(write + [release[0]] + read + release[1..], write + read + release);
  }

  lemma Emitted(write: seq<nat>, read: seq<nat>, release: seq<nat>, n: nat)
    requires AtRest(write, read, release, n) && write != []
    ensures AtRest(write[1..], read + [write[0]], release, n)
  {
    assert write == [write[0]] + write[1..];
    RearrangedDistinct(write[1..] + (read + [write[0]]) + release, write + read + release);
  }

  // ---- Queues

  ghost function Queued(q: UtilQueue<nat>): seq<nat>
    reads q, q.queueArray
    requires q.Valid()
  {
    q.State().Contents()
  }

  predicate Apart(a: UtilQueue<nat>, b: UtilQueue<nat>) {
    a != b && a.queueArray != b.queueArray
  }

  /** A new queue shares nothing with the older ones. */
  method NewQueue(size: nat) returns (q: UtilQueue<nat>)
    ensures q.Valid() && q.size == size && Queued(q) == []
    ensures fresh(q) && fresh(q.queueArray)
  {
    q := new UtilQueue<nat>(size);
  }

  /** A new queue with every AU in it. */
  method NewFullQueue(size: nat) returns (q: UtilQueue<nat>)
    ensures q.Valid() && q.size == size && Queued(q) == Indices(size)
    ensures fresh(q) && fresh(q.queueArray)
  {
    q := new UtilQueue<nat>(size);
    hide Ring<nat>.Valid, Ring<nat>.Push, Ring<nat>.Contents;
    for auIndex := 0 to size
      invariant q.Valid() && Queued(q) == Indices(auIndex)
    {
      var ok := q.Push(auIndex, false);
      assert Indices(auIndex) + [auIndex] == Indices(auIndex + 1);
    }
  }

  // ---- The block of buffers

  /** The sizes that the headers record, and the block with them. */
  function Sizes(headers: seq<AuHeader>): (r: seq<nat>)
    ensures |r| == |headers|
  {
    seq(|headers|, i requires 0 <= i < |headers| => headers[i].auSize)
  }

  function StoreOf(bytes: seq<byte>, headers: seq<AuHeader>, stride: nat): Store {
    Store(bytes, Sizes(headers), stride)
  }

  /** What each AU holds. */
  function Infos(bytes: seq<byte>, headers: seq<AuHeader>, stride: nat): (r: seq<AuInfo>)
    ensures |r| == |headers|
  {
    seq(|headers|, i requires 0 <= i < |headers| => AuInfo(StoreOf(bytes, headers, stride).At(i), headers[i].pts))
  }

  /** Each buffer is where its AU's index says, and holds no more than its size. */
  ghost predicate Laid(bytes: seq<byte>, headers: seq<AuHeader>, stride: nat) {
    && |bytes| == Slot(stride, |headers|)
    && forall i | 0 <= i < |headers| :: headers[i].auAddr == Slot(stride, i) && headers[i].auSize <= stride
  }

  lemma LaidStore(bytes: seq<byte>, headers: seq<AuHeader>, stride: nat)
    requires Laid(bytes, headers, stride)
    ensures StoreOf(bytes, headers, stride).Valid() && StoreOf(bytes, headers, stride).Snug()
  {}

  /** A copy of at most a stride to an AU's own address stays inside the block and changes that AU only. */
  lemma StoresOne(bytes: seq<byte>, headers: seq<AuHeader>, stride: nat, au: nat, data: seq<byte>, pts: Option<nat>)
    requires Laid(bytes, headers, stride) && au < |headers| && |data| <= stride
    ensures headers[au].auAddr + |data| <= |bytes|
    ensures var bytes' := Copied(bytes, headers[au].auAddr, data);
      var headers' := headers[au := AuHeader(headers[au].auAddr, |data|, pts)];
      && Laid(bytes', headers', stride)
      && Infos(bytes', headers', stride) == Infos(bytes, headers, stride)[au := AuInfo(data, pts)]
  {
    var s := StoreOf(bytes, headers, stride);
    LaidStore(bytes, headers, stride);
    SlotsInside(s, au);
    assert headers[au].auAddr == Slot(stride, au);
    var bytes' := Copied(bytes, headers[au].auAddr, data);
    var headers' := headers[au := AuHeader(headers[au].auAddr, |data|, pts)];
    assert Sizes(headers') == Sizes(headers)[au := |data|];
    assert StoreOf(bytes', headers', stride) == s.Put(au, data);
    hide Slot, Store.At;
    forall i | 0 <= i < |headers|
      ensures StoreOf(bytes', headers', stride).At(i) == if i == au then data else s.At(i)
    {
      if i == au { PutOwn(s, au, data); } else { PutOther(s, au, data, i); }
    }
  }

  // ---- The buffers in place

  class AuBuffers {
    const maxAuSize: nat
    const pAuBuffer: array<byte>
    const pAuInfo: array<AuHeader>
    const auWriteQueue: UtilQueue<nat>
    const auReadQueue: UtilQueue<nat>
    const auReleaseQueue: UtilQueue<nat>
    var parseAuCount: nat
    var bReleaseDone: bool    // the demultiplexer's recvStatus, reached through pHandle

    ghost function QueueRepr(): set<object> {
      {auWriteQueue, auWriteQueue.queueArray,
       auReadQueue, auReadQueue.queueArray,
       auReleaseQueue, auReleaseQueue.queueArray}
    }

    ghost function Repr(): set<object> {
      QueueRepr() + {this, pAuBuffer, pAuInfo}
    }

    /** The queues work and share nothing. */
    ghost predicate QueuesWork()
      reads QueueRepr()
    {
      && auWriteQueue.Valid() && auReadQueue.Valid() && auReleaseQueue.Valid()
      && Apart(auWriteQueue, auReadQueue) && Apart(auReadQueue, auReleaseQueue) && Apart(auWriteQueue, auReleaseQueue)
      && auWriteQueue.size == auReadQueue.size == auReleaseQueue.size == pAuInfo.Length
    }

    /** They hold every AU exactly once while no thread has one in hand. */
    ghost predicate QueuesValid()
      reads QueueRepr()
    {
      QueuesWork() && AtRest(Queued(auWriteQueue), Queued(auReadQueue), Queued(auReleaseQueue), pAuInfo.Length)
    }

    /** As QueuesValid, while the parser has AU `au`, the oldest free one, in hand. */
    ghost predicate QueuesHolding(au: nat)
      reads QueueRepr()
    {
      && QueuesWork()
      && AtRest([au] + Queued(auWriteQueue), Queued(auReadQueue), Queued(auReleaseQueue), pAuInfo.Length)
    }

    ghost predicate StoreValid()
      reads pAuBuffer, pAuInfo
    {
      Laid(pAuBuffer[..], pAuInfo[..], maxAuSize)
    }

    ghost predicate Valid()
      reads pAuBuffer, pAuInfo, QueueRepr()
    {
      QueuesValid() && StoreValid()
    }

    /** What each AU holds. */
    ghost function Info(): (r: seq<AuInfo>)
      reads pAuBuffer, pAuInfo
      ensures |r| == pAuInfo.Length
    {
      Infos(pAuBuffer[..], pAuInfo[..], maxAuSize)
    }

    ghost function Ledger(): Books
      reads `parseAuCount, pAuBuffer, pAuInfo, QueueRepr()
      requires Valid()
    {
      Books(Queued(auWriteQueue), Queued(auReadQueue), Info(), parseAuCount)
    }

    /** The AUs that the decoder has got and not released. */
    ghost function Kept(): seq<nat>
      reads pAuBuffer, pAuInfo, QueueRepr()
      requires Valid()
    {
      Queued(auReleaseQueue)
    }

    lemma LedgerValid()
      requires Valid()
      ensures Ledger().Valid()
    {
      AtRestBooks(Queued(auWriteQueue), Queued(auReadQueue), Queued(auReleaseQueue), Info(), parseAuCount);
    }

    constructor (maxAuSize: nat, auBuffer: array<byte>, auInfo: array<AuHeader>,
                 write: UtilQueue<nat>, read: UtilQueue<nat>, release: UtilQueue<nat>)
      ensures this.maxAuSize == maxAuSize && pAuBuffer == auBuffer && pAuInfo == auInfo
      ensures auWriteQueue == write && auReadQueue == read && auReleaseQueue == release
      ensures parseAuCount == 0
    {
      this.maxAuSize, pAuBuffer, pAuInfo := maxAuSize, auBuffer, auInfo;
      auWriteQueue, auReadQueue, auReleaseQueue := write, read, release;
      parseAuCount, bReleaseDone := 0, false;
    }

    /** Hands the oldest filled AU to the decoder; it stays in the release queue while held. */
    method GetAu() returns (ret: RetCode, au: Option<nat>)
      requires Valid()
      modifies auReadQueue, auReleaseQueue, auReleaseQueue.queueArray
      ensures Valid()
      ensures au == if old(Ledger()).read == [] then None else Some(old(Ledger()).read[0])
      ensures ret == if au.Some? then CellOk else ErrEmpty
      ensures Ledger() == old(Ledger()).(read := if au.Some? then old(Ledger()).read[1..] else [])
      ensures Kept() == old(Kept()) + if au.Some? then [au.value] else []
    {
      hide AtRest, StoreValid, Info, Ring<nat>.Contents, Ring<nat>.Valid, Ring<nat>.Push, Ring<nat>.Pop;
      ghost var w, r, rel := Queued(auWriteQueue), Queued(auReadQueue), Queued(auReleaseQueue);
      AtRestRoom(w, r, rel, pAuInfo.Length);
      au := auReadQueue.Pop(false);
      ret := ErrEmpty;
      if au.Some? {
        var ok := auReleaseQueue.Push(au.value, true);
        ret := CellOk;
        Taken(w, r, rel, pAuInfo.Length);
      }
    }

    /** Returns the AU held longest to the parser, and tells the demultiplexer. */
    method ReleaseAu() returns (ret: RetCode)
      requires Valid()
      modifies auReleaseQueue, auWriteQueue, auWriteQueue.queueArray, `bReleaseDone
      ensures Valid()
      ensures ret == if old(Kept()) == [] then ErrSeq else CellOk
      ensures ret == CellOk ==>
        && Kept() == old(Kept())[1..] && bReleaseDone
        && Ledger() == old(Ledger()).(write := old(Ledger()).write + [old(Kept())[0]])
      ensures ret == ErrSeq ==> Kept() == [] && Ledger() == old(Ledger()) && bReleaseDone == old(bReleaseDone)
    {
      hide AtRest, StoreValid, Info, Ring<nat>.Contents, Ring<nat>.Valid, Ring<nat>.Push, Ring<nat>.Pop;
      ghost var w, r, rel := Queued(auWriteQueue), Queued(auReadQueue), Queued(auReleaseQueue);
      AtRestRoom(w, r, rel, pAuInfo.Length);
      var au := auReleaseQueue.Pop(false);
      ret := ErrSeq;
      if au.Some? {
        var ok := auWriteQueue.Push(au.value, true);
        ret := CellOk;
        bReleaseDone := true;
        Released(w, r, rel, pAuInfo.Length);
      }
    }

    /** Takes the oldest free AU, if there is one. */
    method TakeAu() returns (au: Option<nat>)
      requires QueuesValid()
      modifies auWriteQueue
      ensures QueuesWork() && (au.None? ==> QueuesValid()) && (au.Some? ==> QueuesHolding(au.value))
      ensures old(Queued(auWriteQueue)) == (if au.Some? then [au.value] else []) + Queued(auWriteQueue)
      ensures au.None? ==> Queued(auWriteQueue) == []
      ensures Queued(auReadQueue) == old(Queued(auReadQueue))
      ensures Queued(auReleaseQueue) == old(Queued(auReleaseQueue))
    {
      hide AtRest, Ring<nat>.Contents, Ring<nat>.Valid, Ring<nat>.Pop;
      ghost var w := Queued(auWriteQueue);
      au := auWriteQueue.Pop(false);
      assert w == (if au.Some? then [au.value] else []) + Queued(auWriteQueue);
    }

    /** Gives an AU in hand back unfilled. */
    method PutBack(au: nat)
      requires QueuesHolding(au)
      modifies auWriteQueue, auWriteQueue.queueArray
      ensures QueuesValid() && Queued(auWriteQueue) == old(Queued(auWriteQueue)) + [au]
      ensures Queued(auReadQueue) == old(Queued(auReadQueue))
      ensures Queued(auReleaseQueue) == old(Queued(auReleaseQueue))
    {
      hide AtRest, Ring<nat>.Contents, Ring<nat>.Valid, Ring<nat>.Push;
      ghost var w, r, rel := Queued(auWriteQueue), Queued(auReadQueue), Queued(auReleaseQueue);
      AtRestRoom([au] + w, r, rel, pAuInfo.Length);
      Requeued([au] + w, r, rel, pAuInfo.Length);
      assert ([au] + w)[1..] == w;
      var ok := auWriteQueue.Push(au, true);
    }

    /** Copies data to an AU in hand, with its size and time stamp. */
    method StoreAu(au: nat, data: seq<byte>)
      requires StoreValid() && au < pAuInfo.Length && |data| <= maxAuSize
      modifies `parseAuCount, pAuBuffer, pAuInfo
      ensures StoreValid() && parseAuCount == old(parseAuCount) + 1
      ensures Info() == old(Info())[au := AuInfo(data, if old(parseAuCount) == 0 then Some(0) else None)]
    {
      hide Laid, Infos;
      ghost var bytes, headers := pAuBuffer[..], pAuInfo[..];
      StoresOne(bytes, headers, maxAuSize, au, data, Stamp(parseAuCount));
      var auAddr := pAuInfo[au].auAddr;
      forall k | 0 <= k < |data| { pAuBuffer[auAddr + k] := data[k]; }
      pAuInfo[au] := AuHeader(auAddr, |data|, Stamp(parseAuCount));
      parseAuCount := parseAuCount + 1;
      assert pAuBuffer[..] == Copied(bytes, auAddr, data);
      assert pAuInfo[..] == headers[au := pAuInfo[au]];
    }

    /** Queues a filled AU in hand for the decoder. */
    method QueueAu(au: nat)
      requires QueuesHolding(au)
      modifies auReadQueue, auReadQueue.queueArray
      ensures QueuesValid() && Queued(auReadQueue) == old(Queued(auReadQueue)) + [au]
      ensures Queued(auWriteQueue) == old(Queued(auWriteQueue))
      ensures Queued(auReleaseQueue) == old(Queued(auReleaseQueue))
    {
      hide AtRest, Ring<nat>.Contents, Ring<nat>.Valid, Ring<nat>.Push;
      ghost var w, r, rel := Queued(auWriteQueue), Queued(auReadQueue), Queued(auReleaseQueue);
      AtRestRoom([au] + w, r, rel, pAuInfo.Length);
      Emitted([au] + w, r, rel, pAuInfo.Length);
      assert ([au] + w)[1..] == w;
      var ok := auReadQueue.Push(au, true);
    }

    lemma HoldingIndex(au: nat)
      requires QueuesHolding(au)
      ensures au < pAuInfo.Length
    {
      assert ([au] + Queued(auWriteQueue))[0] == au;
    }

    /** Fills an AU in hand and queues it. */
    method FillAu(au: nat, data: seq<byte>)
      requires QueuesHolding(au) && StoreValid() && |data| <= maxAuSize
      modifies `parseAuCount, pAuBuffer, pAuInfo, auReadQueue, auReadQueue.queueArray
      ensures Valid() && Kept() == old(Queued(auReleaseQueue)) && au < pAuInfo.Length
      ensures Ledger() == Books(old(Queued(auWriteQueue)), old(Queued(auReadQueue)) + [au],
        old(Info())[au := AuInfo(data, if old(parseAuCount) == 0 then Some(0) else None)], old(parseAuCount) + 1)
    {
      hide AtRest, Laid, Infos, Ring<nat>.Contents, Ring<nat>.Valid;
      HoldingIndex(au);
      StoreAu(au, data);
      QueueAu(au);
    }

    /** Stores `data` in the oldest free AU and queues it, if there is one. */
    method EmitAu(data: seq<byte>) returns (ok: bool)
      requires Valid() && (Ledger().write != [] ==> |data| <= maxAuSize)
      modifies `parseAuCount, pAuBuffer, pAuInfo, auWriteQueue, auReadQueue, auReadQueue.queueArray
      ensures Valid() && Kept() == old(Kept()) && old(Ledger()).Valid()
      ensures ok == (old(Ledger()).write != [])
      ensures Ledger() == if ok then old(Ledger()).Emit(data) else old(Ledger())
      ensures ok ==> var w, r := old(Ledger()).write, old(Ledger()).read;
        && Ledger().write == w[1..] && Ledger().read == r + [w[0]]
        && Ledger().info == old(Info())[w[0] := AuInfo(data, if old(parseAuCount) == 0 then Some(0) else None)]
    {
      hide AtRest, Laid, Infos, Ring<nat>.Contents, Ring<nat>.Valid;
      LedgerValid();
      var au := TakeAu();
      ok := au.Some?;
      if ok {
        FillAu(au.value, data);
      }
    }

    /** Starts a new count, as ClearParseInfo does. */
    method ClearCount()
      modifies `parseAuCount
      ensures parseAuCount == 0
    {
      parseAuCount := 0;
    }
  }

  lemma EmptyLaid(bytes: seq<byte>, headers: seq<AuHeader>, stride: nat)
    requires |bytes| == Slot(stride, |headers|)
    requires forall i | 0 <= i < |headers| :: headers[i] == AuHeader(Slot(stride, i), 0, None)
    ensures Laid(bytes, headers, stride)
  {}

  /** The block of buffers, one stride apart, and their headers; SlotAddress says that slots are products. */
  method NewStore(auBufferNum: nat, maxAuSize: nat) returns (auBuffer: array<byte>, auInfo: array<AuHeader>)
    ensures fresh(auBuffer) && fresh(auInfo) && auInfo.Length == auBufferNum
    ensures Laid(auBuffer[..], auInfo[..], maxAuSize)
  {
    hide Slot;
    auBuffer := new byte[Slot(maxAuSize, auBufferNum)];
    auInfo := new AuHeader[auBufferNum](_ => AuHeader(0, 0, None));
    for auIndex := 0 to auBufferNum
      invariant forall i | 0 <= i < auIndex :: auInfo[i] == AuHeader(Slot(maxAuSize, i), 0, None)
    {
      auInfo[auIndex] := AuHeader(Slot(maxAuSize, auIndex), 0, None);
    }
    EmptyLaid(auBuffer[..], auInfo[..], maxAuSize);
  }

  /** A stream's AU buffers, all of them free to write. */
  method NewAuBuffers(auBufferNum: nat, maxAuSize: nat) returns (aus: AuBuffers)
    ensures aus.Valid() && fresh(aus) && fresh(aus.Repr())
    ensures aus.maxAuSize == maxAuSize && aus.pAuInfo.Length == auBufferNum
    ensures aus.Ledger().write == Indices(auBufferNum) && aus.Ledger().read == [] && aus.Kept() == []
    ensures aus.parseAuCount == 0
  {
    var auBuffer, auInfo := NewStore(auBufferNum, maxAuSize);
    var write := NewFullQueue(auBufferNum);
    var read := NewQueue(auBufferNum);
    var release := NewQueue(auBufferNum);
    hide Laid, Ring<nat>.Valid, Ring<nat>.Contents, AtRest, UtilQueue<nat>.Valid, UtilQueue<nat>.State, Infos;
    aus := new AuBuffers(maxAuSize, auBuffer, auInfo, write, read, release);
    AllWritable(auBufferNum);
  }
}
