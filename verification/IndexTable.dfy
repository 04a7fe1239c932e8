/**
 The position tables of an AVI 1.0 file, built from its idx1 chunk: 16-byte entries, each read
 twice, first to count what each stream needs and then to fill exactly sized tables.
 Integers are 32 bits wide, as in the source.
 */
module IndexTable {
  import opened Bytes
  import opened BufferedReader

  // ---- Entries of the chunk

  const ENTRY_SIZE: nat := 16
  const WORD: nat := 0x1_0000_0000

  datatype IndexEntry = IndexEntry(c0: byte, c1: byte, flags: nat, offset: nat, length: nat)

  /** A little-endian 32-bit word. */
  function Word(b: seq<byte>, at: nat): (r: nat)
    requires at + 4 <= |b|
    ensures r < WORD
  {
    b[at] as int + 0x100 * (b[at + 1] as int + 0x100 * (b[at + 2] as int + 0x100 * b[at + 3] as int))
  }

  /** The four bytes of a word, the least significant one first. */
  function LittleEndian(x: nat): (b: seq<byte>)
    requires x < WORD
    ensures |b| == 4
  {
    [x % 0x100, x / 0x100 % 0x100, x / 0x100 / 0x100 % 0x100, x / 0x100 / 0x100 / 0x100]
  }

  lemma LowByte(b: byte, rest: nat)
    ensures (b as int + 0x100 * rest) % 0x100 == b && (b as int + 0x100 * rest) / 0x100 == rest
  {}

  /** Reading the four bytes of a word gives the word, and the bytes read are those of the word given. */
  lemma WordRoundTrip(b: seq<byte>, at: nat, x: nat)
    requires at + 4 <= |b| && x < WORD
    ensures LittleEndian(Word(b, at)) == b[at..at + 4]
    ensures Word(LittleEndian(x), 0) == x && LittleEndian(x)[0] == x % 0x100
  {
    var b2 := b[at + 2] as int + 0x100 * b[at + 3] as int;
    var b1 := b[at + 1] as int + 0x100 * b2;
    LowByte(b[at + 2], b[at + 3]);
    LowByte(b[at + 1], b2);
    LowByte(b[at], b1);
  }

  function Parse(b: seq<byte>): (e: IndexEntry)
    requires |b| == ENTRY_SIZE
    ensures e.offset < WORD && e.length < WORD
  {
    IndexEntry(b[0], b[1], Word(b, 4), Word(b, 8), Word(b, 12))
  }

  /** The first `count` entries of the chunk at `start`. */
  function Entries(file: seq<byte>, start: nat, count: nat): (es: seq<IndexEntry>)
    requires start + ENTRY_SIZE * count <= |file|
    ensures |es| == count
  {
    if count == 0 then []
    else
      var at := start + ENTRY_SIZE * (count - 1);
      Entries(file, start, count - 1) + [Parse(file[at..at + ENTRY_SIZE])]
  }

  lemma {:induction false} EntriesPrefix(file: seq<byte>, start: nat, k: nat, count: nat)
    requires k <= count && start + ENTRY_SIZE * count <= |file|
    ensures Entries(file, start, k) == Entries(file, start, count)[..k]
  {
    if k < count { EntriesPrefix(file, start, k, count - 1); }
  }

  predicate Digit(c: byte) { '0' as int <= c <= '9' as int }

  predicate Space(c: byte) { c == 0x20 || 0x09 <= c <= 0x0D }

  /** What strtoul makes of the first two characters of a chunk id, as an unsigned int. */
  function StreamOf(e: IndexEntry): nat {
    if Digit(e.c0) then
      if Digit(e.c1) then 10 * (e.c0 - 48) + (e.c1 - 48) else e.c0 - 48
    else if Digit(e.c1) && (Space(e.c0) || e.c0 == '+' as int) then e.c1 - 48
    else if Digit(e.c1) && e.c0 == '-' as int then (WORD - (e.c1 - 48)) % WORD
    else 0
  }

  // ---- The tables

  datatype Position = Position(offset: nat, size: nat, flags: nat)

  /** Where the chunks' offsets count from: the movi list, unless the first offset shows them absolute. */
  function Base(first: IndexEntry, streamOffset: nat): nat {
    if streamOffset <= (first.offset - 4) % WORD then 0 else streamOffset
  }

  function BaseOf(es: seq<IndexEntry>, streamOffset: nat): nat {
    if es == [] then streamOffset else Base(es[0], streamOffset)
  }

  function PositionOf(e: IndexEntry, base: nat): Position {
    Position((e.offset + base + 8) % WORD, e.length, e.flags)
  }

  /** The entries of stream `i`, in order, as positions. */
  function Table(es: seq<IndexEntry>, base: nat, i: nat): (t: seq<Position>)
    ensures |t| <= |es|
  {
    if es == [] then []
    else
      var t := Table(es[..|es| - 1], base, i);
      var e := es[|es| - 1];
      if StreamOf(e) == i then t + [PositionOf(e, base)] else t
  }

  function Larger(a: nat, b: nat): nat { if a < b then b else a }

  /** maxDataSize after the sizes in a table. */
  function LargestSize(t: seq<Position>, before: nat): nat {
    if t == [] then before else Larger(LargestSize(t[..|t| - 1], before), t[|t| - 1].size)
  }

  lemma {:induction false} TablePrefix(es: seq<IndexEntry>, base: nat, i: nat, k: nat)
    requires k <= |es|
    ensures Table(es[..k], base, i) <= Table(es, base, i)
  {
    if k < |es| {
      TablePrefix(es[..|es| - 1], base, i, k);
      assert es[..|es| - 1][..k] == es[..k];
    } else {
      assert es[..k] == es;
    }
  }

  // ---- What the tables are

  /** Place in stream `i`'s table of the entry `k` of the chunk: one for each earlier entry of the stream. */
  function PlaceOf(es: seq<IndexEntry>, i: nat, k: nat): nat
    requires k <= |es|
  {
    if k == 0 then 0 else PlaceOf(es, i, k - 1) + if StreamOf(es[k - 1]) == i then 1 else 0
  }

  lemma {:induction false} PlacePrefix(es: seq<IndexEntry>, i: nat, k: nat, n: nat)
    requires k <= n <= |es|
    ensures PlaceOf(es[..n], i, k) == PlaceOf(es, i, k)
  {
    if k > 0 { PlacePrefix(es, i, k - 1, n); }
  }

  lemma {:induction false} TableLength(es: seq<IndexEntry>, base: nat, i: nat)
    ensures |Table(es, base, i)| == PlaceOf(es, i, |es|)
  {
    if es != [] {
      TableLength(es[..|es| - 1], base, i);
      PlacePrefix(es, i, |es| - 1, |es| - 1);
    }
  }

  /**
   The table of a stream is the in-order subsequence of the entries classified to it: every
   such entry is in it, at the place that counts the stream's entries before it, and it holds
   nothing else.
   */
  lemma {:induction false} TableIsSubsequence(es: seq<IndexEntry>, base: nat, i: nat, k: nat)
    requires k < |es| && StreamOf(es[k]) == i
    ensures PlaceOf(es, i, k) < |Table(es, base, i)| == PlaceOf(es, i, |es|)
    ensures Table(es, base, i)[PlaceOf(es, i, k)]
         == Position((es[k].offset + base + 8) % WORD, es[k].length, es[k].flags)
  {
    TableLength(es, base, i);
    var front := es[..|es| - 1];
    TableLength(front, base, i);
    PlacePrefix(es, i, |es| - 1, |es| - 1);
    if k < |es| - 1 {
      TableIsSubsequence(front, base, i, k);
      PlacePrefix(es, i, k, |es| - 1);
    }
  }

  /** maxDataSize is at least every size in the table, and no more than the largest. */
  lemma {:induction false} LargestSizeIsLargest(t: seq<Position>, before: nat)
    ensures before <= LargestSize(t, before)
    ensures forall k | 0 <= k < |t| :: t[k].size <= LargestSize(t, before)
    ensures LargestSize(t, before) == before || exists k | 0 <= k < |t| :: t[k].size == LargestSize(t, before)
  {
    if t != [] { LargestSizeIsLargest(t[..|t| - 1], before); }
  }

  // ---- Which stream an id names

  /** An id that starts with the two digits of `n` names stream `n`. */
  lemma DigitsNameStream(e: IndexEntry, n: nat)
    requires n < 100 && e.c0 == 48 + n / 10 && e.c1 == 48 + n % 10
    ensures StreamOf(e) == n
  {}

  /** Any other id: one digit, with or without something that strtoul skips before it, a negative one, or no number. */
  lemma OtherIds(e: IndexEntry)
    ensures 48 <= e.c0 <= 57 && !(48 <= e.c1 <= 57) ==> StreamOf(e) == e.c0 - 48
    ensures e.c0 in {9, 10, 11, 12, 13, 32, 43} && 48 <= e.c1 <= 57 ==> StreamOf(e) == e.c1 - 48
    ensures e.c0 == 45 && 48 < e.c1 <= 57 ==> StreamOf(e) == 0x1_0000_0000 - (e.c1 - 48)
    ensures e.c0 == 45 && e.c1 == 48 ==> StreamOf(e) == 0
    ensures !(48 <= e.c0 <= 57) && (e.c0 in {9, 10, 11, 12, 13, 32, 43, 45} ==> !(48 <= e.c1 <= 57))
            ==> StreamOf(e) == 0
  {}

  // ---- An index written and read back

  /** A chunk as the writer of a file indexes it: its stream, the two characters of its kind, and where it is. */
  datatype Chunk = Chunk(stream: nat, kind: (byte, byte), flags: nat, offset: nat, length: nat) {
    predicate Valid() { stream < 100 && flags < WORD && offset < WORD && length < WORD }
  }

  /** The 16 bytes of its entry. */
  function EntryBytes(c: Chunk): (b: seq<byte>)
    requires c.Valid()
    ensures |b| == 16
  {
    [48 + c.stream / 10, 48 + c.stream % 10, c.kind.0, c.kind.1]
    + LittleEndian(c.flags) + LittleEndian(c.offset) + LittleEndian(c.length)
  }

  function IndexBytes(cs: seq<Chunk>): (b: seq<byte>)
    requires forall c <- cs :: c.Valid()
    ensures |b| == 16 * |cs|
  {
    if cs == [] then [] else IndexBytes(cs[..|cs| - 1]) + EntryBytes(cs[|cs| - 1])
  }

  /** Where the chunks of stream `i` are: behind the eight bytes of their own headers. */
  function Places(cs: seq<Chunk>, base: nat, i: nat): seq<Position> {
    if cs == [] then []
    else
      var t, c := Places(cs[..|cs| - 1], base, i), cs[|cs| - 1];
      if c.stream == i then t + [Position((c.offset + base + 8) % 0x1_0000_0000, c.length, c.flags)] else t
  }

  lemma EntryRead(c: Chunk)
    requires c.Valid()
    ensures var e := Parse(EntryBytes(c));
      StreamOf(e) == c.stream && e.flags == c.flags && e.offset == c.offset && e.length == c.length
  {
    var b := EntryBytes(c);
    EntryWords(c);
    hide EntryBytes, Word, LittleEndian, StreamOf;
    WordAt(b, 4, c.flags);
    WordAt(b, 8, c.offset);
    WordAt(b, 12, c.length);
    DigitsNameStream(Parse(b), c.stream);
  }

  lemma EntryWords(c: Chunk)
    requires c.Valid()
    ensures var b := EntryBytes(c);
      && b[0] == 48 + c.stream / 10 && b[1] == 48 + c.stream % 10
      && b[4..8] == LittleEndian(c.flags) && b[8..12] == LittleEndian(c.offset)
      && b[12..16] == LittleEndian(c.length)
  {
    hide LittleEndian;
    var b := EntryBytes(c);
    assert b[4..8] == LittleEndian(c.flags);
    assert b[8..12] == LittleEndian(c.offset);
    assert b[12..16] == LittleEndian(c.length);
  }

  lemma WordAt(b: seq<byte>, at: nat, x: nat)
    requires at + 4 <= |b| && x < WORD && b[at..at + 4] == LittleEndian(x)
    ensures Word(b, at) == x
  {
    WordRoundTrip(b, at, x);
    assert b[at] == b[at..at + 4][0] && b[at + 1] == b[at..at + 4][1];
    assert b[at + 2] == b[at..at + 4][2] && b[at + 3] == b[at..at + 4][3];
  }

  /** The file holds the index of `cs` from `start` on. */
  ghost predicate IndexAt(file: seq<byte>, start: nat, cs: seq<Chunk>) {
    && (forall c <- cs :: c.Valid())
    && start + 16 * |cs| <= |file| && file[start..start + 16 * |cs|] == IndexBytes(cs)
  }

  lemma IndexFront(file: seq<byte>, start: nat, cs: seq<Chunk>)
    requires IndexAt(file, start, cs) && cs != []
    ensures var n := |cs| - 1;
      && IndexAt(file, start, cs[..n]) && cs[n].Valid() && start + 16 * (n + 1) <= |file|
      && file[start + 16 * n..start + 16 * n + 16] == EntryBytes(cs[n])
  {
    var n := |cs| - 1;
    var all, front, last := file[start..start + 16 * |cs|], IndexBytes(cs[..n]), EntryBytes(cs[n]);
    assert all == front + last;
    hide *;
    assert file[start..start + 16 * n] == all[..16 * n] == front;
    assert file[start + 16 * n..start + 16 * n + 16] == all[16 * n..] == last;
  }

  lemma TableSnoc(es: seq<IndexEntry>, e: IndexEntry, base: nat, i: nat)
    ensures var t := Table(es, base, i);
      Table(es + [e], base, i)
      == t + if StreamOf(e) == i then [Position((e.offset + base + 8) % 0x1_0000_0000, e.length, e.flags)] else []
  {
    assert (es + [e])[..|es|] == es;
  }

  lemma EntriesSnoc(file: seq<byte>, start: nat, n: nat, b: seq<byte>)
    requires start + 16 * (n + 1) <= |file| && |b| == 16 && file[start + 16 * n..start + 16 * n + 16] == b
    ensures Entries(file, start, n + 1) == Entries(file, start, n) + [Parse(b)]
  {
    hide Parse;
  }

  lemma PlacesSnoc(cs: seq<Chunk>, base: nat, i: nat)
    requires cs != []
    ensures var c := cs[|cs| - 1];
      Places(cs, base, i) == Places(cs[..|cs| - 1], base, i)
        + if c.stream == i then [Position((c.offset + base + 8) % 0x1_0000_0000, c.length, c.flags)] else []
  {}

  /**
   An index written for any chunks is read back, entry by entry in the file, as their places: the
   table of each stream has its chunks, in order, and no others.
   */
  lemma {:induction false} IndexReadBack(file: seq<byte>, start: nat, cs: seq<Chunk>, base: nat, i: nat)
    requires IndexAt(file, start, cs)
    ensures start + ENTRY_SIZE * |cs| <= |file|
    ensures Table(Entries(file, start, |cs|), base, i) == Places(cs, base, i)
  {
    if cs != [] {
      var n := |cs| - 1;
      IndexFront(file, start, cs);
      hide *;
      IndexReadBack(file, start, cs[..n], base, i);
      EntryRead(cs[n]);
      EntriesSnoc(file, start, n, EntryBytes(cs[n]));
      TableSnoc(Entries(file, start, n), Parse(EntryBytes(cs[n])), base, i);
      PlacesSnoc(cs, base, i);
    }
  }

  // ---- The two conventions for offsets

  /** The same entries with offsets from the start of the file, in 32 bits. */
  function Absolute(es: seq<IndexEntry>, streamOffset: nat): (r: seq<IndexEntry>)
    ensures |r| == |es|
  {
    seq(|es|, k requires 0 <= k < |es| => es[k].(offset := (es[k].offset + streamOffset) % WORD))
  }

  lemma SumModulo(x: nat, a: nat, b: nat)
    ensures ((x + a) % WORD + b + 8) % WORD == (x + (a + b) + 8) % WORD
  {
    var q, r := (x + a) / WORD, (x + a) % WORD;
    assert x + (a + b) + 8 == q * WORD + (r + b + 8);
  }

  /** Absolute offsets counted from `base` are relative ones counted from `streamOffset + base`. */
  lemma {:induction false} AbsoluteTable(es: seq<IndexEntry>, streamOffset: nat, base: nat, i: nat)
    ensures Table(Absolute(es, streamOffset), base, i) == Table(es, streamOffset + base, i)
  {
    if es != [] {
      var front, e := es[..|es| - 1], es[|es| - 1];
      AbsoluteTable(front, streamOffset, base, i);
      assert Absolute(es, streamOffset)[..|es| - 1] == Absolute(front, streamOffset);
      SumModulo(e.offset, streamOffset, base);
    }
  }

  /** Two indices give the same table for every stream. */
  ghost predicate SameTables(es: seq<IndexEntry>, base: nat, es': seq<IndexEntry>, base': nat) {
    forall i: nat :: Table(es, base, i) == Table(es', base', i)
  }

  lemma AbsoluteSame(es: seq<IndexEntry>, a: nat, streamOffset: nat, base: nat)
    ensures SameTables(es, a, Absolute(es, streamOffset), base) <==> SameTables(es, a, es, streamOffset + base)
  {
    hide Table, Absolute;
    forall i: nat ensures Table(Absolute(es, streamOffset), base, i) == Table(es, streamOffset + base, i) {
      AbsoluteTable(es, streamOffset, base, i);
    }
  }

  /** Bases give the same tables exactly if they are the same in 32 bits. */
  lemma TablesAgree(es: seq<IndexEntry>, a: nat, b: nat)
    requires es != []
    ensures SameTables(es, a, es, b) <==> a % WORD == b % WORD
  {
    if a % WORD == b % WORD {
      forall i: nat ensures Table(es, a, i) == Table(es, b, i) { SameBase(es, a, b, i); }
    } else {
      var i := StreamOf(es[0]);
      TableIsSubsequence(es, a, i, 0);
      TableIsSubsequence(es, b, i, 0);
      OtherPosition(es[0], a, b);
      hide Table, StreamOf, PositionOf;
      assert Table(es, a, i) != Table(es, b, i);
    }
  }

  lemma OtherPosition(e: IndexEntry, a: nat, b: nat)
    ensures PositionOf(e, a) == PositionOf(e, b) <==> a % WORD == b % WORD
  {}

  lemma {:induction false} SameBase(es: seq<IndexEntry>, a: nat, b: nat, i: nat)
    requires a % WORD == b % WORD
    ensures Table(es, a, i) == Table(es, b, i)
  {
    hide StreamOf, PositionOf;
    if es != [] {
      SameBase(es[..|es| - 1], a, b, i);
      OtherPosition(es[|es| - 1], a, b);
    }
  }

  /** How far behind the place of the list's first chunk, which has offset 4, the first entry's chunk is. */
  function FirstDistance(es: seq<IndexEntry>): nat
    requires es != []
  {
    (es[0].offset - 4) % WORD
  }

  /**
   The list starts the file; or the first entry's chunk is less than `streamOffset` bytes behind the
   list's first, and its absolute offset is too small to wrap around; or, by accident,
   `streamOffset` is half the range of a word.
   */
  predicate Recognised(distance: nat, streamOffset: nat) {
    || streamOffset == 0
    || (distance < streamOffset && distance + streamOffset < WORD)
    || (streamOffset == WORD / 2 && streamOffset <= distance)
  }

  /**
   An index with offsets from the movi list at `streamOffset` and the same index with absolute
   offsets give the same tables exactly if they are recognised. So they do for files whose first
   entry is the list's first chunk, with distance 0.
   */
  lemma ConventionsAgree(es: seq<IndexEntry>, streamOffset: nat)
    requires es != [] && es[0].offset < WORD && streamOffset < WORD
    ensures var abs, d := Absolute(es, streamOffset), FirstDistance(es);
      SameTables(es, BaseOf(es, streamOffset), abs, BaseOf(abs, streamOffset)) <==> Recognised(d, streamOffset)
  {
    var abs, base := Absolute(es, streamOffset), BaseOf(Absolute(es, streamOffset), streamOffset);
    assert abs != [];
    hide *;
    AbsoluteSame(es, BaseOf(es, streamOffset), streamOffset, base);
    TablesAgree(es, BaseOf(es, streamOffset), streamOffset + base);
    AbsoluteDistance(es, streamOffset);
    BaseIsBased(es, streamOffset);
    BaseIsBased(abs, streamOffset);
    BasesAgree(FirstDistance(es), streamOffset);
  }

  lemma BaseIsBased(es: seq<IndexEntry>, streamOffset: nat)
    requires es != []
    ensures BaseOf(es, streamOffset) == Based(FirstDistance(es), streamOffset) && FirstDistance(es) < WORD
  {}

  function Based(distance: nat, streamOffset: nat): nat {
    if streamOffset <= distance then 0 else streamOffset
  }

  lemma BasesAgree(d: nat, streamOffset: nat)
    requires d < WORD && streamOffset < WORD
    ensures Based(d, streamOffset) % WORD == (streamOffset + Based((d + streamOffset) % WORD, streamOffset)) % WORD
       <==> Recognised(d, streamOffset)
  {}

  lemma AbsoluteDistance(es: seq<IndexEntry>, streamOffset: nat)
    requires es != []
    ensures FirstDistance(Absolute(es, streamOffset)) == (FirstDistance(es) + streamOffset) % WORD
  {
    var o := es[0].offset;
    var q, r := (o + streamOffset) / WORD, (o + streamOffset) % WORD;
    assert o + streamOffset - 4 == q * WORD + (r - 4);
    var q', r' := (o - 4) / WORD, (o - 4) % WORD;
    assert o - 4 + streamOffset == q' * WORD + (r' + streamOffset);
  }

  // ---- Reading the chunk

  lemma TableStep(es: seq<IndexEntry>, base: nat, i: nat, k: nat)
    requires k < |es|
    ensures var t := Table(es[..k], base, i);
      && Table(es[..k + 1], base, i) == (if StreamOf(es[k]) == i then t + [PositionOf(es[k], base)] else t)
      && (StreamOf(es[k]) == i ==> |t| < |Table(es, base, i)|)
  {
    TablePrefix(es, base, i, k + 1);
    assert es[..k + 1][..k] == es[..k];
  }

  lemma LargestSizeStep(t: seq<Position>, p: Position, before: nat)
    ensures LargestSize(t + [p], before) == Larger(LargestSize(t, before), p.size)
  {
    assert (t + [p])[..|t|] == t;
  }

  class AviDmuxIndex {
    const streamPosition: array<array<Position>>
    const indexNum: array<nat>
    const maxDataSize: array<nat>

    constructor (validStreamNum: nat)
      ensures Valid() && fresh(streamPosition) && fresh(indexNum) && fresh(maxDataSize)
      ensures streamPosition.Length == validStreamNum && maxDataSize[..] == seq(validStreamNum, _ => 0)
    {
      var none := new Position[0];
      streamPosition := new array<Position>[validStreamNum](_ => none);
      indexNum := new nat[validStreamNum](_ => 0);
      maxDataSize := new nat[validStreamNum](_ => 0);
    }

    ghost predicate Valid()
      reads this
    {
      && streamPosition.Length == indexNum.Length == maxDataSize.Length
      && indexNum != maxDataSize
    }

    /** Every stream's table has room for exactly its entries, and shares its storage with no other. */
    ghost predicate Sized(es: seq<IndexEntry>, base: nat)
      reads streamPosition
    {
      && (forall i | 0 <= i < streamPosition.Length :: streamPosition[i].Length == |Table(es, base, i)|)
      && (forall i, j | 0 <= i < j < streamPosition.Length :: streamPosition[i] != streamPosition[j])
    }

    /** The first `k` entries are in the tables; `fill` says how far each one is filled. */
    ghost predicate Filled(es: seq<IndexEntry>, base: nat, k: nat, fill: array<nat>, sizes: seq<nat>)
      requires Valid() && k <= |es| && fill.Length == |sizes| == streamPosition.Length && Sized(es, base)
      reads this, streamPosition, streamPosition[..], maxDataSize, fill
    {
      forall i | 0 <= i < streamPosition.Length ::
        && fill[i] <= streamPosition[i].Length
        && streamPosition[i][..fill[i]] == Table(es[..k], base, i)
        && maxDataSize[i] == LargestSize(Table(es[..k], base, i), sizes[i])
    }

    /** Puts an entry into the table of its stream, if there is such a stream. */
    method StoreEntry(e: IndexEntry, base: nat, fill: array<nat>,
                      ghost es: seq<IndexEntry>, ghost k: nat, ghost sizes: seq<nat>)
      requires Valid() && k < |es| && es[k] == e
      requires fill != maxDataSize && fill.Length == |sizes| == streamPosition.Length
      requires Sized(es, base) && Filled(es, base, k, fill, sizes)
      modifies streamPosition[..], maxDataSize, fill
      ensures Sized(es, base) && Filled(es, base, k + 1, fill, sizes)
    {
      hide Table, LargestSize, StreamOf, PositionOf;
      var streamIndex := StreamOf(e);
      forall i: nat ensures Table(es[..k + 1], base, i)
        == if StreamOf(e) == i then Table(es[..k], base, i) + [PositionOf(e, base)] else Table(es[..k], base, i)
      {
        TableStep(es, base, i, k);
      }
      if streamIndex < streamPosition.Length {
        ghost var t := Table(es[..k], base, streamIndex);
        TableStep(es, base, streamIndex, k);
        LargestSizeStep(t, PositionOf(e, base), sizes[streamIndex]);
        var position := PositionOf(e, base);
        streamPosition[streamIndex][fill[streamIndex]] := position;
        fill[streamIndex] := fill[streamIndex] + 1;
        if maxDataSize[streamIndex] < position.size {
          maxDataSize[streamIndex] := position.size;
        }
      }
    }

    /** Reads the next entry of the chunk. */
    method ReadData(bfr: UtilBufferedFileReader) returns (ok: bool, e: IndexEntry)
      requires bfr.Valid() && bfr.Aligned() && bfr.open && !bfr.bUnbufferedMode
      modifies bfr, bfr.buffer
      ensures bfr.Valid() && bfr.Aligned() && bfr.open && !bfr.bUnbufferedMode
      ensures ok == (old(bfr.filePos) + ENTRY_SIZE <= |bfr.file|)
      ensures ok ==> bfr.filePos == old(bfr.filePos) + ENTRY_SIZE && e == Parse(bfr.file[old(bfr.filePos)..bfr.filePos])
    {
      var data := new byte[ENTRY_SIZE](_ => 0);
      ghost var before, from := data[..], bfr.filePos;
      var ret := bfr.Read(data, 0, ENTRY_SIZE);
      ok, e := ret == 0, Parse(data[..]);
      assert ok ==> Overwrite(before, 0, ReadBytes(bfr.file, from, ENTRY_SIZE)) == bfr.file[from..bfr.filePos];
    }

    /** Counts an entry for its stream, if there is such a stream. */
    method CountEntry(e: IndexEntry, count: array<nat>, ghost es: seq<IndexEntry>)
      modifies count
      requires forall i | 0 <= i < count.Length :: count[i] == PlaceOf(es, i, |es|)
      ensures forall i | 0 <= i < count.Length :: count[i] == PlaceOf(es + [e], i, |es| + 1)
    {
      forall i: nat ensures PlaceOf(es + [e], i, |es|) == PlaceOf(es, i, |es|) {
        PlacePrefix(es + [e], i, |es|, |es|);
        assert (es + [e])[..|es|] == es;
      }
      var streamIndex := StreamOf(e);
      if streamIndex < count.Length {
        count[streamIndex] := count[streamIndex] + 1;
      }
    }

    /** The first pass: how many entries each stream has, and what their offsets count from. */
    method CountEntries(bfr: UtilBufferedFileReader, streamOffset: nat, end: nat, count: array<nat>)
      returns (ok: bool, base: nat)
      requires bfr.Valid() && bfr.Aligned() && bfr.open && !bfr.bUnbufferedMode
      requires forall i | 0 <= i < count.Length :: count[i] == 0
      modifies bfr, bfr.buffer, count
      ensures bfr.Valid() && bfr.Aligned() && bfr.open && !bfr.bUnbufferedMode
      ensures old(bfr.filePos) <= |bfr.file|
      ensures ok == (old(bfr.filePos) + ENTRY_SIZE * end <= |bfr.file|)
      ensures ok ==> var es := Entries(bfr.file, old(bfr.filePos), end);
        && base == BaseOf(es, streamOffset)
        && forall i | 0 <= i < count.Length :: count[i] == PlaceOf(es, i, end)
    {
      hide PlaceOf, StreamOf, Parse;
      ghost var start := bfr.filePos;
      base, ok := streamOffset, true;
      EmptyPlaces();
      for index := 0 to end
        invariant ok && start + ENTRY_SIZE * index == bfr.filePos <= |bfr.file|
        invariant bfr.Valid() && bfr.Aligned() && bfr.open && !bfr.bUnbufferedMode
        invariant base == BaseOf(Entries(bfr.file, start, index), streamOffset)
        invariant forall i | 0 <= i < count.Length :: count[i] == PlaceOf(Entries(bfr.file, start, index), i, index)
      {
        ghost var es := Entries(bfr.file, start, index);
        var entry;
        ok, entry := ReadData(bfr);
        if !ok { break; }
        CountEntry(entry, count, es);
        if index == 0 && streamOffset <= (entry.offset - 4) % WORD {
          base := 0;
        }
        assert Entries(bfr.file, start, index + 1) == es + [entry];
        assert index > 0 ==> (es + [entry])[0] == es[0];
      }
    }

    lemma EmptyPlaces()
      ensures forall i: nat :: PlaceOf([], i, 0) == 0
    {}

    /** Gives every stream a table of the size counted, and clears the counts for use as fill marks. */
    method AllocateTables(count: array<nat>, ghost es: seq<IndexEntry>, ghost base: nat)
      requires Valid() && count.Length == streamPosition.Length && count != indexNum && count != maxDataSize
      requires forall i | 0 <= i < count.Length :: count[i] == |Table(es, base, i)|
      modifies streamPosition, indexNum, count
      ensures Sized(es, base) && fresh(streamPosition[..])
      ensures forall i | 0 <= i < count.Length :: count[i] == 0 && indexNum[i] == |Table(es, base, i)|
    {
      hide Table;
      for i := 0 to streamPosition.Length
        invariant forall k | 0 <= k < i :: count[k] == 0 && indexNum[k] == |Table(es, base, k)|
        invariant forall k | i <= k < count.Length :: count[k] == |Table(es, base, k)|
        invariant forall k | 0 <= k < i :: fresh(streamPosition[k]) && streamPosition[k].Length == |Table(es, base, k)|
        invariant forall k, l | 0 <= k < l < i :: streamPosition[k] != streamPosition[l]
      {
        streamPosition[i] := new Position[count[i]];
        indexNum[i] := count[i];
        count[i] := 0;
      }
    }

    /** The second pass: fills the tables. */
    method FillTables(bfr: UtilBufferedFileReader, end: nat, base: nat, fill: array<nat>, skipSize: nat,
                      ghost es: seq<IndexEntry>, ghost sizes: seq<nat>) returns (ok: bool, left: nat)
      requires Valid() && fill.Length == |sizes| == streamPosition.Length && fill != maxDataSize
      requires bfr.Valid() && bfr.Aligned() && bfr.open && !bfr.bUnbufferedMode
      requires bfr.filePos + ENTRY_SIZE * end <= |bfr.file| && es == Entries(bfr.file, bfr.filePos, end)
      requires ENTRY_SIZE * end <= skipSize
      requires Sized(es, base) && Filled(es, base, 0, fill, sizes)
      modifies bfr, bfr.buffer, streamPosition[..], maxDataSize, fill
      ensures bfr.Valid() && bfr.Aligned() && bfr.open && !bfr.bUnbufferedMode
      ensures ok && bfr.filePos == old(bfr.filePos) + ENTRY_SIZE * end && left == skipSize - ENTRY_SIZE * end
      ensures Sized(es, base) && Filled(es, base, end, fill, sizes)
    {
      hide Filled, Sized, Parse;
      ghost var start := bfr.filePos;
      ok, left := true, skipSize;
      for index := 0 to end
        invariant ok && start + ENTRY_SIZE * index == bfr.filePos && left == skipSize - ENTRY_SIZE * index
        invariant bfr.Valid() && bfr.Aligned() && bfr.open && !bfr.bUnbufferedMode
        invariant Sized(es, base) && Filled(es, base, index, fill, sizes)
      {
        var entry;
        ok, entry := ReadData(bfr);
        if !ok { break; }
        left := left - ENTRY_SIZE;
        EntriesPrefix(bfr.file, start, index + 1, end);
        StoreEntry(entry, base, fill, es, index, sizes);
      }
    }

    /**
     Builds the tables from the chunk at the reader's position. Fails, leaving every table as it
     was, exactly if the file ends before the chunk does. Otherwise each stream's table is its
     entries in order, and the chunk's whole entries are behind the reader.
     */
    method ReadIdx1Chunk(bfr: UtilBufferedFileReader, streamOffset: nat, skipSize: nat) returns (ok: bool, left: nat)
      requires Valid() && bfr.Valid() && bfr.Aligned() && bfr.open && !bfr.bUnbufferedMode
      modifies bfr, bfr.buffer, streamPosition, indexNum, maxDataSize
      ensures bfr.Valid() && bfr.Aligned() && bfr.open && !bfr.bUnbufferedMode
      ensures var start, end := old(bfr.filePos), skipSize / ENTRY_SIZE;
        && ok == (start + ENTRY_SIZE * end <= |bfr.file|)
        && (!ok ==>
          && left == skipSize && streamPosition[..] == old(streamPosition[..])
          && indexNum[..] == old(indexNum[..]) && maxDataSize[..] == old(maxDataSize[..]))
        && (ok ==>
          var es := Entries(bfr.file, start, end);
          && bfr.filePos == start + ENTRY_SIZE * end && left == skipSize % ENTRY_SIZE
          && forall i | 0 <= i < streamPosition.Length ::
             var t := Table(es, BaseOf(es, streamOffset), i);
             && streamPosition[i][..] == t && indexNum[i] == |t|
             && maxDataSize[i] == LargestSize(t, old(maxDataSize[i])))
    {
      var startPos := bfr.filePos;
      var count := new nat[streamPosition.Length](_ => 0);
      var base;
      ok, base := CountEntries(bfr, streamOffset, skipSize / ENTRY_SIZE, count);
      left := skipSize;
      if ok {
        left := BuildTables(bfr, startPos, skipSize, base, count, maxDataSize[..]);
      }
    }

    /** Allocates the tables that the first pass has counted for and fills them in the second. */
    method BuildTables(bfr: UtilBufferedFileReader, startPos: nat, skipSize: nat, base: nat, count: array<nat>,
                       ghost sizes: seq<nat>) returns (left: nat)
      requires Valid() && bfr.Valid() && bfr.Aligned() && bfr.open && !bfr.bUnbufferedMode
      requires count.Length == streamPosition.Length && count != indexNum && count != maxDataSize
      requires sizes == maxDataSize[..] && startPos + ENTRY_SIZE * (skipSize / ENTRY_SIZE) <= |bfr.file|
      requires var end := skipSize / ENTRY_SIZE;
        forall i | 0 <= i < count.Length :: count[i] == PlaceOf(Entries(bfr.file, startPos, end), i, end)
      modifies bfr, bfr.buffer, streamPosition, indexNum, maxDataSize, count
      ensures bfr.Valid() && bfr.Aligned() && bfr.open && !bfr.bUnbufferedMode
      ensures var end := skipSize / ENTRY_SIZE;
        && bfr.filePos == startPos + ENTRY_SIZE * end && left == skipSize % ENTRY_SIZE
        && forall i | 0 <= i < streamPosition.Length ::
             var t := Table(Entries(bfr.file, startPos, end), base, i);
             && streamPosition[i][..] == t && indexNum[i] == |t|
             && maxDataSize[i] == LargestSize(t, sizes[i])
    {
      hide Table, PlaceOf, LargestSize, Entries;
      var end := skipSize / ENTRY_SIZE;
      ghost var es := Entries(bfr.file, startPos, end);
      forall i: nat ensures |Table(es, base, i)| == PlaceOf(es, i, end) { TableLength(es, base, i); }
      AllocateTables(count, es, base);
      var ret := bfr.Seek(startPos, Set);
      NothingFilled(es, base, count, sizes);
      var ok;
      ok, left := FillTables(bfr, end, base, count, skipSize, es, sizes);
      assert es[..end] == es;
    }

    lemma NothingFilled(es: seq<IndexEntry>, base: nat, fill: array<nat>, sizes: seq<nat>)
      requires Valid() && fill.Length == |sizes| == streamPosition.Length && Sized(es, base)
      requires sizes == maxDataSize[..] && forall i | 0 <= i < fill.Length :: fill[i] == 0
      ensures Filled(es, base, 0, fill, sizes)
    {
      assert es[..0] == [];
    }
  }
}
