/**
 The buffered file reader of util.c against a plain cursor over the file's bytes.
 The file is immutable. The system's read returns as many bytes as are left, up to the count
 asked for, and its seek succeeds on every position within the file.
 */
module BufferedReader {
  import opened Bytes

  // ---- The plain cursor

  function Min(a: nat, b: nat): nat { if a < b then a else b }

  /** Bytes a read of `count` at `pos` gives: cut short by the end of the file. */
  function ReadBytes(file: seq<byte>, pos: nat, count: nat): seq<byte>
    requires pos <= |file|
  {
    file[pos..pos + Min(count, |file| - pos)]
  }

  datatype Whence = Set | End | Cur | Other

  /** Where a seek asks to go; the call is refused outside the file. */
  function SeekTarget(size: nat, pos: nat, offset: int, whence: Whence): int {
    match whence
    case Set => offset
    case End => size + offset
    case Cur => pos + offset
    case Other => -1
  }

  /** What a caller can do; reads are refused in the other mode. */
  datatype Op = Read(count: nat) | Seek(offset: int, whence: Whence) | GetPos | SetMode(unbuffered: bool)
    | UnbufferedRead(count: nat)
  datatype Reply = Bytes(ret: int, bytes: seq<byte>) | Moved(ret: int) | At(pos: int)

  datatype Cursor = Cursor(pos: nat, unbuffered: bool)

  function CursorStep(file: seq<byte>, c: Cursor, op: Op): (r: (Cursor, Reply))
    requires c.pos <= |file|
    ensures r.0.pos <= |file|
  {
    match op
    case Read(count) => if c.unbuffered then (c, Bytes(-1, [])) else CursorRead(file, c, count)
    case UnbufferedRead(count) => if c.unbuffered then CursorRead(file, c, count) else (c, Bytes(-1, []))
    case Seek(offset, whence) =>
      var to := SeekTarget(|file|, c.pos, offset, whence);
      if 0 <= to <= |file| then (c.(pos := to), Moved(0)) else (c, Moved(-1))
    case GetPos => (c, At(c.pos))
    case SetMode(unbuffered) => (c.(unbuffered := unbuffered), Moved(0))
  }

  function CursorRead(file: seq<byte>, c: Cursor, count: nat): (r: (Cursor, Reply))
    requires c.pos <= |file|
    ensures r.0.pos <= |file|
  {
    var bytes := ReadBytes(file, c.pos, count);
    (c.(pos := c.pos + |bytes|), Bytes(if |bytes| == count then 0 else -1, bytes))
  }

  function CursorRun(file: seq<byte>, c: Cursor, ops: seq<Op>): seq<Reply>
    requires c.pos <= |file|
    decreases |ops|
  {
    if ops == [] then []
    else
      var (c', reply) := CursorStep(file, c, ops[0]);
      [reply] + CursorRun(file, c', ops[1..])
  }

  /** The cursor after a run. */
  function CursorEnd(file: seq<byte>, c: Cursor, ops: seq<Op>): (r: Cursor)
    requires c.pos <= |file|
    ensures r.pos <= |file|
    decreases |ops|
  {
    if ops == [] then c else CursorEnd(file, CursorStep(file, c, ops[0]).0, ops[1..])
  }

  // ---- What a run of the cursor answers

  lemma TwoAnswers(file: seq<byte>, c: Cursor, a: Op, b: Op)
    requires c.pos <= |file|
    ensures var (c1, first) := CursorStep(file, c, a);
      CursorRun(file, c, [a, b]) == [first, CursorStep(file, c1, b).1]
  {
    var c1 := CursorStep(file, c, a).0;
    hide CursorStep;
    assert [a, b][1..] == [b] && [b][1..] == [];
    assert CursorRun(file, c1, [b]) == [CursorStep(file, c1, b).1];
  }

  lemma ThreeAnswers(file: seq<byte>, c: Cursor, a: Op, b: Op, d: Op)
    requires c.pos <= |file|
    ensures var (c1, first) := CursorStep(file, c, a);
      var (c2, second) := CursorStep(file, c1, b);
      CursorRun(file, c, [a, b, d]) == [first, second, CursorStep(file, c2, d).1]
  {
    hide CursorStep;
    assert [a, b, d][1..] == [b, d];
    TwoAnswers(file, CursorStep(file, c, a).0, b, d);
  }

  lemma SeekStep(file: seq<byte>, c: Cursor, offset: int, whence: Whence)
    requires c.pos <= |file|
    ensures var to := if whence == Set then offset else if whence == Cur then c.pos + offset else |file| + offset;
      CursorStep(file, c, Seek(offset, whence))
      == if whence != Other && 0 <= to <= |file| then (c.(pos := to), Moved(0)) else (c, Moved(-1))
  {}

  lemma ReadStep(file: seq<byte>, c: Cursor, n: nat, unbuffered: bool)
    requires c.pos <= |file|
    ensures CursorStep(file, c, if unbuffered then UnbufferedRead(n) else Read(n))
      == if c.unbuffered != unbuffered then (c, Bytes(-1, []))
         else if c.pos + n <= |file| then (c.(pos := c.pos + n), Bytes(0, file[c.pos..c.pos + n]))
         else (c.(pos := |file|), Bytes(-1, file[c.pos..]))
  {
    assert c.pos + n > |file| ==> file[c.pos..|file|] == file[c.pos..];
  }

  lemma PosStep(file: seq<byte>, c: Cursor)
    requires c.pos <= |file|
    ensures CursorStep(file, c, GetPos).1 == At(c.pos)
  {}

  /** A seek counts from the start, from the position or from the end; outside the file it is refused and stays. */
  lemma SeekAnswers(file: seq<byte>, c: Cursor, offset: int, whence: Whence)
    requires c.pos <= |file|
    ensures var to := if whence == Set then offset else if whence == Cur then c.pos + offset else |file| + offset;
      CursorRun(file, c, [Seek(offset, whence), GetPos])
      == if whence != Other && 0 <= to <= |file| then [Moved(0), At(to)] else [Moved(-1), At(c.pos)]
  {
    hide *;
    TwoAnswers(file, c, Seek(offset, whence), GetPos);
    SeekStep(file, c, offset, whence);
    PosStep(file, CursorStep(file, c, Seek(offset, whence)).0);
  }

  /** A read, in the mode it is for, gives the bytes from the position on, as far as the file goes, and moves past. */
  lemma ReadAnswers(file: seq<byte>, c: Cursor, n: nat, unbuffered: bool)
    requires c.pos <= |file|
    ensures CursorRun(file, c, [if unbuffered then UnbufferedRead(n) else Read(n), GetPos])
      == if c.unbuffered != unbuffered then [Bytes(-1, []), At(c.pos)]
         else if c.pos + n <= |file| then [Bytes(0, file[c.pos..c.pos + n]), At(c.pos + n)]
         else [Bytes(-1, file[c.pos..]), At(|file|)]
  {
    hide *;
    var read := if unbuffered then UnbufferedRead(n) else Read(n);
    TwoAnswers(file, c, read, GetPos);
    ReadStep(file, c, n, unbuffered);
    PosStep(file, CursorStep(file, c, read).0);
  }

  lemma ReadExact(file: seq<byte>, c: Cursor, n: nat, bytes: seq<byte>)
    requires !c.unbuffered && c.pos + n <= |file| && bytes == file[c.pos..c.pos + n]
    ensures CursorStep(file, c, Read(n)) == (c.(pos := c.pos + n), Bytes(0, bytes))
  {}

  lemma SeekBack(file: seq<byte>, c: Cursor, n: int)
    requires 0 <= n && c.pos + n <= |file|
    ensures CursorStep(file, c.(pos := c.pos + n), Seek(-n, Cur)) == (c, Moved(0))
  {}

  /** A seek back over what was read reads it again. */
  lemma ReadTwice(file: seq<byte>, c: Cursor, n: int, bytes: seq<byte>)
    requires !c.unbuffered && 0 <= n && c.pos + n <= |file| && bytes == file[c.pos..c.pos + n]
    ensures CursorRun(file, c, [Read(n), Seek(-n, Cur), Read(n)]) == [Bytes(0, bytes), Moved(0), Bytes(0, bytes)]
  {
    ReadExact(file, c, n, bytes);
    SeekBack(file, c, n);
    ThreeAnswers(file, c, Read(n), Seek(-n, Cur), Read(n));
    hide *;
  }

  /** A seek from the end reads the last bytes. */
  lemma ReadLast(file: seq<byte>, c: Cursor, n: int)
    requires !c.unbuffered && c.pos <= |file| && 0 <= n <= |file|
    ensures CursorRun(file, c, [Seek(-n, End), Read(n)]) == [Moved(0), Bytes(0, file[|file| - n..|file|])]
  {
    hide *;
    TwoAnswers(file, c, Seek(-n, End), Read(n));
    SeekStep(file, c, -n, End);
    ReadStep(file, c.(pos := |file| - n), n, false);
  }

  /** Whether a switch to unbuffered mode is still without the seek that it needs, after `op`. */
  function StaleAfter(file: seq<byte>, c: Cursor, stale: bool, op: Op): bool
    requires c.pos <= |file|
  {
    match op
    case SetMode(unbuffered) => stale || (unbuffered && !c.unbuffered)
    case Seek(_, _) => stale && CursorStep(file, c, op).1 != Moved(0)
    case _ => stale
  }

  /** A run that seeks after each switch to unbuffered mode, before it reads or switches back. */
  predicate Careful(file: seq<byte>, c: Cursor, stale: bool, ops: seq<Op>)
    requires c.pos <= |file|
    decreases |ops|
  {
    ops != [] ==>
      && (stale ==> !ops[0].UnbufferedRead? && ops[0] != SetMode(false))
      && Careful(file, CursorStep(file, c, ops[0]).0, StaleAfter(file, c, stale, ops[0]), ops[1..])
  }

  /** A buffer after `bytes` are stored in it from index `at` on. */
  function Overwrite(before: seq<byte>, at: nat, bytes: seq<byte>): (after: seq<byte>)
    requires at + |bytes| <= |before|
    ensures |after| == |before|
  {
    before[..at] + bytes + before[at + |bytes|..]
  }

  lemma OverwriteFront(before: seq<byte>, bytes: seq<byte>)
    requires |bytes| <= |before|
    ensures Overwrite(before, 0, bytes)[..|bytes|] == bytes
  {}

  /** A buffer after the file from `a` to `c` is stored in it from index `at` on. */
  function Stored(before: seq<byte>, at: nat, file: seq<byte>, a: nat, c: nat): seq<byte>
    requires a <= c <= |file| && at + (c - a) <= |before|
  {
    Overwrite(before, at, file[a..c])
  }

  /** Storing a stretch of the file in two pieces. */
  lemma StoredMore(before: seq<byte>, at: nat, file: seq<byte>, a: nat, b: nat, c: nat)
    requires a <= b <= c <= |file| && at + (c - a) <= |before|
    ensures |Stored(before, at, file, a, b)| == |before|
    ensures Stored(Stored(before, at, file, a, b), at + (b - a), file, b, c) == Stored(before, at, file, a, c)
  {}

  /** A read that ends with the bytes asked for, or with the file. */
  lemma ReadEnds(before: seq<byte>, at: nat, file: seq<byte>, from: nat, bytes: nat, to: nat)
    requires from <= to <= |file| && to <= from + bytes && (to < from + bytes ==> to == |file|)
    requires at + bytes <= |before|
    ensures |ReadBytes(file, from, bytes)| == to - from
    ensures Stored(before, at, file, from, to) == Overwrite(before, at, ReadBytes(file, from, bytes))
  {}

  // ---- The reader

  const BUFFER_SIZE: nat := 2048

  class UtilBufferedFileReader {
    const file: seq<byte>          // the opened file
    var osPos: nat                 // the system's file offset
    var open: bool                 // fileDesc is valid
    var filePos: nat
    const buffer: array<byte>
    var pBuffer: nat               // index into buffer
    var poolBytes: nat
    var bEof: bool
    var bUnbufferedMode: bool

    /** The buffer holds the bytes before and after the one to be read next; holds whatever the caller does. */
    ghost predicate Valid()
      reads this, buffer
    {
      && buffer.Length == BUFFER_SIZE && pBuffer + poolBytes <= BUFFER_SIZE
      && osPos <= |file| && filePos + poolBytes <= osPos && pBuffer + poolBytes <= osPos
      && (bEof ==> osPos == |file|)
      && (bUnbufferedMode ==> pBuffer == poolBytes == 0)
      && forall k | 0 <= k < pBuffer + poolBytes :: buffer[k] == file[osPos - poolBytes - pBuffer + k]
    }

    /** Where in the file the byte to be read next is. */
    ghost function NextByte(): (r: nat)
      requires Valid()
      ensures filePos <= r <= |file|
      reads this, buffer
    {
      osPos - poolBytes
    }

    /** The byte to be read next is the one at the position. */
    ghost predicate Aligned()
      reads this, buffer
      requires Valid()
    {
      filePos == NextByte()
    }

    constructor (file: seq<byte>)
      ensures Valid() && Aligned() && fresh(buffer)
      ensures this.file == file && filePos == poolBytes == 0 && open && !bUnbufferedMode && !bEof
    {
      this.file := file;
      buffer := new byte[BUFFER_SIZE];
      osPos, filePos, pBuffer, poolBytes := 0, 0, 0, 0;
      open, bEof, bUnbufferedMode := true, false, false;
    }

    /** The system's read. */
    method OsRead(dst: array<byte>, at: nat, count: nat) returns (got: nat)
      requires at + count <= dst.Length && osPos <= |file|
      modifies dst, `osPos
      ensures got == Min(count, |file| - old(osPos)) && osPos == old(osPos) + got
      ensures dst[..] == Overwrite(old(dst[..]), at, file[old(osPos)..osPos])
    {
      got := Min(count, |file| - osPos);
      forall k | 0 <= k < got { dst[at + k] := file[osPos + k]; }
      osPos := osPos + got;
    }

    /** Refills an exhausted buffer from the file. */
    method Refill()
      requires Valid() && open && !bUnbufferedMode
      requires poolBytes == 0 && !bEof
      modifies this, buffer
      ensures Valid() && open && !bUnbufferedMode
      ensures filePos == old(filePos) && NextByte() == old(NextByte()) && (poolBytes > 0 || bEof)
      ensures poolBytes == Min(BUFFER_SIZE, |file| - NextByte())
    {
      var readSize := OsRead(buffer, 0, BUFFER_SIZE);
      poolBytes := readSize;
      pBuffer := 0;
      if readSize <= 0 || poolBytes != BUFFER_SIZE {
        bEof := true;
      }
      assert forall k | 0 <= k < poolBytes :: buffer[k] == buffer[..][k];
    }

    /** Copies pooled bytes to the caller and moves past them. */
    method CopyOut(dst: array<byte>, at: nat, count: nat)
      requires Valid() && open && !bUnbufferedMode
      requires count <= poolBytes && at + count <= dst.Length && dst != buffer
      modifies `filePos, `pBuffer, `poolBytes, dst
      ensures Valid() && filePos == old(filePos) + count && NextByte() == old(NextByte()) + count
      ensures poolBytes == old(poolBytes) - count
      ensures dst[..] == Stored(old(dst[..]), at, file, old(NextByte()), NextByte())
    {
      forall k | 0 <= k < count { dst[at + k] := buffer[pBuffer + k]; }
      filePos := filePos + count;
      pBuffer := pBuffer + count;
      poolBytes := poolBytes - count;
    }

    lemma AtEndOfFile()
      requires Valid() && poolBytes == 0 && bEof
      ensures NextByte() == |file|
    {}

    /** Copies what the buffer holds, refilling it first if it is exhausted; nothing at the end of the file. */
    method ReadSome(dst: array<byte>, at: nat, left: nat) returns (copyBytes: nat)
      requires Valid() && open && !bUnbufferedMode
      requires left > 0 && at + left <= dst.Length && dst != buffer
      modifies this, buffer, dst
      ensures Valid() && open && !bUnbufferedMode
      ensures copyBytes <= left && filePos == old(filePos) + copyBytes && NextByte() == old(NextByte()) + copyBytes
      ensures copyBytes == 0 ==> NextByte() == |file|
      ensures dst[..] == Stored(old(dst[..]), at, file, old(NextByte()), NextByte())
      ensures var pool := old(if poolBytes == 0 && !bEof then Min(BUFFER_SIZE, |file| - NextByte()) else poolBytes);
        copyBytes == Min(left, pool) && poolBytes == pool - copyBytes
    {
      hide Stored;
      if poolBytes == 0 && !bEof {
        Refill();
      }
      if poolBytes == 0 { AtEndOfFile(); }
      copyBytes := if left > poolBytes then poolBytes else left;
      CopyOut(dst, at, copyBytes);
    }

    /** A read from the byte `from` of the file, at position `pos`, has stored `done` bytes so far. */
    ghost predicate HasRead(dst: array<byte>, at: nat, before: seq<byte>, from: nat, pos: nat, done: nat)
      reads this, buffer, dst
    {
      && Valid() && open && !bUnbufferedMode && dst != buffer && dst.Length == |before| && at + done <= |before|
      && filePos == pos + done && NextByte() == from + done && dst[..] == Stored(before, at, file, from, from + done)
    }

    method ReadMore(dst: array<byte>, at: nat, done: nat, left: nat,
                    ghost before: seq<byte>, ghost from: nat, ghost pos: nat) returns (copyBytes: nat)
      requires HasRead(dst, at, before, from, pos, done) && 0 < left <= dst.Length - at - done
      modifies this, buffer, dst
      ensures copyBytes <= left && HasRead(dst, at, before, from, pos, done + copyBytes)
      ensures copyBytes == 0 ==> from + done == |file|
    {
      hide Overwrite, Stored, Valid;
      copyBytes := ReadSome(dst, at + done, left);
      StoredMore(before, at, file, from, from + done, NextByte());
    }

    lemma HasReadNone(dst: array<byte>, at: nat)
      requires Valid() && open && !bUnbufferedMode && dst != buffer && at <= dst.Length
      ensures HasRead(dst, at, dst[..], NextByte(), filePos, 0)
    {}

    /** Copies and refills until the bytes asked for are copied or the file has ended. */
    method ReadOn(dst: array<byte>, at: nat, bytes: nat, ghost before: seq<byte>, ghost from: nat, ghost pos: nat)
      returns (left: nat)
      requires HasRead(dst, at, before, from, pos, 0) && at + bytes <= dst.Length
      modifies this, buffer, dst
      ensures left <= bytes && HasRead(dst, at, before, from, pos, bytes - left)
      ensures left > 0 ==> from + (bytes - left) == |file|
    {
      hide *;
      left := bytes;
      while left > 0
        invariant left <= bytes && HasRead(dst, at, before, from, pos, bytes - left)
      {
        var copyBytes := ReadMore(dst, at, bytes - left, left, before, from, pos);
        if copyBytes == 0 {
          break;
        }
        left := left - copyBytes;
      }
    }

    lemma HasReadAll(dst: array<byte>, at: nat, before: seq<byte>, from: nat, pos: nat, bytes: nat, left: nat)
      requires left <= bytes && HasRead(dst, at, before, from, pos, bytes - left)
      requires at + bytes <= |before| && (left > 0 ==> from + (bytes - left) == |file|)
      ensures from <= |file| && Valid() && open && !bUnbufferedMode
      ensures var got := ReadBytes(file, from, bytes);
        && |got| == bytes - left && filePos == pos + |got| && NextByte() == from + |got|
        && dst[..] == Overwrite(before, at, got)
    {
      ReadEnds(before, at, file, from, bytes, NextByte());
    }

    method Read(dst: array<byte>, at: nat, bytes: nat) returns (ret: int)
      requires Valid() && at + bytes <= dst.Length && dst != buffer
      modifies this, buffer, dst
      ensures Valid() && open == old(open) && bUnbufferedMode == old(bUnbufferedMode)
      ensures !open || bUnbufferedMode ==>
        ret == -1 && filePos == old(filePos) && NextByte() == old(NextByte()) && dst[..] == old(dst[..])
      ensures open && !bUnbufferedMode ==>
        var got := ReadBytes(file, old(NextByte()), bytes);
        && ret == (if |got| == bytes then 0 else -1)
        && filePos == old(filePos) + |got| && NextByte() == old(NextByte()) + |got|
        && dst[..] == Overwrite(old(dst[..]), at, got)
    {
      if !open || bUnbufferedMode {
        return -1;
      }
      HasReadNone(dst, at);
      hide *;
      ghost var before, from, pos := dst[..], NextByte(), filePos;
      var left := ReadOn(dst, at, bytes, before, from, pos);
      ret := if left == 0 then 0 else -1;
      HasReadAll(dst, at, before, from, pos, bytes, left);
    }

    /** A seek to `pos` stays within the buffer. */
    ghost predicate InBuffer(pos: int)
      reads this
    {
      !bUnbufferedMode && filePos <= pos + pBuffer && pos <= filePos + poolBytes
    }

    /** Moves along the buffer, if the position sought is in it. */
    method SeekInBuffer(pos: nat) returns (found: bool)
      requires Valid() && !bUnbufferedMode
      modifies `filePos, `pBuffer, `poolBytes, `bEof
      ensures Valid() && found == old(InBuffer(pos))
      ensures filePos == if found then pos else old(filePos)
      ensures NextByte() == if found then old(NextByte()) + (pos - old(filePos)) else old(NextByte())
    {
      found := true;
      if pos == filePos {
      } else if pos < filePos && pBuffer >= filePos - pos {
        var bytes := filePos - pos;
        filePos := filePos - bytes;
        pBuffer := pBuffer - bytes;
        poolBytes := poolBytes + bytes;
        bEof := false;
      } else if pos > filePos && poolBytes >= pos - filePos {
        var bytes := pos - filePos;
        filePos := filePos + bytes;
        pBuffer := pBuffer + bytes;
        poolBytes := poolBytes - bytes;
        bEof := false;
      } else {
        found := false;
      }
    }

    /** A seek within the buffer moves along with it; any other makes the next byte the one sought. */
    method Seek(offset: int, whence: Whence) returns (ret: int)
      requires Valid()
      modifies this
      ensures Valid() && open == old(open) && bUnbufferedMode == old(bUnbufferedMode)
      ensures var to :=
                if whence == Set then offset else if whence == Cur then old(filePos) + offset else |file| + offset;
              if open && whence != Other && 0 <= to <= |file| then
                && ret == 0 && filePos == to
                && NextByte() == if old(InBuffer(to)) then old(NextByte()) + (to - old(filePos)) else to
              else
                ret == -1 && filePos == old(filePos) && NextByte() == old(NextByte())
    {
      if !open || whence == Other {
        return -1;
      }
      var pos := match whence case Set => offset case End => |file| + offset case Cur => filePos + offset;
      if pos < 0 || pos > |file| {
        return -1;
      }
      ret := 0;
      var bFileSeek := bUnbufferedMode;
      if !bFileSeek {
        var found := SeekInBuffer(pos);
        bFileSeek := !found;
      }
      if bFileSeek {
        osPos := pos;
        bEof := false;
        filePos := pos;
        pBuffer := 0;
        poolBytes := 0;
      }
    }

    /** A change of mode keeps the position, but skips the bytes that were pooled. */
    method SetUnbufferedMode(mode: bool) returns (ret: int)
      requires Valid()
      modifies this
      ensures Valid() && ret == 0 && bUnbufferedMode == mode
      ensures open == old(open) && filePos == old(filePos)
      ensures NextByte() == old(NextByte()) + if old(bUnbufferedMode) == mode then 0 else old(poolBytes)
    {
      if bUnbufferedMode != mode {
        pBuffer := 0;
        poolBytes := 0;
        bUnbufferedMode := mode;
      }
      ret := 0;
    }

    method UnbufferedRead(dst: array<byte>, at: nat, bytes: nat) returns (ret: int)
      requires Valid() && at + bytes <= dst.Length && dst != buffer
      modifies this, dst
      ensures Valid() && open == old(open) && bUnbufferedMode == old(bUnbufferedMode)
      ensures !open || !bUnbufferedMode ==>
        ret == -1 && filePos == old(filePos) && NextByte() == old(NextByte()) && dst[..] == old(dst[..])
      ensures open && bUnbufferedMode ==>
        var got := ReadBytes(file, old(NextByte()), bytes);
        && ret == (if |got| == bytes then 0 else -1)
        && filePos == old(filePos) + |got| && NextByte() == old(NextByte()) + |got|
        && dst[..] == Overwrite(old(dst[..]), at, got)
    {
      if !open || poolBytes != 0 || !bUnbufferedMode {
        return -1;
      }
      if bytes == 0 {
        return 0;
      }
      var readSize := OsRead(dst, at, bytes);
      if readSize <= 0 {
        return -1;
      }
      filePos := filePos + readSize;
      ret := if readSize == bytes then 0 else -1;
    }

    // ---- Switching to unbuffered mode without a seek

    /** What a switch to unbuffered mode and then a read of `count` bytes give. */
    ghost function SwitchedRead(count: nat): seq<byte>
      requires Valid()
      reads this, buffer
    {
      ReadBytes(file, NextByte() + poolBytes, count)
    }

    method SwitchThenRead(count: nat) returns (bytes: seq<byte>)
      requires Valid() && open && !bUnbufferedMode
      modifies this
      ensures Valid() && bytes == old(SwitchedRead(count))
    {
      var dst := new byte[count];
      ghost var before, from := dst[..], filePos;
      var ret := SetUnbufferedMode(true);
      ghost var got := ReadBytes(file, NextByte(), count);
      var start := filePos;
      ret := UnbufferedRead(dst, 0, count);
      OverwriteFront(before, got);
      bytes := dst[..filePos - start];
    }

    /** Such a read gives the bytes at the position, for every count, exactly if nothing was pooled. */
    lemma SwitchWithoutSeek()
      requires Valid() && Aligned()
      ensures (forall count: nat :: SwitchedRead(count) == ReadBytes(file, filePos, count)) <==> poolBytes == 0
    {
      var rest := |file| - filePos;
      assert |SwitchedRead(rest)| == rest - poolBytes && |ReadBytes(file, filePos, rest)| == rest;
    }
  }

  // ---- Runs

  /** A read, to a buffer of its own. */
  method ReadBuffered(r: UtilBufferedFileReader, count: nat) returns (ret: int, bytes: seq<byte>)
    requires r.Valid() && r.open
    modifies r, r.buffer
    ensures r.Valid() && r.open && r.bUnbufferedMode == old(r.bUnbufferedMode)
    ensures bytes == if !r.bUnbufferedMode then ReadBytes(r.file, old(r.NextByte()), count) else []
    ensures r.filePos == old(r.filePos) + |bytes| && r.NextByte() == old(r.NextByte()) + |bytes|
    ensures ret == if !r.bUnbufferedMode && |bytes| == count then 0 else -1
  {
    var dst := new byte[count];
    ghost var before, got := dst[..], ReadBytes(r.file, r.NextByte(), count);
    var from := r.filePos;
    ret := r.Read(dst, 0, count);
    OverwriteFront(before, got);
    hide Overwrite, ReadBytes;
    bytes := dst[..];
    bytes := bytes[..r.filePos - from];
  }

  /** An unbuffered read, to a buffer of its own. */
  method ReadUnbuffered(r: UtilBufferedFileReader, count: nat) returns (ret: int, bytes: seq<byte>)
    requires r.Valid() && r.open
    modifies r
    ensures r.Valid() && r.open && r.bUnbufferedMode == old(r.bUnbufferedMode)
    ensures bytes == if r.bUnbufferedMode then ReadBytes(r.file, old(r.NextByte()), count) else []
    ensures r.filePos == old(r.filePos) + |bytes| && r.NextByte() == old(r.NextByte()) + |bytes|
    ensures ret == if r.bUnbufferedMode && |bytes| == count then 0 else -1
  {
    var dst := new byte[count];
    ghost var before, got := dst[..], ReadBytes(r.file, r.NextByte(), count);
    var from := r.filePos;
    ret := r.UnbufferedRead(dst, 0, count);
    OverwriteFront(before, got);
    hide Overwrite, ReadBytes;
    bytes := dst[..];
    bytes := bytes[..r.filePos - from];
  }

  /** One operation, as its caller sees it: a cursor's, unless it reads while a switch still waits for its seek. */
  method Perform(r: UtilBufferedFileReader, op: Op, ghost stale: bool) returns (reply: Reply)
    requires r.Valid() && r.open && (stale ==> r.bUnbufferedMode) && (!stale ==> r.Aligned())
    requires stale ==> !op.UnbufferedRead? && op != SetMode(false)
    modifies r, r.buffer
    ensures r.Valid() && r.open && old(r.filePos) <= |r.file|
    ensures var c := Cursor(old(r.filePos), old(r.bUnbufferedMode));
      && (Cursor(r.filePos, r.bUnbufferedMode), reply) == CursorStep(r.file, c, op)
      && (StaleAfter(r.file, c, stale, op) ==> r.bUnbufferedMode)
      && (!StaleAfter(r.file, c, stale, op) ==> r.Aligned())
  {
    match op
    case Read(count) =>
      var ret, bytes := ReadBuffered(r, count);
      reply := Bytes(ret, bytes);
    case UnbufferedRead(count) =>
      var ret, bytes := ReadUnbuffered(r, count);
      reply := Bytes(ret, bytes);
    case Seek(offset, whence) =>
      var ret := r.Seek(offset, whence);
      reply := Moved(ret);
    case GetPos =>
      reply := At(r.filePos);
    case SetMode(unbuffered) =>
      var ret := r.SetUnbufferedMode(unbuffered);
      reply := Moved(ret);
  }

  /**
   Every run of reads, seeks, position queries and mode switches answers as a plain cursor does, if
   it seeks after each switch to unbuffered mode.
   */
  method PerformAll(r: UtilBufferedFileReader, ops: seq<Op>) returns (replies: seq<Reply>)
    requires r.Valid() && r.open && r.Aligned()
    requires Careful(r.file, Cursor(r.filePos, r.bUnbufferedMode), false, ops)
    modifies r, r.buffer
    ensures r.Valid() && old(r.filePos) <= |r.file|
    ensures var c := Cursor(old(r.filePos), old(r.bUnbufferedMode));
      replies == CursorRun(r.file, c, ops) && Cursor(r.filePos, r.bUnbufferedMode) == CursorEnd(r.file, c, ops)
  {
    replies := [];
    ghost var start := Cursor(r.filePos, r.bUnbufferedMode);
    ghost var stale := false;
    for i := 0 to |ops|
      invariant r.Valid() && r.open && start.pos <= |r.file| && r.filePos <= |r.file|
      invariant (stale ==> r.bUnbufferedMode) && (!stale ==> r.Aligned())
      invariant Careful(r.file, Cursor(r.filePos, r.bUnbufferedMode), stale, ops[i..])
      invariant CursorRun(r.file, start, ops)
        == replies + CursorRun(r.file, Cursor(r.filePos, r.bUnbufferedMode), ops[i..])
      invariant CursorEnd(r.file, start, ops) == CursorEnd(r.file, Cursor(r.filePos, r.bUnbufferedMode), ops[i..])
    {
      ghost var c := Cursor(r.filePos, r.bUnbufferedMode);
      assert ops[i..][0] == ops[i] && ops[i..][1..] == ops[i + 1..];
      var reply := Perform(r, ops[i], stale);
      stale := StaleAfter(r.file, c, stale, ops[i]);
      replies := replies + [reply];
    }
  }
}
