/**
 The block of memory that a stream's AU buffers share: buffer `au` starts `au` strides into it,
 and nothing keeps an AU longer than a stride from running into the next one.
 */
module AuStore {
  import opened Bytes

  /** Where buffer `au` starts. */
  function Slot(stride: nat, au: nat): nat {
    if au == 0 then 0 else Slot(stride, au - 1) + stride
  }

  lemma {:induction false} SlotAddress(stride: nat, au: nat)
    ensures Slot(stride, au) == au * stride
  {
    if au > 0 {
      SlotAddress(stride, au - 1);
      assert (au - 1) * stride + stride == au * stride;
    }
  }

  lemma {:induction false} SlotApart(stride: nat, a: nat, b: nat)
    requires a < b
    ensures Slot(stride, a) + stride <= Slot(stride, b)
  {
    if a + 1 < b { SlotApart(stride, a, b - 1); }
  }

  /** Memory after `data` is copied to address `at`. */
  function Copied(bytes: seq<byte>, at: nat, data: seq<byte>): (r: seq<byte>)
    requires at + |data| <= |bytes|
    ensures |r| == |bytes|
    ensures forall k | 0 <= k < |r| :: r[k] == if at <= k < at + |data| then data[k - at] else bytes[k]
  {
    bytes[..at] + data + bytes[at + |data|..]
  }

  /** The block, and the size recorded for what each buffer holds. */
  datatype Store = Store(bytes: seq<byte>, sizes: seq<nat>, stride: nat) {

    predicate Valid() { |bytes| == Slot(stride, |sizes|) }

    /** A copy of `size` bytes to buffer `au` stays inside the block. */
    predicate Room(au: nat, size: nat) {
      au < |sizes| && Slot(stride, au) + size <= |bytes|
    }

    /** What a reader of buffer `au` finds. */
    function At(au: nat): seq<byte> {
      if au < |sizes| && Slot(stride, au) + sizes[au] <= |bytes|
      then bytes[Slot(stride, au)..Slot(stride, au) + sizes[au]] else []
    }

    function Put(au: nat, data: seq<byte>): Store
      requires Room(au, |data|)
    {
      Store(Copied(bytes, Slot(stride, au), data), sizes[au := |data|], stride)
    }

    /** No buffer holds more than a stride. */
    predicate Snug() { forall i | 0 <= i < |sizes| :: sizes[i] <= stride }
  }

  lemma SlotsInside(s: Store, au: nat)
    requires s.Valid() && au < |s.sizes|
    ensures Slot(s.stride, au) + s.stride <= |s.bytes|
  {
    SlotApart(s.stride, au, |s.sizes|);
  }

  lemma PutValid(s: Store, au: nat, data: seq<byte>)
    requires s.Valid() && s.Room(au, |data|)
    ensures s.Put(au, data).Valid() && |s.Put(au, data).sizes| == |s.sizes| && s.Put(au, data).stride == s.stride
    ensures s.Snug() && |data| <= s.stride ==> s.Put(au, data).Snug()
  {}

  lemma PutOwn(s: Store, au: nat, data: seq<byte>)
    requires s.Room(au, |data|)
    ensures s.Put(au, data).At(au) == data
  {}

  /** An AU of at most a stride disturbs no other buffer that holds no more than a stride. */
  lemma PutOther(s: Store, au: nat, data: seq<byte>, other: nat)
    requires s.Room(au, |data|) && other != au
    requires |data| <= s.stride && (other < |s.sizes| ==> s.sizes[other] <= s.stride)
    ensures s.Put(au, data).At(other) == s.At(other)
  {
    hide Slot;
    if au < other { SlotApart(s.stride, au, other); } else { SlotApart(s.stride, other, au); }
  }

  /** The bytes of `was` that lie behind the first `stride` are those of `data`, as far as both go. */
  ghost predicate Agrees(was: seq<byte>, stride: nat, data: seq<byte>) {
    forall k: nat | k < |data| && stride + k < |was| :: was[stride + k] == data[k]
  }

  /** The bytes of an AU after the next buffer has been filled. */
  lemma PutNextByte(s: Store, au: nat, data: seq<byte>, j: nat)
    requires s.Room(au + 1, |data|) && s.Room(au, s.sizes[au]) && j < s.sizes[au]
    ensures |s.Put(au + 1, data).At(au)| == |s.At(au)| == s.sizes[au]
    ensures s.Put(au + 1, data).At(au)[j]
         == if s.stride <= j < s.stride + |data| then data[j - s.stride] else s.At(au)[j]
  {
    assert Slot(s.stride, au + 1) == Slot(s.stride, au) + s.stride;
    hide Slot;
  }

  /**
   An AU longer than a stride runs into the next buffer: once that is filled, the AU reads back as
   it was exactly if the bytes stored there happen to be the ones they replace.
   */
  lemma PutNext(s: Store, au: nat, data: seq<byte>)
    requires s.Room(au + 1, |data|) && s.Room(au, s.sizes[au])
    ensures |s.At(au)| == s.sizes[au]
    ensures s.Put(au + 1, data).At(au) == s.At(au) <==> Agrees(s.At(au), s.stride, data)
  {
    var was, now := s.At(au), s.Put(au + 1, data).At(au);
    assert |was| == s.sizes[au] && |now| == s.sizes[au];
    forall j: nat | j < s.sizes[au]
      ensures now[j] == if s.stride <= j < s.stride + |data| then data[j - s.stride] else was[j]
    {
      PutNextByte(s, au, data, j);
    }
    hide *;
    SpliceAgrees(was, now, s.stride, data);
  }

  lemma SpliceAgrees(was: seq<byte>, now: seq<byte>, stride: nat, data: seq<byte>)
    requires |now| == |was|
    requires forall j: nat | j < |was| :: now[j] == if stride <= j < stride + |data| then data[j - stride] else was[j]
    ensures now == was <==> Agrees(was, stride, data)
  {
    if now == was {
      forall k: nat | k < |data| && stride + k < |was| ensures was[stride + k] == data[k] {
        assert now[stride + k] == data[stride + k - stride];
      }
    } else {
      var j: nat :| j < |was| && now[j] != was[j];
      assert was[stride + (j - stride)] != data[j - stride];
    }
  }
}
