/** Streams of the two audio formats: what comes out of them, and the buffers they need. */
module AudioStreams {
  import opened Bytes
  import opened Results
  import opened Framing
  import opened Chunking
  import opened Resuming
  import opened ParseBuffer
  import opened AuLength

  /** An AC-3 frame: sync word, and the length that its fscod and frmsizecod say. */
  predicate Ac3Frame(frame: seq<byte>) {
    && |frame| > 4 && frame[0] == 0x0B && frame[1] == 0x77
    && |frame| == Ac3AuLength(frame[4] / 64, frame[4] % 64)
  }

  /** An MPEG audio frame: sync word, and the length that its id, layer, bit rate, frequency and padding say. */
  predicate MpegFrame(frame: seq<byte>) {
    && |frame| > 4 && frame[0] == 0xFF && frame[1] >= 0xF0
    && |frame| == MpegAuLength((frame[1] / 8) % 2, (frame[1] / 2) % 4, frame[2] / 16, (frame[2] / 4) % 4)
                  + (frame[2] / 2) % 2
  }

  lemma Ac3WellFormed(frame: seq<byte>)
    ensures WellFormed(AC3, frame) <==> Ac3Frame(frame)
  {
    hide Ac3AuLength;
  }

  lemma MpegWellFormed(frame: seq<byte>)
    ensures WellFormed(MPEG, frame) <==> MpegFrame(frame)
  {
    hide MpegAuLength;
  }

  // ---- Chunk boundaries

  /**
   However an AC-3 stream of two frames or more is cut into chunks, if these stay inside the
   parse buffer the parser emits exactly its frames. They do if maxDataSize is at least 3844.
   */
  lemma Ac3FramesSurvive(maxDataSize: nat, frames: seq<seq<byte>>, chunks: seq<seq<byte>>)
    requires |frames| > 1 && (forall fr <- frames :: Ac3Frame(fr)) && Flatten(chunks) == Flatten(frames)
    requires AtMost(chunks, maxDataSize)
    ensures Good(AC3) && (3844 <= maxDataSize ==> FeedIn(AC3, maxDataSize, [], true, chunks).Some?)
    ensures FeedIn(AC3, maxDataSize, [], true, chunks).Some? ==>
      var o := FeedIn(AC3, maxDataSize, [], true, chunks).value; o.aus == frames && o.window == []
  {
    Ac3Good();
    forall fr <- frames ensures WellFormed(AC3, fr) { Ac3WellFormed(fr); }
    hide Ac3AuLength, WellFormed, FeedIn, AtMost;
    FramesSurvive(AC3, maxDataSize, frames, chunks);
  }

  /** The same for MPEG audio, where 2307 is enough. */
  lemma MpegFramesSurvive(maxDataSize: nat, frames: seq<seq<byte>>, chunks: seq<seq<byte>>)
    requires |frames| > 1 && (forall fr <- frames :: MpegFrame(fr)) && Flatten(chunks) == Flatten(frames)
    requires AtMost(chunks, maxDataSize)
    ensures Good(MPEG) && (2307 <= maxDataSize ==> FeedIn(MPEG, maxDataSize, [], true, chunks).Some?)
    ensures FeedIn(MPEG, maxDataSize, [], true, chunks).Some? ==>
      var o := FeedIn(MPEG, maxDataSize, [], true, chunks).value; o.aus == frames && o.window == []
  {
    MpegGood();
    forall fr <- frames ensures WellFormed(MPEG, fr) { MpegWellFormed(fr); }
    hide MpegAuLength, WellFormed, FeedIn, AtMost;
    FramesSurvive(MPEG, maxDataSize, frames, chunks);
  }

  // ---- The parse buffer

  /** A frame of the longest AC-3 kind. */
  function LongestAc3(): (frame: seq<byte>)
    ensures Ac3Frame(frame) && |frame| == 3840
  {
    [0x0B, 0x77, 0, 0, 165] + Zeros(3835)
  }

  /** A frame of the longest MPEG kind: the longest length, with padding. */
  function LongestMpeg(): (frame: seq<byte>)
    ensures MpegFrame(frame) && |frame| == 2305
  {
    [0xFF, 0xF6, 0xEA] + Zeros(2302)
  }

  /** For AC-3, chunks fit behind the window for every stream from maxDataSize 3841 on, header reads from 3844 on. */
  lemma Ac3Buffer(maxDataSize: nat)
    ensures Good(AC3)
    ensures (forall chunks | AtMost(chunks, maxDataSize) :: WritesFit(AC3, maxDataSize, [], true, chunks))
       <==> maxDataSize == 0 || 3841 <= maxDataSize
    ensures (forall chunks | AtMost(chunks, maxDataSize) :: FeedIn(AC3, maxDataSize, [], true, chunks).Some?)
       <==> maxDataSize == 0 || 3844 <= maxDataSize
  {
    Ac3Good();
    var frame := LongestAc3();
    Ac3WellFormed(frame);
    assert ZeroQuiet(AC3) && OneSync(AC3, frame);
    hide WellFormed, FeedIn, WritesFit, AtMost, ZeroQuiet, OneSync;
    WritesFitIff(AC3, maxDataSize, frame);
    AccessesFitIff(AC3, maxDataSize, frame);
  }

  /** For MPEG, from 2306 and 2307 on. */
  lemma MpegBuffer(maxDataSize: nat)
    ensures Good(MPEG)
    ensures (forall chunks | AtMost(chunks, maxDataSize) :: WritesFit(MPEG, maxDataSize, [], true, chunks))
       <==> maxDataSize == 0 || 2306 <= maxDataSize
    ensures (forall chunks | AtMost(chunks, maxDataSize) :: FeedIn(MPEG, maxDataSize, [], true, chunks).Some?)
       <==> maxDataSize == 0 || 2307 <= maxDataSize
  {
    MpegGood();
    var frame := LongestMpeg();
    MpegWellFormed(frame);
    assert ZeroQuiet(MPEG) && OneSync(MPEG, frame);
    hide WellFormed, FeedIn, WritesFit, AtMost, ZeroQuiet, OneSync;
    WritesFitIff(MPEG, maxDataSize, frame);
    AccessesFitIff(MPEG, maxDataSize, frame);
  }

  // ---- The AU buffers

  /** AU buffers of AC-3 streams hold 3840 bytes: enough for every AU of every stream. */
  lemma Ac3AusFit(chunks: seq<seq<byte>>)
    ensures Good(AC3) && forall au <- Total(AC3, chunks) :: |au| <= 3840
  {
    Ac3Good();
    FeedWellFormed(AC3, [], true, chunks);
  }

  /** The header of the one family of MPEG frames that are longer than 2048 bytes. */
  predicate LongHeader(frame: seq<byte>) {
    && |frame| > 2
    && (frame[1] / 8) % 2 == 0 && (frame[1] / 2) % 4 == 3 && frame[2] / 16 == 14 && (frame[2] / 4) % 4 >= 2
  }

  /** AU buffers of MPEG streams hold 2048 bytes: enough for a stream's AUs exactly if none has such a header. */
  lemma MpegAusFit(chunks: seq<seq<byte>>)
    ensures Good(MPEG) && (forall au <- Total(MPEG, chunks) :: MpegFrame(au))
    ensures (forall au <- Total(MPEG, chunks) :: |au| <= 2048)
       <==> (forall au <- Total(MPEG, chunks) :: !LongHeader(au))
  {
    MpegGood();
    FeedWellFormed(MPEG, [], true, chunks);
    forall au <- Total(MPEG, chunks) ensures MpegFrame(au) && (|au| <= 2048 <==> !LongHeader(au)) {
      MpegWellFormed(au);
      MpegFrameFits(au);
    }
  }

  lemma MpegFrameFits(frame: seq<byte>)
    requires MpegFrame(frame)
    ensures |frame| <= 2048 <==> !LongHeader(frame)
  {
    MpegFitsAuBuffer((frame[1] / 8) % 2, (frame[1] / 2) % 4, frame[2] / 16, (frame[2] / 4) % 4, (frame[2] / 2) % 2);
  }
}
