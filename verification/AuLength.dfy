/** AU lengths announced by MPEG audio and AC-3 headers, and the two framings built on them. */
module AuLength {
  import opened Bytes
  import opened Framing

  // ---- MPEG audio

  // Columns: MPEG-2 layers II and III, MPEG-2 layer I, MPEG-1 layers III, II and I.
  const MPEG_BITRATE: seq<seq<nat>> := [
    [2, 2, 2, 2, 2], [8, 32, 32, 32, 32], [16, 48, 40, 48, 64], [24, 56, 48, 56, 96],
    [32, 64, 56, 64, 128], [40, 80, 64, 80, 160], [48, 96, 80, 96, 192], [56, 112, 96, 112, 224],
    [64, 128, 112, 128, 256], [80, 144, 128, 160, 288], [96, 160, 160, 192, 320], [112, 176, 192, 224, 352],
    [128, 192, 224, 256, 384], [144, 224, 256, 320, 416], [160, 256, 320, 384, 448], [2, 2, 2, 2, 2]
  ]

  // AU bytes per kbit/s, times 10000: MPEG-2 at 22.05, 24 and 16 kHz, MPEG-1 at 44.1, 48 and 32 kHz.
  const MPEG_SCALE: seq<nat> := [65306, 60000, 90000, 32653, 30000, 45000]

  function MpegAuLength(id: nat, layer: nat, bitrate: nat, fs: nat): (r: nat)
    requires id < 2 && layer < 4 && bitrate < 16 && fs < 4
    ensures 6 <= r <= 2304
  {
    MpegLookup(bitrate, MpegColumn(id, layer), (if fs > 2 then 2 else fs) + id * 3)
  }

  function MpegColumn(id: nat, layer: nat): (column: nat)
    requires id < 2 && layer < 4
    ensures column < 5
  {
    if id == 1 then layer + 1 else if layer < 3 then 0 else 1
  }

  function MpegLookup(bitrate: nat, column: nat, scale: nat): (r: nat)
    requires bitrate < 16 && column < 5 && scale < 6
  {
    MPEG_BITRATE[bitrate][column] * MPEG_SCALE[scale] / 10000
  }

  const MPEG: Format := Framed(
    (b0: byte, b1: byte) => b0 == 0xFF && b1 >= 0xF0,
    (h1: byte, h2: byte, h4: byte) =>
      MpegAuLength((h1 / 8) % 2, (h1 / 2) % 4, h2 / 16, (h2 / 4) % 4) + (h2 / 2) % 2,
    2, 2305)

  lemma MpegGood()
    ensures Good(MPEG)
  {}

  /** The AU buffers of MPEG streams hold 2048 bytes: enough for every header but one family. */
  lemma MpegFitsAuBuffer(id: nat, layer: nat, bitrate: nat, fs: nat, padding: nat)
    requires id < 2 && layer < 4 && bitrate < 16 && fs < 4 && padding < 2
    ensures MpegAuLength(id, layer, bitrate, fs) + padding <= 2048
       <==> !(id == 0 && layer == 3 && bitrate == 14 && fs >= 2)
  {}

  // ---- MPEG audio, from the nominal rates

  /** Sampling frequency; the reserved value is taken for the third. MPEG-2 has half the frequencies of MPEG-1. */
  function MpegHz(id: nat, fs: nat): (hz: nat)
    ensures hz > 0
  {
    (if fs == 0 then 44100 else if fs == 1 then 48000 else 32000) / if id == 1 then 1 else 2
  }

  /** Bit rates in kbit/s of MPEG-1 Layer III: from 32 in steps of 8, doubling every four indices. */
  function LayerThreeRate(index: nat): nat {
    if index < 5 then 24 + 8 * index else 2 * LayerThreeRate(index - 4)
  }

  /** Of MPEG-1 Layer II: those of Layer III from the second step on, and 32. */
  function LayerTwoRate(index: nat): nat {
    if index == 1 then 32 else LayerThreeRate(index + 1)
  }

  /** Of MPEG-2 Layers II and III: in steps of 8 up to 64, then of 16. */
  function LowRate(index: nat): nat {
    if index < 9 then 8 * index else 16 * (index - 4)
  }

  /** Of MPEG-2 Layer I: 32, then from 48 in steps of 8 up to 64, of 16 up to 192, and of 32. */
  function LowLayerOneRate(index: nat): nat {
    if index == 1 then 32
    else if index < 4 then 32 + 8 * index
    else if index < 13 then 16 * index
    else 32 * (index - 6)
  }

  /** Bit rate of the header field; layer 3 is Layer I, 2 is II and 1 is III. Free and forbidden rates count as 2. */
  function MpegKbps(id: nat, layer: nat, index: nat): nat {
    if index == 0 || index >= 15 then 2
    else if id == 1 then
      if layer == 3 then 32 * index else if layer == 2 then LayerTwoRate(index)
      else if layer == 1 then LayerThreeRate(index) else LowLayerOneRate(index)
    else if layer == 3 then LowLayerOneRate(index) else LowRate(index)
  }

  /** Bytes of 1152 samples at that rate. */
  function MpegNominal(id: nat, layer: nat, bitrate: nat, fs: nat): nat {
    144000 * MpegKbps(id, layer, bitrate) / MpegHz(id, fs)
  }

  lemma LayerThreeRates()
    ensures LayerThreeRate(1) == 32 && LayerThreeRate(2) == 40 && LayerThreeRate(3) == 48 && LayerThreeRate(4) == 56
    ensures LayerThreeRate(5) == 64 && LayerThreeRate(6) == 80 && LayerThreeRate(7) == 96 && LayerThreeRate(8) == 112
    ensures LayerThreeRate(9) == 128 && LayerThreeRate(10) == 160 && LayerThreeRate(11) == 192
    ensures LayerThreeRate(12) == 224 && LayerThreeRate(13) == 256 && LayerThreeRate(14) == 320
    ensures LayerThreeRate(15) == 384
  {}

  lemma LowRates(bitrate: nat)
    requires bitrate < 16
    ensures MPEG_BITRATE[bitrate][0] == if 0 < bitrate < 15 then LowRate(bitrate) else 2
  {}

  lemma LowLayerOneRates(bitrate: nat)
    requires bitrate < 16
    ensures MPEG_BITRATE[bitrate][1] == if 0 < bitrate < 15 then LowLayerOneRate(bitrate) else 2
  {}

  lemma LayerThreeColumn(bitrate: nat)
    requires bitrate < 16
    ensures MPEG_BITRATE[bitrate][2] == if 0 < bitrate < 15 then LayerThreeRate(bitrate) else 2
  {
    LayerThreeRates();
    hide LayerThreeRate;
  }

  lemma LayerTwoColumn(bitrate: nat)
    requires bitrate < 16
    ensures MPEG_BITRATE[bitrate][3] == if 0 < bitrate < 15 then LayerTwoRate(bitrate) else 2
  {
    LayerThreeRates();
    hide LayerThreeRate;
  }

  lemma LayerOneColumn(bitrate: nat)
    requires bitrate < 16
    ensures MPEG_BITRATE[bitrate][4] == if 0 < bitrate < 15 then 32 * bitrate else 2
  {}

  /** No rate in the table is a multiple of 49. */
  lemma RatesCoarse(bitrate: nat, column: nat)
    requires bitrate < 16 && column < 5
    ensures 0 < MPEG_BITRATE[bitrate][column] <= 448 && MPEG_BITRATE[bitrate][column] % 49 != 0
  {}

  lemma RateInTable(id: nat, layer: nat, bitrate: nat)
    requires id < 2 && layer < 4 && bitrate < 16
    ensures MPEG_BITRATE[bitrate][MpegColumn(id, layer)] == MpegKbps(id, layer, bitrate)
  {
    hide LowRate, LowLayerOneRate, LayerTwoRate, LayerThreeRate;
    match MpegColumn(id, layer)
    case 0 => LowRates(bitrate);
    case 1 => LowLayerOneRates(bitrate);
    case 2 => LayerThreeColumn(bitrate);
    case 3 => LayerTwoColumn(bitrate);
    case _ => LayerOneColumn(bitrate);
  }

  lemma NoMultiple(s: nat)
    requires 0 < s < 49
    ensures 320 * s % 49 != 0
  {}

  /** 144000 / 22050 is 320 / 49: what is left of the division is at least a 49th, more than the rounding loses. */
  lemma RestOf49(kbps: nat)
    requires kbps % 49 != 0
    ensures 320 * kbps % 49 != 0
  {
    var m, s := kbps / 49, kbps % 49;
    NoMultiple(s);
    assert 320 * kbps == 49 * (320 * m) + 320 * s;
  }

  lemma Ordered(d: nat, a: int, b: int)
    ensures a <= b ==> d * a <= d * b
  {}

  lemma QuotientIs(x: nat, d: nat, q: nat, rest: nat)
    requires x == d * q + rest && rest < d
    ensures x / d == q
  {
    Ordered(d, x / d + 1, q);
    Ordered(d, q + 1, x / d);
  }

  lemma ScaleAt22050(kbps: nat, q: nat, r: nat)
    requires 0 < kbps <= 448 && 320 * kbps == 49 * q + r && 0 < r < 49
    ensures kbps * 65306 / 10000 == 144000 * kbps / 22050
  {
    QuotientIs(144000 * kbps, 22050, q, 144000 * kbps - 22050 * q);
    QuotientIs(kbps * 65306, 10000, q, kbps * 65306 - 10000 * q);
  }

  lemma ScaleAt44100(kbps: nat, q: nat, r: nat)
    requires 0 < kbps <= 448 && 320 * kbps == 98 * q + r && 0 < r < 98
    ensures kbps * 32653 / 10000 == 144000 * kbps / 44100
  {
    QuotientIs(144000 * kbps, 44100, q, 144000 * kbps - 44100 * q);
    QuotientIs(kbps * 32653, 10000, q, kbps * 32653 - 10000 * q);
  }

  /** The scales of 22.05 and 44.1 kHz are rounded, but to close enough for every rate in the table. */
  lemma ScalesAreClose(kbps: nat)
    requires 0 < kbps <= 448 && kbps % 49 != 0
    ensures kbps * 65306 / 10000 == 144000 * kbps / 22050
    ensures kbps * 32653 / 10000 == 144000 * kbps / 44100
  {
    RestOf49(kbps);
    var x := 320 * kbps;
    ScaleAt22050(kbps, x / 49, x % 49);
    ScaleAt44100(kbps, x / 98, x % 98);
  }

  lemma Scaled(kbps: nat, id: nat, fs: nat)
    requires id < 2 && fs < 4 && 0 < kbps <= 448 && kbps % 49 != 0
    ensures kbps * MPEG_SCALE[(if fs > 2 then 2 else fs) + id * 3] / 10000 == 144000 * kbps / MpegHz(id, fs)
  {
    ScalesAreClose(kbps);
  }

  /** Every length follows from the nominal bit rate and sampling frequency, as that of 1152 samples. */
  lemma MpegTableIsNominal(id: nat, layer: nat, bitrate: nat, fs: nat)
    requires id < 2 && layer < 4 && bitrate < 16 && fs < 4
    ensures MpegAuLength(id, layer, bitrate, fs) == MpegNominal(id, layer, bitrate, fs)
  {
    var kbps := MPEG_BITRATE[bitrate][MpegColumn(id, layer)];
    RateInTable(id, layer, bitrate);
    RatesCoarse(bitrate, MpegColumn(id, layer));
    hide MpegKbps, MpegColumn, MpegHz;
    Scaled(kbps, id, fs);
  }

  lemma FieldsOfFirst(id: nat, layer: nat, protection: nat)
    requires id < 2 && layer < 4 && protection < 2
    ensures var h := 0xF0 + 8 * id + 2 * layer + protection; (h / 8) % 2 == id && (h / 2) % 4 == layer
  {}

  lemma FieldsOfSecond(bitrate: nat, fs: nat, padding: nat, extra: nat)
    requires bitrate < 16 && fs < 4 && padding < 2 && extra < 2
    ensures var h := 16 * bitrate + 4 * fs + 2 * padding + extra;
      h < 256 && h / 16 == bitrate && (h / 4) % 4 == fs && (h / 2) % 2 == padding
  {}

  /** From the fields of a header to the length it announces. */
  lemma MpegHeader(id: nat, layer: nat, protection: nat, bitrate: nat, fs: nat, padding: nat, extra: nat, h4: byte)
    requires id < 2 && layer < 4 && protection < 2 && bitrate < 16 && fs < 4 && padding < 2 && extra < 2
    ensures MPEG.length(0xF0 + 8 * id + 2 * layer + protection, 16 * bitrate + 4 * fs + 2 * padding + extra, h4)
         == MpegNominal(id, layer, bitrate, fs) + padding
  {
    hide MpegAuLength, MpegNominal;
    FieldsOfFirst(id, layer, protection);
    FieldsOfSecond(bitrate, fs, padding, extra);
    MpegTableIsNominal(id, layer, bitrate, fs);
  }

  // ---- MPEG audio, against the standards

  /**
   Frame length of section 2.4.3.1 of ISO/IEC 11172-3: Layer I has 384 samples in slots of four bytes,
   the others 1152 samples in bytes, or 576 for Layer III at the low frequencies of ISO/IEC 13818-3.
   */
  function StandardLength(id: nat, layer: nat, bitrate: nat, fs: nat, padding: nat): int {
    var kbps, hz := MpegKbps(id, layer, bitrate), MpegHz(id, fs);
    if layer == 3 then 4 * (12000 * kbps / hz + padding)
    else if layer == 1 && id == 0 then 72000 * kbps / hz + padding
    else 144000 * kbps / hz + padding
  }

  lemma QuotientTimes(n: nat, x: nat, d: nat)
    requires d > 0
    ensures n * (x / d) <= n * x / d
  {
    var q, r := x / d, x % d;
    assert n * x == d * (n * q) + n * r by { assert n * (d * q) == d * (n * q); }
    var z := n * x / d;
    Ordered(d, z + 1, n * q);
  }

  lemma LongQuotient(x: nat, d: nat)
    requires 0 < d <= x
    ensures 1 <= x / d
  {
    Ordered(d, x / d + 1, 1);
  }

  /**
   The lengths are the standards' exactly for Layer II and for MPEG-1 Layer III: all of Layer I, and
   Layer III of MPEG-2, are taken to be longer than they are.
   */
  lemma StandardLengths(id: nat, layer: nat, bitrate: nat, fs: nat, padding: nat)
    requires id < 2 && 1 <= layer < 4 && 0 < bitrate < 15 && fs < 3 && padding < 2
    ensures MpegAuLength(id, layer, bitrate, fs) + padding == StandardLength(id, layer, bitrate, fs, padding)
       <==> layer == 2 || (layer == 1 && id == 1)
  {
    MpegTableIsNominal(id, layer, bitrate, fs);
    var kbps, hz := MpegKbps(id, layer, bitrate), MpegHz(id, fs);
    assert kbps >= 8 && hz <= 48000 by { RateInTable(id, layer, bitrate); RatesHigh(id, layer, bitrate); }
    assert hz <= 12000 * kbps;
    hide *;
    QuotientTimes(12, 12000 * kbps, hz);
    QuotientTimes(2, 72000 * kbps, hz);
    LongQuotient(12000 * kbps, hz);
    LongQuotient(72000 * kbps, hz);
  }

  lemma RatesHigh(id: nat, layer: nat, bitrate: nat)
    requires id < 2 && layer < 4 && 0 < bitrate < 15
    ensures 8 <= MPEG_BITRATE[bitrate][MpegColumn(id, layer)]
  {}

  // ---- AC-3

  /** Bytes per AU for each frmsizecod, at 48, 44.1 and 32 kHz. */
  function Ac3Sizes(code: nat): (nat, nat, nat)
    requires code < 38
  {
    match code
    case 0 => (128, 138, 192)
    case 1 => (128, 140, 192)
    case 2 => (160, 174, 240)
    case 3 => (160, 176, 240)
    case 4 => (192, 208, 288)
    case 5 => (192, 210, 288)
    case 6 => (224, 242, 336)
    case 7 => (224, 244, 336)
    case 8 => (256, 278, 384)
    case 9 => (256, 280, 384)
    case 10 => (320, 348, 480)
    case 11 => (320, 350, 480)
    case 12 => (384, 416, 576)
    case 13 => (384, 418, 576)
    case 14 => (448, 486, 672)
    case 15 => (448, 488, 672)
    case 16 => (512, 556, 768)
    case 17 => (512, 558, 768)
    case 18 => (640, 696, 960)
    case 19 => (640, 698, 960)
    case 20 => (768, 834, 1152)
    case 21 => (768, 836, 1152)
    case 22 => (896, 974, 1344)
    case 23 => (896, 976, 1344)
    case 24 => (1024, 1114, 1536)
    case 25 => (1024, 1116, 1536)
    case 26 => (1280, 1392, 1920)
    case 27 => (1280, 1394, 1920)
    case 28 => (1536, 1670, 2304)
    case 29 => (1536, 1672, 2304)
    case 30 => (1792, 1950, 2688)
    case 31 => (1792, 1952, 2688)
    case 32 => (2048, 2228, 3072)
    case 33 => (2048, 2230, 3072)
    case 34 => (2304, 2506, 3456)
    case 35 => (2304, 2508, 3456)
    case 36 => (2560, 2786, 3840)
    case _ => (2560, 2788, 3840)
  }

  function Ac3AuLength(fs: nat, frmsizecod: nat): (r: nat)
    requires fs < 4 && frmsizecod < 64
    ensures 128 <= r <= 3840
  {
    Ac3Lookup(if frmsizecod > 37 then 37 else frmsizecod, if fs > 2 then 2 else fs)
  }

  function Ac3Lookup(code: nat, fs: nat): nat
    requires code < 38 && fs < 3
  {
    var sizes := Ac3Sizes(code);
    if fs == 0 then sizes.0 else if fs == 1 then sizes.1 else sizes.2
  }

  const AC3: Format := Framed(
    (b0: byte, b1: byte) => b0 == 0x0B && b1 == 0x77,
    (h1: byte, h2: byte, h4: byte) => Ac3AuLength(h4 / 64, h4 % 64),
    4, 3840)

  lemma Ac3Good()
    ensures Good(AC3)
  {}

  /** Nominal bit rates of AC-3 in kbit/s, one for each pair of frame size codes. */
  function Ac3BitRate(pair: nat): nat
    requires pair < 19
  {
    match pair
    case 0 => 32
    case 1 => 40
    case 2 => 48
    case 3 => 56
    case 4 => 64
    case 5 => 80
    case 6 => 96
    case 7 => 112
    case 8 => 128
    case 9 => 160
    case 10 => 192
    case 11 => 224
    case 12 => 256
    case 13 => 320
    case 14 => 384
    case 15 => 448
    case 16 => 512
    case 17 => 576
    case _ => 640
  }

  /** Bytes of 1536 samples at the nominal bit rate, in 16-bit words (section 5.4.1 of ATSC A/52). */
  function Ac3Nominal(code: nat, fs: nat): nat
    requires code < 38 && fs < 3
  {
    var kbps := Ac3BitRate(code / 2);
    if fs == 0 then 2 * (kbps * 1536 / 768)
    else if fs == 1 then 2 * (kbps * 15360 / 7056 + code % 2)
    else 2 * (kbps * 1536 / 512)
  }

  lemma NominalAt48(code: nat)
    requires code < 38
    ensures Ac3Lookup(code, 0) == Ac3Nominal(code, 0)
  {}

  lemma NominalAt32(code: nat)
    requires code < 38
    ensures Ac3Lookup(code, 2) == Ac3Nominal(code, 2)
  {}

  lemma NominalAt44From0(code: nat)
    requires code < 10
    ensures Ac3Lookup(code, 1) == Ac3Nominal(code, 1)
  {}

  lemma NominalAt44From10(code: nat)
    requires 10 <= code < 20
    ensures Ac3Lookup(code, 1) == Ac3Nominal(code, 1)
  {}

  lemma NominalAt44From20(code: nat)
    requires 20 <= code < 29
    ensures Ac3Lookup(code, 1) == Ac3Nominal(code, 1)
  {}

  lemma NominalAt44From29(code: nat)
    requires 29 <= code < 38
    ensures Ac3Lookup(code, 1) == Ac3Nominal(code, 1)
  {}

  /**
   The whole table follows from the nominal bit rates: exact at 48 and 32 kHz; at 44.1 kHz
   rounded down to a word, plus one word for odd codes.
   */
  lemma {:induction false} Ac3TableIsNominal(code: nat, fs: nat)
    requires code < 38 && fs < 3
    ensures Ac3Lookup(code, fs) == Ac3Nominal(code, fs)
  {
    hide Ac3Lookup, Ac3Nominal;
    if fs == 0 { NominalAt48(code); }
    else if fs == 2 { NominalAt32(code); }
    else if code < 10 { NominalAt44From0(code); }
    else if code < 20 { NominalAt44From10(code); }
    else if code < 29 { NominalAt44From20(code); }
    else { NominalAt44From29(code); }
  }

  /** From the fields of a header, in its fifth byte, to the length it announces; reserved values count as the last. */
  lemma Ac3Header(fscod: nat, frmsizecod: nat, h1: byte, h2: byte)
    requires fscod < 4 && frmsizecod < 64
    ensures AC3.length(h1, h2, 64 * fscod + frmsizecod)
         == Ac3Nominal(if frmsizecod < 38 then frmsizecod else 37, if fscod < 3 then fscod else 2)
  {
    hide Ac3Lookup, Ac3Nominal;
    var h4 := 64 * fscod + frmsizecod;
    assert h4 / 64 == fscod && h4 % 64 == frmsizecod;
    Ac3TableIsNominal(if frmsizecod < 38 then frmsizecod else 37, if fscod < 3 then fscod else 2);
  }
}
