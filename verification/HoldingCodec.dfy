/**
  The raw slot image of src/device/holding_store.rs: a 16-byte header, then the holding,
  monitor and control words and the legacy coils, the data covered by a CRC-32.
*/
module HoldingCodec {
  import opened Options
  import opened Words
  import Crc32

  const HEADER_BYTES := 16
  const HOLDING_WORDS := 2048
  const MONITOR_WORDS := 128
  const CONTROL_WORDS := 300
  const COIL_BYTES := 1536
  const DATA_BYTES := 6488
  const TOTAL_BYTES := 6504
  const RAW_MAGIC: u32 := 0x494D_4332
  const RAW_VERSION: u16 := 1

  datatype Image = Image(words: seq<u16>, monitor: seq<u16>, control: seq<u16>, coils: seq<byte>)

  datatype Decoded = Decoded(slot: nat, generation: u32, image: Image)

  predicate Sized(image: Image) {
    && |image.words| == HOLDING_WORDS && |image.monitor| == MONITOR_WORDS
    && |image.control| == CONTROL_WORDS && |image.coils| == COIL_BYTES
  }

  // ---- The format ---------------------------------------------------------------------------

  function DataOf(image: Image): (data: seq<byte>)
    ensures Sized(image) ==> |data| == DATA_BYTES
  {
    LeBytes(image.words) + LeBytes(image.monitor) + LeBytes(image.control) + image.coils
  }

  function Header(generation: u32, crc: u32): (s: seq<byte>)
    ensures |s| == HEADER_BYTES
  {
    Le32(RAW_MAGIC) + Le16(RAW_VERSION) + Le16(HOLDING_WORDS) + Le32(generation) + Le32(crc)
  }

  function Encode(image: Image, generation: u32): (blob: seq<byte>)
    ensures Sized(image) ==> |blob| == TOTAL_BYTES
  {
    Header(generation, Crc32.Crc(DataOf(image))) + DataOf(image)
  }

  function ImageOf(data: seq<byte>): (image: Image)
    requires |data| == DATA_BYTES
    ensures Sized(image)
  {
    Image(WordsOf(data[..4096]), WordsOf(data[4096..4352]), WordsOf(data[4352..4952]), data[4952..])
  }

  function Decode(blob: seq<byte>, slot: nat): Option<Decoded> {
    if |blob| < TOTAL_BYTES || LongAt(blob, 0) != RAW_MAGIC || WordAt(blob, 6) != HOLDING_WORDS then None
    else if WordAt(blob, 4) != RAW_VERSION then None
    else
      var data := blob[HEADER_BYTES..TOTAL_BYTES];
      if Crc32.Crc(data) != LongAt(blob, 12) then None
      else Some(Decoded(slot, LongAt(blob, 8), ImageOf(data)))
  }

  // ---- Encoding in place --------------------------------------------------------------------

  method PutWords(blob: array<byte>, start: nat, ws: seq<u16>) returns (end: nat)
    requires start + 2 * |ws| <= blob.Length
    modifies blob
    ensures end == start + 2 * |ws|
    ensures blob[..] == old(blob[..start]) + LeBytes(ws) + old(blob[end..])
  {
    end := start;
    for i := 0 to |ws|
      invariant end == start + 2 * i
      invariant forall j :: 0 <= j < 2 * i ==> blob[start + j] == LeBytes(ws)[j]
      invariant forall j :: 0 <= j < start || end <= j < blob.Length ==> blob[j] == old(blob[j])
    {
      LeBytesAt(ws, i);
      blob[end], blob[end + 1] := Lo(ws[i]), Hi(ws[i]);
      end := end + 2;
    }
    assert blob[..] == blob[..start] + blob[start..end] + blob[end..];
    assert blob[start..end] == LeBytes(ws);
  }

  lemma PutBehind(b: seq<byte>, b': seq<byte>, at: nat, w: seq<byte>)
    requires HEADER_BYTES <= at && at + |w| <= |b| && b' == b[..at] + w + b[at + |w|..]
    ensures b'[HEADER_BYTES..at + |w|] == b[HEADER_BYTES..at] + w
  {
  }

  method PutBytes(blob: array<byte>, start: nat, bytes: seq<byte>)
    requires start + |bytes| <= blob.Length
    modifies blob
    ensures blob[..] == old(blob[..start]) + bytes + old(blob[start + |bytes|..])
  {
    for i := 0 to |bytes|
      invariant forall j :: 0 <= j < i ==> blob[start + j] == bytes[j]
      invariant forall j :: 0 <= j < start || start + i <= j < blob.Length ==> blob[j] == old(blob[j])
    {
      blob[start + i] := bytes[i];
    }
    assert blob[..] == blob[..start] + blob[start..start + |bytes|] + blob[start + |bytes|..];
  }

  method PutHeader(blob: array<byte>, generation: u32)
    requires blob.Length == TOTAL_BYTES
    modifies blob
    ensures blob[..] == Header(generation, Crc32.Crc(old(blob[HEADER_BYTES..]))) + old(blob[HEADER_BYTES..])
  {
    var data := blob[HEADER_BYTES..];
    var crc := Crc32.ComputeCrc(data);
    PutBytes(blob, 0, Header(generation, crc));
  }

  /** The body of a save up to the flash: an image of the wrong size is refused before any of
      it is written. */
  method EncodeImage(blob: array<byte>, image: Image, generation: u32) returns (ok: bool)
    requires blob.Length == TOTAL_BYTES
    modifies blob
    ensures ok == Sized(image)
    ensures ok ==> blob[..] == Encode(image, generation)
    ensures !ok ==> forall j :: 0 <= j < blob.Length ==> blob[j] == 0
  {
    for i := 0 to blob.Length
      invariant forall j :: 0 <= j < i ==> blob[j] == 0
    {
      blob[i] := 0;
    }
    if !Sized(image) { return false; }
    var offset := PutWords(blob, HEADER_BYTES, image.words);
    assert blob[HEADER_BYTES..offset] == LeBytes(image.words);
    ghost var before, at := blob[..], offset;
    offset := PutWords(blob, offset, image.monitor);
    PutBehind(before, blob[..], at, LeBytes(image.monitor));
    before, at := blob[..], offset;
    offset := PutWords(blob, offset, image.control);
    PutBehind(before, blob[..], at, LeBytes(image.control));
    ghost var words := LeBytes(image.words) + LeBytes(image.monitor) + LeBytes(image.control);
    assert blob[HEADER_BYTES..offset] == words;
    PutBytes(blob, offset, image.coils);
    assert blob[HEADER_BYTES..] == blob[HEADER_BYTES..offset] + blob[offset..];
    assert blob[HEADER_BYTES..offset] == words;
    assert blob[offset..] == image.coils;
    PutHeader(blob, generation);
    ok := true;
  }

  // ---- Decoding what was encoded -------------------------------------------------------------

  lemma ImageOfData(image: Image)
    requires Sized(image)
    ensures ImageOf(DataOf(image)) == image
  {
    var data := DataOf(image);
    assert data[..4096] == LeBytes(image.words);
    assert data[4096..4352] == LeBytes(image.monitor);
    assert data[4352..4952] == LeBytes(image.control);
    assert data[4952..] == image.coils;
    WordsOfLeBytes(image.words);
    WordsOfLeBytes(image.monitor);
    WordsOfLeBytes(image.control);
  }

  lemma LongField(pre: seq<byte>, w: u32, post: seq<byte>)
    ensures LongAt(pre + Le32(w) + post, |pre|) == w
  {
    Join32OfLe32(w);
    var f, blob := Le32(w), pre + Le32(w) + post;
    assert blob[|pre|] == f[0] && blob[|pre| + 1] == f[1] && blob[|pre| + 2] == f[2] && blob[|pre| + 3] == f[3];
  }

  lemma WordField(pre: seq<byte>, w: u16, post: seq<byte>)
    ensures WordAt(pre + Le16(w) + post, |pre|) == w
  {
    var blob := pre + Le16(w) + post;
    assert blob[|pre|] == Lo(w) && blob[|pre| + 1] == Hi(w);
  }

  predicate Fields(blob: seq<byte>, generation: u32, crc: u32) {
    && |blob| >= HEADER_BYTES
    && LongAt(blob, 0) == RAW_MAGIC && WordAt(blob, 4) == RAW_VERSION && WordAt(blob, 6) == HOLDING_WORDS
    && LongAt(blob, 8) == generation && LongAt(blob, 12) == crc
  }

  lemma HeaderFields(generation: u32, crc: u32, rest: seq<byte>)
    ensures Fields(Header(generation, crc) + rest, generation, crc)
  {
    var blob := Header(generation, crc) + rest;
    var m, v, n, g, c := Le32(RAW_MAGIC), Le16(RAW_VERSION), Le16(HOLDING_WORDS), Le32(generation), Le32(crc);
    assert blob == [] + m + (v + n + g + c + rest);
    assert blob == m + v + (n + g + c + rest);
    assert blob == m + v + n + (g + c + rest);
    assert blob == (m + v + n) + g + (c + rest);
    assert blob == (m + v + n + g) + c + rest;
    LongField([], RAW_MAGIC, v + n + g + c + rest);
    WordField(m, RAW_VERSION, n + g + c + rest);
    WordField(m + v, HOLDING_WORDS, g + c + rest);
    LongField(m + v + n, generation, c + rest);
    LongField(m + v + n + g, crc, rest);
  }

  lemma DecodesByFields(blob: seq<byte>, generation: u32, slot: nat)
    requires |blob| >= TOTAL_BYTES && Fields(blob, generation, Crc32.Crc(blob[HEADER_BYTES..TOTAL_BYTES]))
    ensures Decode(blob, slot) == Some(Decoded(slot, generation, ImageOf(blob[HEADER_BYTES..TOTAL_BYTES])))
  {
  }

  lemma DataBehind(header: seq<byte>, data: seq<byte>)
    requires |header| == HEADER_BYTES && |data| == DATA_BYTES
    ensures (header + data)[HEADER_BYTES..TOTAL_BYTES] == data
  {
  }

  lemma EncodeFields(image: Image, generation: u32)
    requires Sized(image)
    ensures var blob := Encode(image, generation);
            && blob[HEADER_BYTES..TOTAL_BYTES] == DataOf(image)
            && Fields(blob, generation, Crc32.Crc(DataOf(image)))
  {
    var data := DataOf(image);
    var crc := Crc32.Crc(data);
    HeaderFields(generation, crc, data);
    DataBehind(Header(generation, crc), data);
  }

  /** An encoded image decodes to exactly itself. */
  lemma RoundTrip(image: Image, generation: u32, slot: nat)
    requires Sized(image)
    ensures Decode(Encode(image, generation), slot) == Some(Decoded(slot, generation, image))
  {
    EncodeFields(image, generation);
    DecodesByFields(Encode(image, generation), generation, slot);
    ImageOfData(image);
  }

  lemma HeaderNumbers(generation: u32, crc: u32)
    ensures var h := Header(generation, crc);
            && h[..4] == [0x32, 0x43, 0x4D, 0x49] && h[4..8] == [1, 0, 0, 8]
            && Number32(h, 8) == generation && Number32(h, 12) == crc
  {
    var h := Header(generation, crc);
    assert h[8..12] == Le32(generation) && h[12..16] == Le32(crc);
    Le32Number(generation, h, 8);
    Le32Number(crc, h, 12);
  }

  /** The header of an encoded image: the letters "2CMI", version 1, 2048 words, generation and
      checksum; numbers are low byte first. */
  lemma EncodedHeader(image: Image, generation: u32)
    requires Sized(image)
    ensures var b := Encode(image, generation);
            && |b| == 6504 && b[..4] == [0x32, 0x43, 0x4D, 0x49] && b[4..8] == [1, 0, 0, 8]
            && Number32(b, 8) == generation && Number32(b, 12) == Crc32.Crc(b[16..])
  {
    var b, h, data := Encode(image, generation), Header(generation, Crc32.Crc(DataOf(image))), DataOf(image);
    HeaderNumbers(generation, Crc32.Crc(data));
    assert b[..4] == h[..4] && b[4..8] == h[4..8] && b[16..] == data;
    HeaderInside(b, h);
  }

  lemma HeaderInside(b: seq<byte>, h: seq<byte>)
    requires |h| == 16 <= |b| && b[..16] == h
    ensures Number32(b, 8) == Number32(h, 8) && Number32(b, 12) == Number32(h, 12)
  {
    PairInside(b, 0, h, 8);
    PairInside(b, 0, h, 10);
    PairInside(b, 0, h, 12);
    PairInside(b, 0, h, 14);
  }

  /** Behind it the holding, monitor and control words, low byte first, and the coils. */
  lemma EncodedData(image: Image, generation: u32, i: nat)
    requires Sized(image)
    ensures var b := Encode(image, generation);
            && |b| == 6504
            && (i < 2048 ==> Number16(b, 16 + 2 * i) == image.words[i])
            && (i < 128 ==> Number16(b, 4112 + 2 * i) == image.monitor[i])
            && (i < 300 ==> Number16(b, 4368 + 2 * i) == image.control[i])
            && (i < 1536 ==> b[4968 + i] == image.coils[i])
  {
    var b := Encode(image, generation);
    DataPlaces(image, generation);
    if i < 2048 { WordInside(b, 16, image.words, i); }
    if i < 128 { WordInside(b, 4112, image.monitor, i); }
    if i < 300 { WordInside(b, 4368, image.control, i); }
  }

  lemma DataPlaces(image: Image, generation: u32)
    requires Sized(image)
    ensures var b := Encode(image, generation);
            && |b| == 6504 && b[16..16 + 2 * |image.words|] == LeBytes(image.words)
            && b[4112..4112 + 2 * |image.monitor|] == LeBytes(image.monitor)
            && b[4368..4368 + 2 * |image.control|] == LeBytes(image.control) && b[4968..] == image.coils
  {
  }

  // ---- What a damaged blob decodes to --------------------------------------------------------

  lemma DataWindowCrc(good: seq<byte>, bad: seq<byte>, at: nat, to: nat)
    requires |good| >= TOTAL_BYTES && SameOutside(good, bad, at, to) && good != bad
    requires HEADER_BYTES <= at <= to <= TOTAL_BYTES && to - at <= 4
    ensures Crc32.Crc(good[HEADER_BYTES..TOTAL_BYTES]) != Crc32.Crc(bad[HEADER_BYTES..TOTAL_BYTES])
  {
    var p, s := good[HEADER_BYTES..at], good[to..TOTAL_BYTES];
    var v, w := good[at..to], bad[at..to];
    assert good[HEADER_BYTES..TOTAL_BYTES] == p + v + s;
    assert bad[HEADER_BYTES..TOTAL_BYTES] == p + w + s;
    var i :| 0 <= i < |good| && good[i] != bad[i];
    assert v[i - at] != w[i - at];
    Crc32.WindowChangesCrc(p, v, w, s);
  }

  /** Any change confined to at most four consecutive data bytes is refused. */
  lemma DataWindowRejected(good: seq<byte>, bad: seq<byte>, at: nat, to: nat, slot: nat)
    requires Decode(good, slot).Some? && SameOutside(good, bad, at, to) && good != bad
    requires HEADER_BYTES <= at <= to <= TOTAL_BYTES && to - at <= 4
    ensures Decode(bad, slot).None?
  {
    DataWindowCrc(good, bad, at, to);
    assert LongAt(good, 12) == LongAt(bad, 12);
  }

  lemma LongDiffers(a: seq<byte>, b: seq<byte>, k: nat)
    requires k + 4 <= |a| && k + 4 <= |b| && LongAt(a, k) == LongAt(b, k)
    ensures forall i :: k <= i < k + 4 ==> a[i] == b[i]
  {
    assert a[k] == b[k] && a[k + 1] == b[k + 1] && a[k + 2] == b[k + 2] && a[k + 3] == b[k + 3];
  }

  /** The CRC leaves the header out: a change confined to the header is refused exactly when it
      touches something other than the generation, which then is the one thing decoded anew. */
  lemma HeaderChange(good: seq<byte>, bad: seq<byte>, slot: nat)
    requires Decode(good, slot).Some? && SameOutside(good, bad, 0, HEADER_BYTES)
    ensures Decode(bad, slot).Some? <==> SameOutside(good, bad, 8, 12)
    ensures Decode(bad, slot).Some? ==>
              Decode(bad, slot).value == Decode(good, slot).value.(generation := LongAt(bad, 8))
  {
    assert good[HEADER_BYTES..TOTAL_BYTES] == bad[HEADER_BYTES..TOTAL_BYTES];
    if Decode(bad, slot).Some? {
      LongDiffers(good, bad, 0);
      LongDiffers(good, bad, 12);
      assert WordAt(good, 4) == WordAt(bad, 4) && WordAt(good, 6) == WordAt(bad, 6);
    }
  }

  // ---- Torn writes ----------------------------------------------------------------------------

  /** What an erased slot holds after the first `k` bytes of `blob` were programmed. */
  function Torn(blob: seq<byte>, k: nat): (s: seq<byte>)
    requires k <= |blob|
    ensures |s| == |blob|
  {
    blob[..k] + Erased(|blob| - k)
  }

  function Erased(n: nat): (s: seq<byte>)
    ensures |s| == n && forall i :: 0 <= i < n ==> s[i] == 0xFF
  {
    if n == 0 then [] else [0xFF] + Erased(n - 1)
  }

  lemma TornEarlyRejected(image: Image, generation: u32, k: nat, slot: nat)
    requires Sized(image) && k < 8
    ensures Decode(Torn(Encode(image, generation), k), slot).None?
  {
    assert Torn(Encode(image, generation), k)[7] == 0xFF;
  }

  /** A write torn in its last four bytes either left the whole image or is refused. */
  lemma TornLateRejected(good: seq<byte>, k: nat, slot: nat)
    requires Decode(good, slot).Some? && |good| == TOTAL_BYTES
    requires TOTAL_BYTES - 4 <= k <= TOTAL_BYTES
    ensures Torn(good, k) == good || Decode(Torn(good, k), slot).None?
  {
    if Torn(good, k) != good {
      DataWindowRejected(good, Torn(good, k), k, TOTAL_BYTES, slot);
    }
  }
}
