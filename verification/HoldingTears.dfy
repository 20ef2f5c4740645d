/**
  What a write torn by a power loss leaves in a raw slot (src/device/holding_store.rs): behind
  the bytes programmed so far the slot is erased, and the CRC does not always tell.
*/
module HoldingTears {
  import opened BlindSaves
  import opened HoldingBoot
  import opened HoldingCodec
  import opened HoldingStore
  import opened Options
  import opened Words
  import Crc32

  lemma DataOfImage(data: seq<byte>)
    requires |data| == DATA_BYTES
    ensures DataOf(ImageOf(data)) == data
  {
    LeBytesOfWords(data[..4096]);
    LeBytesOfWords(data[4096..4352]);
    LeBytesOfWords(data[4352..4952]);
  }

  /** The data that a slot torn at `done` holds. */
  function TornData(data: seq<byte>, done: nat): (torn: seq<byte>)
    requires |data| == DATA_BYTES && HEADER_BYTES <= done <= TOTAL_BYTES
    ensures |torn| == DATA_BYTES
  {
    data[..done - HEADER_BYTES] + Erased(TOTAL_BYTES - done)
  }

  lemma TornKeepsHeader(image: Image, generation: u32, done: nat)
    requires Sized(image) && HEADER_BYTES <= done <= TOTAL_BYTES
    ensures Torn(Encode(image, generation), done)
            == Header(generation, Crc32.Crc(DataOf(image))) + TornData(DataOf(image), done)
  {
    var header, data := Header(generation, Crc32.Crc(DataOf(image))), DataOf(image);
    assert (header + data)[..done] == header + data[..done - HEADER_BYTES];
  }

  /** A torn slot whose header is whole decodes exactly when the CRC cannot tell, and then to what
      it holds. */
  lemma TornDecodes(image: Image, generation: u32, done: nat, slot: nat)
    requires Sized(image) && HEADER_BYTES <= done <= TOTAL_BYTES
    ensures var torn := TornData(DataOf(image), done);
            Decode(Torn(Encode(image, generation), done), slot)
            == if Crc32.Crc(torn) == Crc32.Crc(DataOf(image)) then Some(Decoded(slot, generation, ImageOf(torn))) else None
  {
    var torn, crc := TornData(DataOf(image), done), Crc32.Crc(DataOf(image));
    TornKeepsHeader(image, generation, done);
    HeaderFields(generation, crc, torn);
    DataBehind(Header(generation, crc), torn);
  }

  /** The slot left by the tear decodes to nothing, or to the image that was written. */
  predicate Tells(image: Image, generation: u32, done: nat, slot: nat)
    requires Sized(image) && done <= TOTAL_BYTES
  {
    var d := Decode(Torn(Encode(image, generation), done), slot);
    d.None? || d.value.image == image
  }

  /** The same image but for the four bytes at the tear. */
  predicate SameButFour(image: Image, other: Image, done: nat)
    requires HEADER_BYTES <= done
  {
    && Sized(image) && Sized(other)
    && SameOutside(DataOf(image), DataOf(other), done - HEADER_BYTES, done - HEADER_BYTES + 4)
  }

  /** Four bytes put in at `k`. */
  function PutFour(data: seq<byte>, k: nat, four: seq<byte>): (changed: seq<byte>)
    requires |data| == DATA_BYTES && k + 4 <= DATA_BYTES && |four| == 4
    ensures |changed| == DATA_BYTES && SameOutside(data, changed, k, k + 4)
    ensures changed[..k] == data[..k] && changed[k + 4..] == data[k + 4..]
  {
    data[..k] + four + data[k + 4..]
  }

  lemma TornTail(data: seq<byte>, done: nat)
    requires |data| == DATA_BYTES && HEADER_BYTES <= done && done + 4 <= TOTAL_BYTES
    ensures TornData(data, done)[done - HEADER_BYTES + 4..] == Erased(TOTAL_BYTES - done - 4)
    ensures done < TOTAL_BYTES ==> TornData(data, done)[DATA_BYTES - 1] == 0xFF
  {
  }

  /** Wherever the tear comes behind the header, and whatever image is written, with four other
      bytes at the tear it goes unnoticed, unless all bytes behind these are 0xFF in any case. */
  lemma TearCanPass(image: Image, generation: u32, done: nat, slot: nat) returns (other: Image)
    requires Sized(image) && HEADER_BYTES <= done && done + 4 <= TOTAL_BYTES
    requires DataOf(image)[done - HEADER_BYTES + 4..] != Erased(TOTAL_BYTES - done - 4)
    ensures SameButFour(image, other, done) && !Tells(other, generation, done, slot)
    ensures Decode(Torn(Encode(other, generation), done), slot)
            == Some(Decoded(slot, generation, ImageOf(TornData(DataOf(other), done))))
  {
    var data, k := DataOf(image), done - HEADER_BYTES;
    var torn := TornData(data, done);
    var four := Crc32.FourBytesReachAnyCrc(data[..k], data[k + 4..], torn);
    var changed := PutFour(data, k, four);
    other := ImageOf(changed);
    DataOfImage(changed);
    assert TornData(changed, done) == torn;
    TornDecodes(other, generation, done, slot);
    TornTail(data, done);
    assert torn != changed;
    DataOfImage(torn);
  }

  const Blanked: Image := ImageOf(ZeroBytes(DATA_BYTES))

  function ZeroBytes(n: nat): (s: seq<byte>)
    ensures |s| == n && forall i :: 0 <= i < n ==> s[i] == 0
  {
    if n == 0 then [] else [0] + ZeroBytes(n - 1)
  }

  /** A tear behind the header is told for every image exactly when it comes in the last four
      bytes. */
  lemma TearsTellExactly(done: nat)
    requires HEADER_BYTES <= done <= TOTAL_BYTES
    ensures (forall image, generation, slot :: Sized(image) ==> Tells(image, generation, done, slot))
            <==> TOTAL_BYTES - 4 <= done
  {
    if TOTAL_BYTES - 4 <= done {
      forall image, generation, slot | Sized(image) ensures Tells(image, generation, done, slot) {
        RoundTrip(image, generation, slot);
        TornLateRejected(Encode(image, generation), done, slot);
      }
    } else {
      var data := ZeroBytes(DATA_BYTES);
      DataOfImage(data);
      assert data[done - HEADER_BYTES + 4..][0] == 0;
      var other := TearCanPass(Blanked, 0, done, 0);
    }
  }

  /** The flash after one acknowledged save and a second one torn at `done`. */
  function SecondTorn(first: Image, second: Image, done: nat): State
    requires Sized(first) && Sized(second) && 0 < done < TOTAL_BYTES
  {
    var one := Saved(ApplyBoot(Init(), true), first, Encode(first, 1));
    ApplyProgram(ApplyErase(ApplyBegin(one, second)), done)
  }

  /** One acknowledged image, in slot 0. */
  predicate OneSaved(one: State, first: Image, bytes: seq<byte>) {
    && WellFormed(one) && one.running && one.phase.Idle? && one.active == Some(0) && one.generation == 1
    && one.acked == 1 && one.attempts == [first] && one.slots == [bytes, Blank]
  }

  lemma FirstSaved(first: Image, bytes: seq<byte>)
    requires Sized(first)
    ensures OneSaved(Saved(ApplyBoot(Init(), true), first, bytes), first, bytes)
  {
    BestOfTwo(Init().found);
  }

  lemma SecondErased(one: State, first: Image, bytes: seq<byte>, second: Image)
    requires OneSaved(one, first, bytes) && Sized(second)
    ensures var e := ApplyErase(ApplyBegin(one, second));
            && WellFormed(e) && e.running && e.phase == Programming(1, 2, second, 0)
            && e.slots == [bytes, Blank] && e.acked == 1 && e.attempts == [first, second]
  {
  }

  lemma ProgrammedSlots(e: State, second: Image, done: nat, torn: seq<byte>, f: Option<Decoded>)
    requires WellFormed(e) && e.running && e.phase == Programming(1, 2, second, 0) && 0 < done < TOTAL_BYTES
    ensures var s := Programmed(e, done, torn, f);
            && WellFormed(s) && WellFormed(Off(s)) && s.acked == e.acked && s.attempts == e.attempts
            && Off(s).slots == e.slots[1 := torn]
  {
  }

  lemma SecondTornSlots(first: Image, second: Image, done: nat)
    requires Sized(first) && Sized(second) && 0 < done < TOTAL_BYTES
    ensures var s := SecondTorn(first, second, done);
            && WellFormed(s) && WellFormed(Off(s)) && s.acked == 1 && s.attempts == [first, second]
            && Off(s).slots == [Encode(first, 1), Torn(Encode(second, 2), done)]
  {
    var bytes, torn := Encode(first, 1), Torn(Encode(second, 2), done);
    var one := Saved(ApplyBoot(Init(), true), first, bytes);
    FirstSaved(first, bytes);
    SecondErased(one, first, bytes, second);
    ProgrammedSlots(ApplyErase(ApplyBegin(one, second)), second, done, torn, Decode(torn, 1));
  }

  /** Then the next boot loads neither the acknowledged image nor the one attempted after it. */
  lemma TornSaveIsMistaken(first: Image, image: Image, done: nat) returns (second: Image)
    requires Sized(first) && Sized(image) && HEADER_BYTES <= done && done + 4 <= TOTAL_BYTES
    requires DataOf(image)[done - HEADER_BYTES + 4..] != Erased(TOTAL_BYTES - done - 4)
    requires DataOf(first)[DATA_BYTES - 1] != 0xFF
    ensures SameButFour(image, second, done) && done < TOTAL_BYTES
    ensures var s := SecondTorn(first, second, done);
            && WellFormed(s) && s.acked == 1 && s.attempts == [first, second]
            && NextBoot(s).Some? && NextBoot(s).value.image != first && NextBoot(s).value.image != second
  {
    second := TearCanPass(image, 2, done, 1);
    var torn := TornData(DataOf(second), done);
    SecondTornSlots(first, second, done);
    RoundTrip(first, 1, 0);
    BestOfTwo(Scanned(Off(SecondTorn(first, second, done)).slots));
    DataOfImage(torn);
    TornTail(DataOf(second), done);
  }
}
