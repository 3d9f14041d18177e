/** Reading and writing WAV: `parse_wav_bytes` and `write_wav`. */
module Wav {
  import opened Basics

  datatype Error = Malformed | Unsupported

  datatype Clip = Clip(pcm: Bytes, rate: nat)

  type Parsed = Result<Clip, Error>

  const RIFF: Bytes := [0x52, 0x49, 0x46, 0x46]
  const WAVE: Bytes := [0x57, 0x41, 0x56, 0x45]
  const FMT: Bytes := [0x66, 0x6D, 0x74, 0x20]
  const DATA: Bytes := [0x64, 0x61, 0x74, 0x61]

  const PLACEHOLDER_DATA_SIZES := {0, 0x7FFFFF80, 0x7FFFFFFF, 0xFFFFFFFF}

  // ----- little-endian integers -----

  function U16(b: Bytes, at: nat): nat
    requires at + 2 <= |b|
  {
    b[at] as int + 256 * b[at + 1] as int
  }

  function U32(b: Bytes, at: nat): nat
    requires at + 4 <= |b|
  {
    b[at] as int + 256 * b[at + 1] as int + 65536 * b[at + 2] as int + 16777216 * b[at + 3] as int
  }

  function Put16(n: nat): Bytes
    requires n < 0x1_0000
  {
    [n % 256, n / 256]
  }

  function Put32(n: nat): Bytes
    requires n < 0x1_0000_0000
  {
    [n % 256, n / 256 % 256, n / 65536 % 256, n / 16777216]
  }

  lemma Put32RoundTrip(n: nat)
    requires n < 0x1_0000_0000
    ensures U32(Put32(n), 0) == n
  {
    assert n / 65536 == n / 256 / 256;
    assert n / 16777216 == n / 65536 / 256;
  }

  // ----- the parser -----

  /** The fields of a `fmt ` chunk that matter. */
  datatype Format = Format(tag: nat, channels: nat, rate: nat, bits: nat)

  function FormatAt(data: Bytes, body: nat): Format
    requires body + 16 <= |data|
  {
    Format(U16(data, body), U16(data, body + 2), U32(data, body + 4), U16(data, body + 14))
  }

  function Even(n: nat): nat {
    n - n % 2
  }

  /** The `data` chunk whose bytes begin at `body` and which declares `size`. */
  function ReadData(data: Bytes, body: nat, size: nat, fmt: Option<Format>, strict: bool): Parsed
    requires body <= |data|
  {
    if fmt.None? then Failure(Malformed)
    else if fmt.value.tag != 1 || fmt.value.channels != 1 || fmt.value.bits != 16 then Failure(Unsupported)
    else if fmt.value.rate == 0 then Failure(Malformed)
    else
      var available := |data| - body;
      if strict && size !in PLACEHOLDER_DATA_SIZES && size > available then Failure(Malformed)
      else
        var end := if 0 < size <= available then body + size else |data|;
        var pcm := data[body..end];
        if strict && |pcm| % 2 != 0 then Failure(Malformed)
        else Success(Clip(pcm[..Even(|pcm|)], fmt.value.rate))
  }

  function IdAt(data: Bytes, pos: nat): Bytes
    requires pos + 4 <= |data|
  {
    data[pos..pos + 4]
  }

  predicate IsRiffWave(data: Bytes) {
    |data| >= 12 && data[..4] == RIFF && data[8..12] == WAVE
  }

  /** What the chunk header at `pos` calls for. */
  datatype Move = Stop | Data(body: nat, size: nat) | Onward(pos: nat, fmt: Option<Format>)

  /** Every chunk passed over moves the walk on by at least its header. */
  function Look(data: Bytes, pos: nat, fmt: Option<Format>): (m: Move)
    ensures m.Data? ==> m.body <= |data|
    ensures m.Onward? ==> pos + 8 <= m.pos && pos + 8 <= |data|
  {
    if pos + 8 > |data| then Stop
    else
      var id := IdAt(data, pos);
      var size := U32(data, pos + 4);
      var body := pos + 8;
      if id == FMT then
        if size < 16 || body + 16 > |data| then Stop
        else Onward(body + size + size % 2, Some(FormatAt(data, body)))
      else if id == DATA then Data(body, size)
      else Onward(body + size + size % 2, fmt)
  }

  /** The chunk walk from `pos`. */
  function Walk(data: Bytes, pos: nat, fmt: Option<Format>, strict: bool): Parsed
    decreases |data| - pos
  {
    match Look(data, pos, fmt)
    case Stop => Failure(Malformed)
    case Data(body, size) => ReadData(data, body, size, fmt, strict)
    case Onward(pos', fmt') => Walk(data, pos', fmt', strict)
  }

  function Parse(data: Bytes, strict: bool): Parsed {
    if IsRiffWave(data) then Walk(data, 12, None, strict) else Failure(Malformed)
  }

  lemma WalkFollows(data: Bytes, pos: nat, fmt: Option<Format>, strict: bool)
    ensures Look(data, pos, fmt).Data? ==>
              Walk(data, pos, fmt, strict) == ReadData(data, Look(data, pos, fmt).body, Look(data, pos, fmt).size, fmt, strict)
    ensures Look(data, pos, fmt).Stop? ==> Walk(data, pos, fmt, strict) == Failure(Malformed)
    ensures Look(data, pos, fmt).Onward? ==>
              Walk(data, pos, fmt, strict) == Walk(data, Look(data, pos, fmt).pos, Look(data, pos, fmt).fmt, strict)
  {
  }

  method ParseWavBytes(data: Bytes, strict: bool) returns (result: Parsed)
    ensures result == Parse(data, strict)
  {
    hide IsRiffWave, IdAt, U32, ReadData, FormatAt;
    if !IsRiffWave(data) {
      return Failure(Malformed);
    }
    var fmt: Option<Format> := None;
    var pos := 12;
    assert Parse(data, strict) == Walk(data, pos, fmt, strict);
    hide Walk, Parse;
    while pos + 8 <= |data|
      invariant Parse(data, strict) == Walk(data, pos, fmt, strict)
      decreases |data| - pos
    {
      var chunkId := IdAt(data, pos);
      var size := U32(data, pos + 4);
      var body := pos + 8;
      WalkFollows(data, pos, fmt, strict);
      if chunkId == FMT {
        if size < 16 || body + 16 > |data| {
          return Failure(Malformed);
        }
        fmt := Some(FormatAt(data, body));
      } else if chunkId == DATA {
        return ReadData(data, body, size, fmt, strict);
      }
      pos := body + size + size % 2;
    }
    return Failure(Malformed);
  }

  // ----- walking over whole chunks -----

  /** A chunk, with the pad byte that follows an odd-sized body. */
  datatype Chunk = Chunk(id: Bytes, body: Bytes, pad: Byte)

  predicate Encodable(c: Chunk) {
    |c.id| == 4 && |c.body| < 0x1_0000_0000 && c.id != DATA && (c.id == FMT ==> |c.body| >= 16)
  }

  function Encode(c: Chunk): Bytes
    requires Encodable(c)
  {
    c.id + Put32(|c.body|) + c.body + (if |c.body| % 2 == 0 then [] else [c.pad])
  }

  predicate AllEncodable(cs: seq<Chunk>) {
    forall i :: 0 <= i < |cs| ==> Encodable(cs[i])
  }

  function EncodeAll(cs: seq<Chunk>): Bytes
    requires AllEncodable(cs)
  {
    if cs == [] then [] else Encode(cs[0]) + EncodeAll(cs[1..])
  }

  /** The format in force after some chunks. */
  function FormatAfter(cs: seq<Chunk>, fmt: Option<Format>): Option<Format>
    requires AllEncodable(cs)
  {
    if cs == [] then fmt
    else FormatAfter(cs[1..], if cs[0].id == FMT then Some(FormatAt(cs[0].body, 0)) else fmt)
  }

  lemma SliceOfMiddle(x: Bytes, y: Bytes, z: Bytes)
    ensures (x + y + z)[|x|..|x| + |y|] == y
  {
  }

  lemma U32At(data: Bytes, at: nat, n: nat)
    requires n < 0x1_0000_0000 && at + 4 <= |data| && data[at..at + 4] == Put32(n)
    ensures U32(data, at) == n
  {
    Put32RoundTrip(n);
    var d := data[at..at + 4];
    assert d[0] == data[at] && d[1] == data[at + 1] && d[2] == data[at + 2] && d[3] == data[at + 3];
  }

  /** Where the parts of an encoded chunk lie. */
  lemma ChunkParts(x: Bytes, c: Chunk, rest: Bytes)
    requires Encodable(c)
    ensures var data, n := x + Encode(c) + rest, |x|;
            && n + 8 + |c.body| <= |data|
            && data[n..n + 4] == c.id && U32(data, n + 4) == |c.body|
            && data[n + 8..n + 8 + |c.body|] == c.body
            && |Encode(c)| == 8 + |c.body| + |c.body| % 2
  {
    var size := Put32(|c.body|);
    assert |size| == 4;
    hide Put32, U32;
    var pad: Bytes := if |c.body| % 2 == 0 then [] else [c.pad];
    ThreeSlices(x, c.id, size, c.body, pad, rest);
    var data := x + Encode(c) + rest;
    assert data == x + (c.id + size + c.body + pad) + rest;
    hide Encode;
    U32At(data, |x| + 4, |c.body|);
  }

  lemma ThreeSlices(x: Bytes, a: Bytes, b: Bytes, c: Bytes, pad: Bytes, rest: Bytes)
    ensures var data, i := x + (a + b + c + pad) + rest, |x|;
            && data[i..i + |a|] == a
            && data[i + |a|..i + |a| + |b|] == b
            && data[i + |a| + |b|..i + |a| + |b| + |c|] == c
  {
    var data := x + (a + b + c + pad) + rest;
    assert data == x + a + (b + c + pad + rest);
    SliceOfMiddle(x, a, b + c + pad + rest);
    assert data == (x + a) + b + (c + pad + rest);
    SliceOfMiddle(x + a, b, c + pad + rest);
    assert data == (x + a + b) + c + (pad + rest);
    SliceOfMiddle(x + a + b, c, pad + rest);
  }

  lemma FormatOfBody(data: Bytes, at: nat, body: Bytes)
    requires |body| >= 16 && at + |body| <= |data| && data[at..at + |body|] == body
    ensures FormatAt(data, at) == FormatAt(body, 0)
  {
    assert forall i :: 0 <= i < |body| ==> body[i] == data[at + i];
  }

  lemma LookOver(data: Bytes, pos: nat, id: Bytes, size: nat, fmt: Option<Format>)
    requires pos + 8 + size <= |data| && data[pos..pos + 4] == id && U32(data, pos + 4) == size
    requires id != DATA && (id == FMT ==> size >= 16)
    ensures Look(data, pos, fmt) ==
            Onward(pos + 8 + size + size % 2, if id == FMT then Some(FormatAt(data, pos + 8)) else fmt)
  {
    hide U32, FormatAt;
  }

  lemma LookOverOne(x: Bytes, c: Chunk, rest: Bytes, fmt: Option<Format>)
    requires Encodable(c)
    ensures Look(x + Encode(c) + rest, |x|, fmt) ==
            Onward(|x + Encode(c)|, if c.id == FMT then Some(FormatAt(c.body, 0)) else fmt)
  {
    var data := x + Encode(c) + rest;
    ChunkParts(x, c, rest);
    hide Encode, FormatAt, U32, Look;
    LookOver(data, |x|, c.id, |c.body|, fmt);
    if c.id == FMT {
      FormatOfBody(data, |x| + 8, c.body);
    }
  }

  lemma WalkOverOne(x: Bytes, c: Chunk, rest: Bytes, fmt: Option<Format>, strict: bool)
    requires Encodable(c)
    ensures Walk(x + Encode(c) + rest, |x|, fmt, strict) ==
            Walk(x + Encode(c) + rest, |x + Encode(c)|, if c.id == FMT then Some(FormatAt(c.body, 0)) else fmt, strict)
  {
    LookOverOne(x, c, rest, fmt);
    WalkFollows(x + Encode(c) + rest, |x|, fmt, strict);
    hide Encode, FormatAt, ReadData, Walk, Look, Encodable;
  }

  lemma LookShift(x: Bytes, y: Bytes, pos: nat, fmt: Option<Format>)
    ensures Look(x + y, |x| + pos, fmt) ==
            match Look(y, pos, fmt)
            case Stop => Stop
            case Data(body, size) => Data(|x| + body, size)
            case Onward(pos', fmt') => Onward(|x| + pos', fmt')
  {
    if pos + 8 <= |y| {
      var data, at := x + y, |x| + pos;
      assert forall i :: 0 <= i < |y| ==> data[|x| + i] == y[i];
      assert data[at..at + 4] == y[pos..pos + 4];
    }
  }

  /** The walk sees only what lies ahead. */
  lemma {:induction false} WalkShift(x: Bytes, y: Bytes, pos: nat, fmt: Option<Format>, strict: bool)
    ensures Walk(x + y, |x| + pos, fmt, strict) == Walk(y, pos, fmt, strict)
    decreases |y| - pos
  {
    hide Look, ReadData;
    LookShift(x, y, pos, fmt);
    match Look(y, pos, fmt)
    case Stop =>
    case Data(body, size) => ReadDataShift(x, y, body, size, fmt, strict);
    case Onward(pos', fmt') => WalkShift(x, y, pos', fmt', strict);
  }

  lemma ReadDataShift(x: Bytes, y: Bytes, body: nat, size: nat, fmt: Option<Format>, strict: bool)
    requires body <= |y|
    ensures ReadData(x + y, |x| + body, size, fmt, strict) == ReadData(y, body, size, fmt, strict)
  {
    assert forall end :: body <= end <= |y| ==> (x + y)[|x| + body..|x| + end] == y[body..end];
  }

  lemma {:induction false} WalkOver(x: Bytes, cs: seq<Chunk>, tail: Bytes, fmt: Option<Format>, strict: bool)
    requires AllEncodable(cs)
    ensures Walk(x + EncodeAll(cs) + tail, |x|, fmt, strict) == Walk(tail, 0, FormatAfter(cs, fmt), strict)
    decreases |cs|
  {
    hide Walk, Encode, FormatAt;
    if cs == [] {
      assert x + EncodeAll(cs) + tail == x + tail;
      WalkShift(x, tail, 0, fmt, strict);
    } else {
      var c, rest := cs[0], cs[1..];
      assert x + EncodeAll(cs) + tail == x + Encode(c) + (EncodeAll(rest) + tail);
      assert x + EncodeAll(cs) + tail == (x + Encode(c)) + EncodeAll(rest) + tail;
      WalkOverOne(x, c, EncodeAll(rest) + tail, fmt, strict);
      WalkOver(x + Encode(c), rest, tail, if c.id == FMT then Some(FormatAt(c.body, 0)) else fmt, strict);
    }
  }

  predicate IsRiffHeader(h: Bytes) {
    |h| == 12 && h[..4] == RIFF && h[8..12] == WAVE
  }

  lemma ParseWalks(h: Bytes, cs: seq<Chunk>, tail: Bytes, strict: bool)
    requires IsRiffHeader(h) && AllEncodable(cs)
    ensures Parse(h + EncodeAll(cs) + tail, strict) == Walk(tail, 0, FormatAfter(cs, None), strict)
  {
    var data := h + EncodeAll(cs) + tail;
    assert data[..4] == h[..4] && data[8..12] == h[8..12];
    WalkOver(h, cs, tail, None, strict);
  }

  lemma {:induction false} UnknownChunksKeepFormat(cs: seq<Chunk>, unknown: seq<Chunk>, fmt: Option<Format>)
    requires AllEncodable(cs) && AllEncodable(unknown) && forall i :: 0 <= i < |unknown| ==> unknown[i].id != FMT
    ensures AllEncodable(cs + unknown)
    ensures FormatAfter(cs + unknown, fmt) == FormatAfter(cs, fmt)
  {
    if cs != [] {
      assert (cs + unknown)[1..] == cs[1..] + unknown;
      UnknownChunksKeepFormat(cs[1..], unknown, if cs[0].id == FMT then Some(FormatAt(cs[0].body, 0)) else fmt);
    } else if unknown != [] {
      assert cs + unknown == unknown;
      UnknownChunksKeepFormat([], unknown[1..], fmt);
      assert [] + unknown[1..] == unknown[1..];
    }
  }

  /** Unknown chunks, of any size and however many, inserted between whole chunks
      before the data never change the result; `tail` is any bytes at all. */
  lemma UnknownChunksAreInvisible(h: Bytes, cs: seq<Chunk>, unknown: seq<Chunk>, tail: Bytes, strict: bool)
    requires IsRiffHeader(h) && AllEncodable(cs) && AllEncodable(unknown)
    requires forall i :: 0 <= i < |unknown| ==> unknown[i].id != FMT
    ensures AllEncodable(cs + unknown)
    ensures Parse(h + EncodeAll(cs + unknown) + tail, strict) == Parse(h + EncodeAll(cs) + tail, strict)
  {
    UnknownChunksKeepFormat(cs, unknown, None);
    ParseWalks(h, cs, tail, strict);
    ParseWalks(h, cs + unknown, tail, strict);
  }

  lemma ReadDataStrictIsLenient(data: Bytes, body: nat, size: nat, fmt: Option<Format>)
    requires body <= |data|
    ensures ReadData(data, body, size, fmt, true).Success? ==>
              ReadData(data, body, size, fmt, false) == ReadData(data, body, size, fmt, true)
  {
  }

  lemma {:induction false} WalkStrictIsLenient(data: Bytes, pos: nat, fmt: Option<Format>)
    ensures Walk(data, pos, fmt, true).Success? ==> Walk(data, pos, fmt, false) == Walk(data, pos, fmt, true)
    decreases |data| - pos
  {
    hide Look, ReadData;
    match Look(data, pos, fmt)
    case Stop =>
    case Data(body, size) => ReadDataStrictIsLenient(data, body, size, fmt);
    case Onward(pos', fmt') => WalkStrictIsLenient(data, pos', fmt');
  }

  /** What the strict reading accepts, the lenient one reads the same. */
  lemma StrictSuccessIsLenientSuccess(data: Bytes)
    ensures Parse(data, true).Success? ==> Parse(data, false) == Parse(data, true)
  {
    WalkStrictIsLenient(data, 12, None);
  }

  // ----- the data chunk -----

  /** The header of the data chunk, and whatever bytes follow it. */
  function DataTail(size: nat, rest: Bytes): Bytes
    requires size < 0x1_0000_0000
  {
    DATA + Put32(size) + rest
  }

  lemma WalkReadsData(size: nat, rest: Bytes, fmt: Option<Format>, strict: bool)
    requires size < 0x1_0000_0000
    ensures |DataTail(size, rest)| == 8 + |rest| && DataTail(size, rest)[8..] == rest
    ensures Walk(DataTail(size, rest), 0, fmt, strict) == ReadData(DataTail(size, rest), 8, size, fmt, strict)
  {
    var data := DataTail(size, rest);
    assert data[0..4] == DATA && data[4..8] == Put32(size);
    U32At(data, 4, size);
    hide ReadData, U32, Put32;
  }

  /** Chunks that end in a format the program reads. */
  predicate Readable(cs: seq<Chunk>, rate: nat) {
    AllEncodable(cs) && FormatAfter(cs, None) == Some(Format(1, 1, rate, 16)) && rate > 0
  }

  /** The samples are those of the data chunk and nothing behind it, down to the last
      whole one; the strict mode refuses half a sample instead. */
  lemma DataEndsWithItsChunk(h: Bytes, cs: seq<Chunk>, samples: Bytes, more: Bytes, rate: nat, strict: bool)
    requires IsRiffHeader(h) && Readable(cs, rate) && 0 < |samples| < 0x1_0000_0000
    ensures Parse(h + EncodeAll(cs) + DataTail(|samples|, samples + more), strict) ==
            if strict && |samples| % 2 == 1 then Failure(Malformed)
            else Success(Clip(samples[..|samples| - |samples| % 2], rate))
  {
    var tail := DataTail(|samples|, samples + more);
    ParseWalks(h, cs, tail, strict);
    WalkReadsData(|samples|, samples + more, Some(Format(1, 1, rate, 16)), strict);
    hide Parse, Walk, EncodeAll, FormatAfter, DataTail;
    assert tail[8..8 + |samples|] == tail[8..][..|samples|] == samples;
  }

  /** A size of zero, or one that more bytes were promised by than arrived, means all
      that arrived; the strict mode takes that only for the sizes a writer leaves that
      cannot seek back, and only for whole samples. */
  lemma MissingSizeReadsAll(h: Bytes, cs: seq<Chunk>, size: nat, rest: Bytes, rate: nat, strict: bool)
    requires IsRiffHeader(h) && Readable(cs, rate) && size < 0x1_0000_0000 && (size == 0 || size > |rest|)
    ensures Parse(h + EncodeAll(cs) + DataTail(size, rest), strict) ==
            if strict && (size !in {0, 0x7FFFFF80, 0x7FFFFFFF, 0xFFFFFFFF} || |rest| % 2 == 1) then Failure(Malformed)
            else Success(Clip(rest[..|rest| - |rest| % 2], rate))
  {
    var tail := DataTail(size, rest);
    ParseWalks(h, cs, tail, strict);
    WalkReadsData(size, rest, Some(Format(1, 1, rate, 16)), strict);
    hide Parse, Walk, EncodeAll, FormatAfter, DataTail, IsRiffHeader, AllEncodable;
    assert tail[8..|tail|] == rest;
  }

  /** Any other format in force at the data chunk, or none, is refused. */
  lemma OtherFormatsAreRefused(h: Bytes, cs: seq<Chunk>, size: nat, rest: Bytes, strict: bool)
    requires IsRiffHeader(h) && AllEncodable(cs) && size < 0x1_0000_0000
    requires forall rate :: !Readable(cs, rate)
    ensures var fmt := FormatAfter(cs, None);
            Parse(h + EncodeAll(cs) + DataTail(size, rest), strict) ==
            Failure(if fmt.Some? && fmt.value != Format(1, 1, 0, 16) then Unsupported else Malformed)
  {
    ParseWalks(h, cs, DataTail(size, rest), strict);
    WalkReadsData(size, rest, FormatAfter(cs, None), strict);
    hide Parse, Walk, EncodeAll, FormatAfter, DataTail;
    var fmt := FormatAfter(cs, None);
    if fmt.Some? { assert !Readable(cs, fmt.value.rate); }
  }

  // ----- the writer -----

  predicate Writable(samples: nat, rate: int) {
    0 < rate < 0x8000_0000 && 36 + samples < 0x1_0000_0000
  }

  /** The whole samples under the header that Python's wave module writes for 16-bit
      mono.  The two 32-bit sizes and the byte rate bound what it accepts. */
  function Write(pcm: Bytes, rate: int): Result<Bytes, ()> {
    var whole := pcm[..Even(|pcm|)];
    if Writable(|whole|, rate) then Success(Container(whole, rate)) else Failure(())
  }

  function Container(whole: Bytes, rate: nat): Bytes
    requires Writable(|whole|, rate)
  {
    RiffHeader(36 + |whole|) + FormatChunk(rate) + DATA + Put32(|whole|) + whole
  }

  function RiffHeader(n: nat): Bytes
    requires n < 0x1_0000_0000
  {
    RIFF + Put32(n) + WAVE
  }

  function FormatBody(rate: nat): Bytes
    requires 2 * rate < 0x1_0000_0000
  {
    Put16(1) + Put16(1) + Put32(rate) + Put32(2 * rate) + Put16(2) + Put16(16)
  }

  function FormatChunk(rate: nat): Bytes
    requires 2 * rate < 0x1_0000_0000
  {
    FMT + Put32(16) + FormatBody(rate)
  }

  lemma FormatBodyRoundTrip(rate: nat)
    requires 2 * rate < 0x1_0000_0000
    ensures |FormatBody(rate)| == 16 && FormatAt(FormatBody(rate), 0) == Format(1, 1, rate, 16)
  {
    var b := FormatBody(rate);
    assert b[4..8] == Put32(rate);
    U32At(b, 4, rate);
  }

  lemma WriteIsChunks(whole: Bytes, rate: nat)
    requires 2 * rate < 0x1_0000_0000 && 36 + |whole| < 0x1_0000_0000
    ensures |FormatBody(rate)| == 16
    ensures IsRiffHeader(RiffHeader(36 + |whole|))
    ensures var c := Chunk(FMT, FormatBody(rate), 0);
            && AllEncodable([c]) && EncodeAll([c]) == FormatChunk(rate)
            && FormatAfter([c], None) == Some(Format(1, 1, rate, 16))
  {
    hide FormatBody, FormatAt;
    FormatBodyRoundTrip(rate);
    var c := Chunk(FMT, FormatBody(rate), 0);
    assert [c][1..] == [];
    assert EncodeAll([c]) == Encode(c);
    var h := RiffHeader(36 + |whole|);
    assert h[..4] == RIFF && h[8..12] == WAVE;
  }

  lemma Regroup(a: Bytes, b: Bytes, c: Bytes, d: Bytes, e: Bytes)
    ensures a + b + c + d + e == a + b + (c + d + e)
  {
  }

  lemma ContainerIsRead(whole: Bytes, rate: nat, strict: bool)
    requires Writable(|whole|, rate) && |whole| % 2 == 0
    ensures Parse(Container(whole, rate), strict) == Success(Clip(whole, rate))
  {
    hide Parse, Walk, RiffHeader, FormatChunk, EncodeAll, FormatAfter, IsRiffHeader, Put32, FormatBody;
    var h, size := RiffHeader(36 + |whole|), Put32(|whole|);
    WriteIsChunks(whole, rate);
    var cs := [Chunk(FMT, FormatBody(rate), 0)];
    Regroup(h, FormatChunk(rate), DATA, size, whole);
    assert whole + [] == whole && whole[..|whole|] == whole;
    if whole == [] {
      MissingSizeReadsAll(h, cs, 0, whole, rate, strict);
    } else {
      DataEndsWithItsChunk(h, cs, whole, [], rate, strict);
    }
  }

  /** What was written is read back, in both modes: all the whole samples, and the
      rate. */
  lemma ParseInvertsWrite(pcm: Bytes, rate: int, strict: bool)
    ensures Write(pcm, rate).Success? <==> Writable(Even(|pcm|), rate)
    ensures Write(pcm, rate).Success? ==>
              Parse(Write(pcm, rate).value, strict) == Success(Clip(pcm[..Even(|pcm|)], rate))
  {
    hide Parse, Container;
    var whole := pcm[..Even(|pcm|)];
    if Writable(|whole|, rate) {
      ContainerIsRead(whole, rate, strict);
    }
  }
}
