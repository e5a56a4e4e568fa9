/**
 * The binary frame format of the live thermal-camera stream, both ends:
 * the daemon's encoder in `sendFrameToSockets` and the browser's
 * `parseFrame`. A frame on the wire is a little-endian u16 header length,
 * the JSON header, then the pixel samples as little-endian u16 values.
 */
module FrameCodec {
  import opened Wrappers

  newtype byte = x: int | 0 <= x < 256
  newtype u16 = x: int | 0 <= x < 0x1_0000

  /** `Telemetry` of the frame header (api/types.ts). */
  datatype Telemetry = Telemetry(
    TimeOn: int, FFCState: string, FrameCount: int, FrameMean: int,
    TempC: real, LastFFCTempC: real, LastFFCTime: int)

  /** `CameraInfo` of the frame header. */
  datatype CameraInfo = CameraInfo(
    Brand: string, Model: string, FPS: int, ResX: int, ResY: int,
    Firmware: string, CameraSerial: int)

  /** `FrameInfo`: the decoded JSON header. */
  datatype FrameInfo = FrameInfo(
    Telemetry: Telemetry, AppVersion: string, BinaryVersion: string, Camera: CameraInfo)

  /** `Frame`: a header and its pixel samples. */
  datatype Frame = Frame(frameInfo: FrameInfo, frame: seq<u16>)

  /** What the browser gets from `JSON.parse` of the header bytes and the
      field reads that follow it: a parse error or a missing `Telemetry`
      (`Malformed`), a header whose `Telemetry` is there but whose `Camera` is
      not (`NoCamera`), or a complete header. JSON itself is not modelled: the
      decoding is a parameter of `ParseFrame`. */
  datatype Header = Malformed | NoCamera(frameCount: int) | Complete(info: FrameInfo)

  // ---------------------------------------------------------------------
  // Little-endian samples

  function U16LE(x: u16): (r: seq<byte>)
    ensures |r| == 2 && r[0] as int + 256 * r[1] as int == x as int
  {
    [(x as int % 256) as byte, (x as int / 256) as byte]
  }

  /** `binary.Write(buffer, binary.LittleEndian, row)` for a row of samples. */
  function EncodeSamples(xs: seq<u16>): (r: seq<byte>)
    ensures |r| == 2 * |xs|
  {
    if xs == [] then [] else U16LE(xs[0]) + EncodeSamples(xs[1..])
  }

  /** The samples a `Uint16Array` views in an even-length byte buffer. */
  function Samples(b: seq<byte>): (r: seq<u16>)
    requires |b| % 2 == 0
    ensures |r| == |b| / 2
  {
    seq(|b| / 2, i requires 0 <= i < |b| / 2 => (b[2 * i] as int + 256 * b[2 * i + 1] as int) as u16)
  }

  lemma {:induction false} EncodeSamplesAt(xs: seq<u16>, i: nat)
    requires i < |xs|
    ensures EncodeSamples(xs)[2 * i] as int + 256 * EncodeSamples(xs)[2 * i + 1] as int == xs[i] as int
  {
    if i > 0 {
      EncodeSamplesAt(xs[1..], i - 1);
    }
  }

  /** Decoding the little-endian bytes gives the samples back. */
  lemma SamplesOfEncode(xs: seq<u16>)
    ensures Samples(EncodeSamples(xs)) == xs
  {
    forall i | 0 <= i < |xs| ensures Samples(EncodeSamples(xs))[i] == xs[i] {
      EncodeSamplesAt(xs, i);
    }
  }

  lemma {:induction false} EncodeSamplesAppend(xs: seq<u16>, ys: seq<u16>)
    ensures EncodeSamples(xs + ys) == EncodeSamples(xs) + EncodeSamples(ys)
  {
    if xs != [] {
      assert (xs + ys)[1..] == xs[1..] + ys;
      EncodeSamplesAppend(xs[1..], ys);
    } else {
      assert xs + ys == ys;
    }
  }

  /** The samples of all rows, row after row. */
  function Flatten(rows: seq<seq<u16>>): (r: seq<u16>)
  {
    if rows == [] then [] else rows[0] + Flatten(rows[1..])
  }

  lemma {:induction false} FlattenSnoc(rows: seq<seq<u16>>, row: seq<u16>)
    ensures Flatten(rows + [row]) == Flatten(rows) + row
  {
    if rows != [] {
      assert (rows + [row])[1..] == rows[1..] + [row];
      FlattenSnoc(rows[1..], row);
    } else {
      assert [row][1..] == [];
    }
  }

  // ---------------------------------------------------------------------
  // Server end: cmd/managementd/main.go, `sendFrameToSockets`

  /** The frame the daemon sends: `uint16(len(json))` little-endian (so a
      header of 65536 bytes or more gets a wrapped-around prefix), the whole
      JSON header, then every row of `Pix` in order. */
  function Encoded(headerJson: seq<byte>, pix: seq<seq<u16>>): seq<byte>
  {
    U16LE((|headerJson| % 0x1_0000) as u16) + headerJson + EncodeSamples(Flatten(pix))
  }

  /** The encoder loop: writes the length prefix and the header into a
      fresh buffer, then appends each row. */
  method EncodeFrame(headerJson: seq<byte>, pix: seq<seq<u16>>) returns (buffer: seq<byte>)
    ensures buffer == Encoded(headerJson, pix)
    ensures |buffer| == 2 + |headerJson| + 2 * |Flatten(pix)|
  {
    var prefix := U16LE((|headerJson| % 0x1_0000) as u16) + headerJson;
    buffer := prefix;
    var i := 0;
    while i < |pix|
      invariant 0 <= i <= |pix|
      invariant buffer == prefix + EncodeSamples(Flatten(pix[..i]))
    {
      FlattenSnoc(pix[..i], pix[i]);
      assert pix[..i + 1] == pix[..i] + [pix[i]];
      EncodeSamplesAppend(Flatten(pix[..i]), pix[i]);
      buffer := buffer + EncodeSamples(pix[i]);
      i := i + 1;
    }
    assert pix[..|pix|] == pix;
  }

  // ---------------------------------------------------------------------
  // Client end: static/js/camera.ts, `parseFrame`

  /** The position `ArrayBuffer.slice` takes an index for: a negative index
      counts from the end of the buffer, and the result is clamped to
      [0, |data|]. */
  function SliceIndex(len: nat, i: int): (r: nat)
    ensures r <= len
    ensures 0 <= i <= len ==> r == i
    ensures i < 0 && len + i >= 0 ==> r == len + i
  {
    if i < 0 then (if len + i < 0 then 0 else len + i) else if i > len then len else i
  }

  /** `ArrayBuffer.slice(start, end)`: the bytes between the two positions,
      empty when the end lies before the start. */
  function Slice(data: seq<byte>, start: int, end: int): (r: seq<byte>)
    ensures 0 <= start <= end <= |data| ==> r == data[start..end]
    ensures var s := SliceIndex(|data|, start); var e := SliceIndex(|data|, end);
      r == if e <= s then [] else data[s..e]
    ensures |r| <= |data|
  {
    var s := SliceIndex(|data|, start);
    var e := SliceIndex(|data|, end);
    if e <= s then [] else data[s..e]
  }

  /** A negative end counts from the end of the buffer: with 101 bytes,
      `slice(10, -2)` is the 89 bytes from 10 to 99. */
  lemma NegativeEndFromBack(data: seq<byte>)
    requires |data| == 101
    ensures Slice(data, 10, -2) == data[10..99] && |Slice(data, 10, -2)| == 89
  {
  }

  /** The outcome of `parseFrame`: the promise rejects (`Throws`, when the
      header-length read outside the `try` fails), it resolves to `null`
      (`Dropped`), or to a frame. */
  datatype ParseOutcome = Throws | Dropped | Parsed(frame: Frame)

  /** `parseFrame`'s result together with the new `prevFrameNum` and
      `skippedFramesServer`. */
  datatype ParseResult = ParseResult(outcome: ParseOutcome, prevFrameNum: int, skipped: int)

  /** The skipped-frame bookkeeping of one decoded header: on the first frame
      (`prev == -1`) and when the frame follows its predecessor nothing is
      added, otherwise the whole difference `frameCount - prev` is. */
  function SkipStep(prev: int, skipped: int, frameCount: int): int
  {
    if prev != -1 && prev + 1 != frameCount then skipped + (frameCount - prev) else skipped
  }

  /** `parseFrame` on the bytes of one Blob message. The header length is the
      u16 in bytes [0, 2); the header is [2, 2 + L); the pixels are
      [2 + L, 2 + L + ResX * ResY * 2), with no check that the buffer is that
      long, and a negative end (a negative `ResX * ResY`) counted from the
      end of the buffer as `slice` does. An empty buffer yields an empty header, which `JSON.parse`
      rejects; a one-byte buffer makes the `Uint16Array` view throw before
      the `try`. A pixel slice of odd length throws inside the `try`, after
      `prevFrameNum` has been updated. */
  function ParseFrame(data: seq<byte>, prev: int, skipped: int, decodeHeader: seq<byte> -> Header): (r: ParseResult)
    ensures |data| == 1 ==> r == ParseResult(Throws, prev, skipped)
    ensures r.outcome.Throws? ==> |data| == 1
    ensures r.outcome.Parsed? ==>
      && |data| >= 2
      && decodeHeader(Slice(data, 2, 2 + HeaderLength(data))) == Complete(r.outcome.frame.frameInfo)
      && r.prevFrameNum == r.outcome.frame.frameInfo.Telemetry.FrameCount
    ensures r.outcome.Parsed? ==>
      var f := r.outcome.frame;
      f.frame == [] || (2 * |f.frame| <= |data| - 2 - HeaderLength(data)
                        && (f.frameInfo.Camera.ResX * f.frameInfo.Camera.ResY >= 0 ==>
                              |f.frame| <= f.frameInfo.Camera.ResX * f.frameInfo.Camera.ResY))
    ensures r.outcome.Parsed? ==>
      var f := r.outcome.frame;
      var start := 2 + HeaderLength(data);
      var px := Slice(data, start, start + f.frameInfo.Camera.ResX * f.frameInfo.Camera.ResY * 2);
      |px| % 2 == 0 && f.frame == Samples(px)
    ensures r.outcome.Dropped? <==>
      || |data| == 0
      || (|data| >= 2 &&
          var start := 2 + HeaderLength(data);
          match decodeHeader(Slice(data, 2, start))
          case Complete(info) => |Slice(data, start, start + info.Camera.ResX * info.Camera.ResY * 2)| % 2 != 0
          case _ => true)
  {
    if |data| == 0 then ParseResult(Dropped, prev, skipped)
    else if |data| == 1 then ParseResult(Throws, prev, skipped)
    else
      var frameStartOffset := 2 + HeaderLength(data);
      match decodeHeader(Slice(data, 2, frameStartOffset))
      case Malformed => ParseResult(Dropped, prev, skipped)
      case NoCamera(count) => ParseResult(Dropped, count, SkipStep(prev, skipped, count))
      case Complete(info) =>
        var count := info.Telemetry.FrameCount;
        var newSkipped := SkipStep(prev, skipped, count);
        var frameSizeInBytes := info.Camera.ResX * info.Camera.ResY * 2;
        var pixels := Slice(data, frameStartOffset, frameStartOffset + frameSizeInBytes);
        if |pixels| % 2 != 0 then ParseResult(Dropped, count, newSkipped)
        else
          ParseResult(Parsed(Frame(info, Samples(pixels))), count, newSkipped)
  }

  /** The u16 header length in the first two bytes, 0 when there are none. */
  function HeaderLength(data: seq<byte>): (r: nat)
    ensures r < 0x1_0000
  {
    if |data| < 2 then 0 else data[0] as int + 256 * data[1] as int
  }

  // ---------------------------------------------------------------------
  // Properties of the pair

  /** Round trip: the client reads back from the daemon's buffer exactly the
      header bytes and the samples that were encoded, as long as the header
      is shorter than 65536 bytes and `ResX * ResY` is the number of samples
      sent. */
  lemma RoundTrip(headerJson: seq<byte>, pix: seq<seq<u16>>, resX: int, resY: int)
    requires |headerJson| < 0x1_0000
    requires resX * resY == |Flatten(pix)|
    ensures var data := Encoded(headerJson, pix);
      && HeaderLength(data) == |headerJson|
      && Slice(data, 2, 2 + HeaderLength(data)) == headerJson
      && var px := Slice(data, 2 + |headerJson|, 2 + |headerJson| + resX * resY * 2);
         |px| % 2 == 0 && Samples(px) == Flatten(pix)
  {
    var data := Encoded(headerJson, pix);
    var body := EncodeSamples(Flatten(pix));
    assert data[..2] == U16LE(|headerJson| as u16);
    assert data[2..2 + |headerJson|] == headerJson;
    assert data[2 + |headerJson|..] == body;
    SamplesOfEncode(Flatten(pix));
  }

  /** With the frame's own resolution in a complete header, `parseFrame`
      returns exactly the frame the daemon encoded and records its number. */
  lemma ParseEncoded(headerJson: seq<byte>, pix: seq<seq<u16>>, info: FrameInfo,
                     prev: int, skipped: int, decodeHeader: seq<byte> -> Header)
    requires |headerJson| < 0x1_0000
    requires decodeHeader(headerJson) == Complete(info)
    requires info.Camera.ResX * info.Camera.ResY == |Flatten(pix)|
    ensures ParseFrame(Encoded(headerJson, pix), prev, skipped, decodeHeader)
      == ParseResult(Parsed(Frame(info, Flatten(pix))), info.Telemetry.FrameCount,
                     SkipStep(prev, skipped, info.Telemetry.FrameCount))
  {
    RoundTrip(headerJson, pix, info.Camera.ResX, info.Camera.ResY);
  }

  /** A header whose `ResX * ResY` is negative makes the pixel slice end
      count from the back of the buffer: with 101 bytes, an 8-byte header
      and `ResX * ResY == -6` the slice is bytes [10, 99), odd in length,
      so the frame is dropped after its number has been recorded. */
  lemma NegativeSizeDropped(data: seq<byte>, info: FrameInfo, prev: int, skipped: int,
                            decodeHeader: seq<byte> -> Header)
    requires |data| == 101 && HeaderLength(data) == 8
    requires decodeHeader(Slice(data, 2, 10)) == Complete(info)
    requires info.Camera.ResX * info.Camera.ResY == -6
    ensures ParseFrame(data, prev, skipped, decodeHeader)
      == ParseResult(Dropped, info.Telemetry.FrameCount, SkipStep(prev, skipped, info.Telemetry.FrameCount))
  {
    assert |Slice(data, 10, 10 + info.Camera.ResX * info.Camera.ResY * 2)| == 89;
  }

  /** A header of 65536 bytes or more gets a wrapped-around length prefix, so
      the client reads a strictly shorter header than the one sent. */
  lemma LongHeaderTruncated(headerJson: seq<byte>, pix: seq<seq<u16>>)
    requires |headerJson| >= 0x1_0000
    ensures HeaderLength(Encoded(headerJson, pix)) == |headerJson| % 0x1_0000
    ensures Slice(Encoded(headerJson, pix), 2, 2 + HeaderLength(Encoded(headerJson, pix)))
            == headerJson[..|headerJson| % 0x1_0000]
    ensures HeaderLength(Encoded(headerJson, pix)) < |headerJson|
  {
    var data := Encoded(headerJson, pix);
    assert data[..2] == U16LE((|headerJson| % 0x1_0000) as u16);
    var n := |headerJson| % 0x1_0000;
    assert data[2..2 + n] == headerJson[..n];
  }

  /** A header that fails to decode changes nothing and drops the frame. */
  lemma MalformedKeepsState(data: seq<byte>, prev: int, skipped: int, decodeHeader: seq<byte> -> Header)
    requires |data| >= 2
    requires decodeHeader(Slice(data, 2, 2 + HeaderLength(data))) == Malformed
    ensures ParseFrame(data, prev, skipped, decodeHeader) == ParseResult(Dropped, prev, skipped)
  {
  }

  /** Whenever the header's `Telemetry` was read, `prevFrameNum` becomes its
      frame count, even if the frame is then dropped because the `Camera` is
      missing or the pixel slice has odd length. */
  lemma PrevFrameAdvances(data: seq<byte>, prev: int, skipped: int, decodeHeader: seq<byte> -> Header)
    requires |data| >= 2
    ensures var h := decodeHeader(Slice(data, 2, 2 + HeaderLength(data)));
      var r := ParseFrame(data, prev, skipped, decodeHeader);
      && (h.NoCamera? ==> r.outcome.Dropped? && r.prevFrameNum == h.frameCount
                          && r.skipped == SkipStep(prev, skipped, h.frameCount))
      && (h.Complete? ==> r.prevFrameNum == h.info.Telemetry.FrameCount
                          && r.skipped == SkipStep(prev, skipped, h.info.Telemetry.FrameCount))
  {
  }

  // ---------------------------------------------------------------------
  // The skipped-frame counter over a run of frames

  /** `skippedFramesServer` after a run of decoded frame numbers, starting
      from `prevFrameNum == -1` and 0 skipped. */
  function SkippedAfter(nums: seq<int>): int
  {
    if |nums| <= 1 then 0
    else SkipStep(nums[|nums| - 2], SkippedAfter(nums[..|nums| - 1]), nums[|nums| - 1])
  }

  /** The number of neighbours in `nums` that follow each other by one. */
  function Successions(nums: seq<int>): nat
  {
    if |nums| <= 1 then 0
    else Successions(nums[..|nums| - 1]) + (if nums[|nums| - 2] + 1 == nums[|nums| - 1] then 1 else 0)
  }

  /** Over a run of frame numbers none of which is -1 except possibly the
      first, the counter ends at (last - first) minus the number of
      successions: every gap adds its full difference, so [5, 6, 8, 9] adds
      2 and a decreasing number adds a negative amount. */
  lemma {:induction false} SkippedClosedForm(nums: seq<int>)
    requires |nums| >= 1
    requires forall i :: 0 <= i < |nums| - 1 ==> nums[i] != -1
    ensures SkippedAfter(nums) == nums[|nums| - 1] - nums[0] - Successions(nums)
  {
    if |nums| > 1 {
      var init := nums[..|nums| - 1];
      SkippedClosedForm(init);
      assert init[0] == nums[0];
    }
  }

  lemma SkippedExamples()
    ensures SkippedAfter([5, 6, 8, 9]) == 2
    ensures SkippedAfter([5, 6, 7, 8]) == 0
    ensures SkippedAfter([5, 3]) == -2
  {
    SkippedClosedForm([5, 6, 8, 9]);
    SkippedClosedForm([5, 6, 7, 8]);
    assert [5, 6, 8, 9][..3] == [5, 6, 8];
    assert [5, 6, 8][..2] == [5, 6];
    assert [5, 6][..1] == [5];
    assert [5, 6, 7, 8][..3] == [5, 6, 7];
    assert [5, 6, 7][..2] == [5, 6];
    assert [5, 3][..1] == [5];
  }
}
