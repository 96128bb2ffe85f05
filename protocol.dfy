/** The byte-level protocol of the TL-300/TL-500 dataloggers: the 64-byte response buffer,
    the frames inside it and the scan that recovers them, and the little-endian timestamp
    that the "set time" request carries. */
module Protocol {
  import opened Wrappers

  /** Device timestamps count seconds from this Unix time (midnight of 2000-01-01 in UTC+1). */
  const TIME_OFFSET: int := 946681200

  const BUFFER_SIZE: nat := 64

  /** A frame is recognised only at a scan position below this one. */
  const FRAME_LIMIT: nat := 55

  const END_MARKER: int := 255

  type Byte = b: int | 0 <= b < 256

  /** A request or response buffer: always exactly 64 bytes. */
  type Buffer = s: seq<Byte> | |s| == BUFFER_SIZE witness seq(64, _ => 0)

  /** One reading as a frame carries it, before any sensor is attached to it. */
  datatype RawPoint = RawPoint(sensorId: int, rawValue: int, timestamp: int, signal: Option<int>)

  // ---------------------------------------------------------------------------
  // Integers in bytes
  // ---------------------------------------------------------------------------

  function LittleEndian16(lo: Byte, hi: Byte): nat { lo as int + 256 * hi as int }

  function BigEndian16(hi: Byte, lo: Byte): nat { 256 * hi as int + lo as int }

  function LittleEndian32(b: seq<Byte>): nat
    requires |b| == 4
  {
    b[0] as int + 256 * (b[1] as int + 256 * (b[2] as int + 256 * b[3] as int))
  }

  /** `n.to_bytes(4, byteorder='little')` for an `n` that fits in 32 bits. */
  function ToLittleEndian32(n: nat): (b: seq<Byte>)
    requires n < 0x1_0000_0000
    ensures |b| == 4 && LittleEndian32(b) == n
  {
    var r1 := n / 256;
    var r2 := r1 / 256;
    assert r2 < 0x1_0000;
    [n % 256, r1 % 256, r2 % 256, r2 / 256]
  }

  /** The other direction: four bytes read as a number and written back are the same bytes. */
  lemma LittleEndian32Bytes(b: seq<Byte>)
    requires |b| == 4
    ensures LittleEndian32(b) < 0x1_0000_0000 && ToLittleEndian32(LittleEndian32(b)) == b
  {
    var r2 := b[2] as int + 256 * b[3] as int;
    var r1 := b[1] as int + 256 * r2;
    var n := b[0] as int + 256 * r1;
    assert n / 256 == r1 && n % 256 == b[0];
    assert r1 / 256 == r2 && r1 % 256 == b[1];
    assert r2 / 256 == b[3] && r2 % 256 == b[2];
  }

  // ---------------------------------------------------------------------------
  // Frames
  // ---------------------------------------------------------------------------

  /** 9 starts a frame of 9 bytes, 10 a frame of 10 bytes whose last byte is the signal strength. */
  predicate IsMarker(b: Byte) { b == 9 || b == 10 }

  /** A frame is recognised at `p`: a marker byte at a position below 55. */
  predicate FrameAt(data: Buffer, p: int)
  {
    0 <= p < FRAME_LIMIT && IsMarker(data[p])
  }

  /** The fields a frame's reading may carry: 16-bit id and value, a 32-bit device time. */
  predicate Encodable(pt: RawPoint)
  {
    0 <= pt.sensorId < 0x1_0000 && 0 <= pt.rawValue < 0x1_0000
    && 0 <= pt.timestamp - TIME_OFFSET < 0x1_0000_0000
    && (pt.signal.Some? ==> 0 <= pt.signal.value < 256)
  }

  /** Reads the frame at `p`: a little-endian id, a big-endian value, a little-endian device
      time moved to the Unix epoch, and for marker 10 the signal byte. Every byte it reads
      lies inside the buffer because a frame starts below position 55. */
  function DecodeFrame(data: Buffer, p: int): (pt: RawPoint)
    requires FrameAt(data, p)
    ensures Encodable(pt)
    ensures pt.signal.Some? <==> data[p] == 10
  {
    RawPoint(LittleEndian16(data[p + 1], data[p + 2]),
             BigEndian16(data[p + 3], data[p + 4]),
             LittleEndian32(data[p + 5..p + 9]) + TIME_OFFSET,
             if data[p] == 10 then Some(data[p + 9]) else None)
  }

  function FrameLength(pt: RawPoint): nat { if pt.signal.Some? then 10 else 9 }

  /** The bytes of one frame, as a device would send them. */
  function EncodeFrame(pt: RawPoint): (b: seq<Byte>)
    requires Encodable(pt)
    ensures |b| == FrameLength(pt) && b[0] == FrameLength(pt)
  {
    [FrameLength(pt), pt.sensorId % 256, pt.sensorId / 256, pt.rawValue / 256, pt.rawValue % 256]
      + ToLittleEndian32(pt.timestamp - TIME_OFFSET)
      + (if pt.signal.Some? then [pt.signal.value] else [])
  }

  /** Encoding a reading and decoding the frame gives the reading back. */
  lemma DecodeEncoded(data: Buffer, p: nat, pt: RawPoint)
    requires Encodable(pt) && p < FRAME_LIMIT
    requires p + FrameLength(pt) <= BUFFER_SIZE && data[p..p + FrameLength(pt)] == EncodeFrame(pt)
    ensures FrameAt(data, p) && DecodeFrame(data, p) == pt
  {
    var b := EncodeFrame(pt);
    var time := ToLittleEndian32(pt.timestamp - TIME_OFFSET);
    BytesAt(data, p, b);
    assert b == [FrameLength(pt), pt.sensorId % 256, pt.sensorId / 256, pt.rawValue / 256, pt.rawValue % 256]
      + time + (if pt.signal.Some? then [pt.signal.value] else []);
    assert data[p] == FrameLength(pt);
    assert data[p + 1] == b[1] == pt.sensorId % 256 && data[p + 2] == b[2] == pt.sensorId / 256;
    assert data[p + 3] == b[3] == pt.rawValue / 256 && data[p + 4] == b[4] == pt.rawValue % 256;
    assert data[p + 5..p + 9] == time by {
      forall j | 0 <= j < 4 ensures data[p + 5 + j] == time[j] {
        assert b[5 + j] == time[j];
      }
    }
    if pt.signal.Some? {
      assert data[p + 9] == b[9] == pt.signal.value;
    }
    SplitSixteen(pt.sensorId);
    SplitSixteen(pt.rawValue);
    var d := DecodeFrame(data, p);
    assert d.sensorId == pt.sensorId && d.rawValue == pt.rawValue;
    assert d.timestamp == pt.timestamp && d.signal == pt.signal;
  }

  /** The bytes of `b` stored from position `p` on, one by one. */
  lemma BytesAt(data: Buffer, p: nat, b: seq<Byte>)
    requires p + |b| <= BUFFER_SIZE && data[p..p + |b|] == b
    ensures forall k :: 0 <= k < |b| ==> data[p + k] == b[k]
  {
    forall k | 0 <= k < |b| ensures data[p + k] == b[k] {
      assert data[p..p + |b|][k] == data[p + k];
    }
  }

  /** A 16-bit number split into its low and high byte is read back in either byte order. */
  lemma SplitSixteen(n: int)
    requires 0 <= n < 0x1_0000
    ensures 0 <= n % 256 < 256 && 0 <= n / 256 < 256
    ensures LittleEndian16(n % 256, n / 256) == n && BigEndian16(n / 256, n % 256) == n
  {
  }

  /** Decoding a frame and encoding the reading gives back the bytes of the frame. */
  lemma EncodeDecoded(data: Buffer, p: nat)
    requires FrameAt(data, p)
    ensures EncodeFrame(DecodeFrame(data, p)) == data[p..p + data[p]]
  {
    var pt := DecodeFrame(data, p);
    var time := data[p + 5..p + 9];
    LittleEndian32Bytes(time);
    assert ToLittleEndian32(pt.timestamp - TIME_OFFSET) == time;
    var b := EncodeFrame(pt);
    assert b[1] == data[p + 1] && b[2] == data[p + 2];
    assert b[3] == data[p + 3] && b[4] == data[p + 4];
    forall k | 0 <= k < data[p] ensures b[k] == data[p + k] {
      if 5 <= k < 9 {
        assert b[k] == time[k - 5];
      }
    }
  }

  // ---------------------------------------------------------------------------
  // The scan of a response buffer (parseData), as written
  // ---------------------------------------------------------------------------

  /** The position the scan examines after `p` (when `p` is not the end marker): the frame
      reader always skips 8 bytes beyond the marker, so the next position is `p + 9` for both
      frame lengths. */
  function Next(data: Buffer, p: nat): (q: nat)
    requires p < BUFFER_SIZE
    ensures p < q <= BUFFER_SIZE
  {
    if FrameAt(data, p) then p + 9 else p + 1
  }

  /** The positions at which the scan, started at `p`, recognises a frame: 0 is padding,
      255 ends the scan, a marker below 55 is a frame, anything else is skipped. Every
      position recognised is a frame at or after `p`. */
  function Starts(data: Buffer, p: nat): (r: seq<nat>)
    requires p <= BUFFER_SIZE
    ensures forall i :: 0 <= i < |r| ==> p <= r[i] && FrameAt(data, r[i])
    decreases BUFFER_SIZE - p
  {
    if p == BUFFER_SIZE then []
    else if data[p] == 0 then Starts(data, p + 1)
    else if data[p] == END_MARKER then []
    else if FrameAt(data, p) then [p] + Starts(data, p + 9)
    else Starts(data, p + 1)
  }

  /** Frames are recognised only below 55 and 9 apart, so from `p` on there are at most
      `(54 - p) / 9 + 1` of them. */
  lemma {:induction false} StartsBound(data: Buffer, p: nat)
    requires p <= BUFFER_SIZE
    ensures |Starts(data, p)| <= if p < FRAME_LIMIT then (FRAME_LIMIT - 1 - p) / 9 + 1 else 0
    decreases BUFFER_SIZE - p
  {
    if p < BUFFER_SIZE && data[p] != END_MARKER {
      if data[p] != 0 && FrameAt(data, p) {
        StartsBound(data, p + 9);
      } else {
        StartsBound(data, p + 1);
      }
    }
  }

  /** Recognised frames lie at least 9 bytes apart: no frame is read inside another one. */
  lemma {:induction false} StartsSpaced(data: Buffer, p: nat)
    requires p <= BUFFER_SIZE
    ensures forall i, j :: 0 <= i < j < |Starts(data, p)| ==> Starts(data, p)[i] + 9 <= Starts(data, p)[j]
    decreases BUFFER_SIZE - p
  {
    if p < BUFFER_SIZE && data[p] != END_MARKER {
      if FrameAt(data, p) {
        StartsSpaced(data, p + 9);
        var s, t := Starts(data, p), Starts(data, p + 9);
        assert s == [p] + t;
        forall i, j | 0 <= i < j < |s| ensures s[i] + 9 <= s[j] {
          assert s[j] == t[j - 1];
          if i > 0 {
            assert s[i] == t[i - 1];
          }
        }
      } else {
        StartsSpaced(data, p + 1);
      }
    }
  }

  /** Position `q` is examined by the scan started at `p`. */
  predicate Examines(data: Buffer, p: nat, q: nat)
    requires p <= BUFFER_SIZE
    decreases BUFFER_SIZE - p
  {
    p < BUFFER_SIZE && (q == p || (data[p] != END_MARKER && Examines(data, Next(data, p), q)))
  }

  function Decoded(data: Buffer, starts: seq<nat>): seq<RawPoint>
    requires forall i :: 0 <= i < |starts| ==> FrameAt(data, starts[i])
  {
    seq(|starts|, i requires 0 <= i < |starts| => DecodeFrame(data, starts[i]))
  }

  /** The readings `parseData` returns for a response buffer, in buffer order: a response
      holds at most 7 of them. */
  function Points(data: Buffer): (r: seq<RawPoint>)
    ensures |r| <= 7
  {
    StartsBound(data, 0);
    PointsFrom(data, 0)
  }

  /** The readings of the frames the scan recognises from position `p` on: one per
      recognised frame, decoded from the bytes at that frame. */
  function PointsFrom(data: Buffer, p: nat): (r: seq<RawPoint>)
    requires p <= BUFFER_SIZE
    ensures |r| == |Starts(data, p)|
    ensures forall i :: 0 <= i < |r| ==> r[i] == DecodeFrame(data, Starts(data, p)[i])
  {
    Decoded(data, Starts(data, p))
  }

  lemma {:induction false} ExaminedFromStart(data: Buffer, p: nat, q: nat)
    requires p <= BUFFER_SIZE && Examines(data, p, q)
    ensures p <= q < BUFFER_SIZE
    decreases BUFFER_SIZE - p
  {
    if q != p {
      ExaminedFromStart(data, Next(data, p), q);
    }
  }

  /** Once the scan examines a 255 it stops: no frame is recognised at or after it. */
  lemma {:induction false} EndMarkerStopsScan(data: Buffer, p: nat, q: nat)
    requires p <= BUFFER_SIZE && q < BUFFER_SIZE && Examines(data, p, q) && data[q] == END_MARKER
    ensures forall i :: 0 <= i < |Starts(data, p)| ==> Starts(data, p)[i] < q
    decreases BUFFER_SIZE - p
  {
    if q != p {
      ExaminedFromStart(data, Next(data, p), q);
      EndMarkerStopsScan(data, Next(data, p), q);
    }
  }

  /** A frame marker that the scan examines is recognised as a frame. */
  lemma {:induction false} ExaminedFrameIsRead(data: Buffer, p: nat, q: nat)
    requires p <= BUFFER_SIZE && Examines(data, p, q) && FrameAt(data, q)
    ensures q in Starts(data, p)
    decreases BUFFER_SIZE - p
  {
    if q != p {
      ExaminedFrameIsRead(data, Next(data, p), q);
    }
  }

  /** After a frame at `q` the scan resumes at `q + 9`: nothing in between is examined,
      and `q + 9` is, which for a 10-byte frame is its own signal byte. */
  lemma {:induction false} FrameSkipsEightBytes(data: Buffer, p: nat, q: nat)
    requires p <= BUFFER_SIZE && Examines(data, p, q) && FrameAt(data, q)
    ensures Examines(data, p, q + 9)
    ensures forall r :: q < r < q + 9 ==> !Examines(data, p, r)
    decreases BUFFER_SIZE - p
  {
    if q != p {
      ExaminedFromStart(data, Next(data, p), q);
      FrameSkipsEightBytes(data, Next(data, p), q);
    } else {
      forall r | q < r < q + 9 ensures !Examines(data, p, r) {
        if Examines(data, p, r) {
          ExaminedFromStart(data, Next(data, p), r);
        }
      }
    }
  }

  // ---------------------------------------------------------------------------
  // Round trip: buffers made of encoded frames
  // ---------------------------------------------------------------------------

  function EncodeFrames(pts: seq<RawPoint>): (b: seq<Byte>)
    requires forall i :: 0 <= i < |pts| ==> Encodable(pts[i])
  {
    if pts == [] then [] else EncodeFrame(pts[0]) + EncodeFrames(pts[1..])
  }

  /** Every frame of `pts`, laid out from position `p` on, starts below position 55. */
  predicate FitsFrom(p: nat, pts: seq<RawPoint>)
    decreases |pts|
  {
    pts == [] || (p < FRAME_LIMIT && FitsFrom(p + FrameLength(pts[0]), pts[1..]))
  }

  /** The signal byte of a 10-byte frame is examined again by the scan; it is read as noise
      unless it is 9, 10 or 255. */
  predicate SignalIsNoise(pt: RawPoint)
  {
    pt.signal.Some? ==> pt.signal.value != 9 && pt.signal.value != 10 && pt.signal.value != END_MARKER
  }

  lemma {:induction false} EncodeFramesLength(pts: seq<RawPoint>, p: nat)
    requires forall i :: 0 <= i < |pts| ==> Encodable(pts[i])
    requires p <= BUFFER_SIZE && FitsFrom(p, pts)
    ensures p + |EncodeFrames(pts)| <= BUFFER_SIZE
    decreases |pts|
  {
    if pts != [] {
      EncodeFramesLength(pts[1..], p + FrameLength(pts[0]));
    }
  }

  /** A buffer holding encoded frames from `p` on holds the first frame at `p` and the
      others right behind it. */
  lemma SplitEncoded(data: Buffer, p: nat, pts: seq<RawPoint>)
    requires forall i :: 0 <= i < |pts| ==> Encodable(pts[i])
    requires pts != [] && p + |EncodeFrames(pts)| <= BUFFER_SIZE
    requires data[p..p + |EncodeFrames(pts)|] == EncodeFrames(pts)
    ensures |EncodeFrames(pts)| == FrameLength(pts[0]) + |EncodeFrames(pts[1..])|
    ensures data[p..p + FrameLength(pts[0])] == EncodeFrame(pts[0])
    ensures var q := p + FrameLength(pts[0]);
            data[q..q + |EncodeFrames(pts[1..])|] == EncodeFrames(pts[1..])
  {
    assert EncodeFrames(pts) == EncodeFrame(pts[0]) + EncodeFrames(pts[1..]);
    SliceSplit(data, p, EncodeFrame(pts[0]), EncodeFrames(pts[1..]));
  }

  /** A stretch of the buffer that holds `x + y` holds `x` and then `y`. */
  lemma SliceSplit(data: Buffer, p: nat, x: seq<Byte>, y: seq<Byte>)
    requires p + |x| + |y| <= BUFFER_SIZE && data[p..p + |x| + |y|] == x + y
    ensures data[p..p + |x|] == x && data[p + |x|..p + |x| + |y|] == y
  {
    var whole := data[p..p + |x| + |y|];
    assert data[p..p + |x|] == whole[..|x|];
    assert data[p + |x|..p + |x| + |y|] == whole[|x|..];
  }

  lemma DecodedCons(data: Buffer, p: nat, rest: seq<nat>)
    requires FrameAt(data, p) && forall i :: 0 <= i < |rest| ==> FrameAt(data, rest[i])
    ensures Decoded(data, [p] + rest) == [DecodeFrame(data, p)] + Decoded(data, rest)
  {
  }

  /** An encoded frame whose signal byte is noise: the scan reads it and goes on right
      behind it. */
  lemma ScanOneFrame(data: Buffer, p: nat, pt: RawPoint)
    requires Encodable(pt) && SignalIsNoise(pt) && p < FRAME_LIMIT
    requires p + FrameLength(pt) <= BUFFER_SIZE && data[p..p + FrameLength(pt)] == EncodeFrame(pt)
    ensures FrameAt(data, p) && DecodeFrame(data, p) == pt
    ensures Starts(data, p) == [p] + Starts(data, p + FrameLength(pt))
  {
    DecodeEncoded(data, p, pt);
    assert data[p] == data[p..p + FrameLength(pt)][0] == FrameLength(pt);
    if pt.signal.Some? {
      assert data[p + 9] == data[p..p + FrameLength(pt)][9] == pt.signal.value;
    }
  }

  /** The scan reads back every frame of a buffer built from encoded readings, provided
      no signal byte looks like a marker or the end marker. */
  lemma {:induction false} ScanEncodedFrames(data: Buffer, p: nat, pts: seq<RawPoint>)
    requires forall i :: 0 <= i < |pts| ==> Encodable(pts[i]) && SignalIsNoise(pts[i])
    requires FitsFrom(p, pts)
    requires p + |EncodeFrames(pts)| <= BUFFER_SIZE
    requires data[p..p + |EncodeFrames(pts)|] == EncodeFrames(pts)
    requires Starts(data, p + |EncodeFrames(pts)|) == []
    ensures PointsFrom(data, p) == pts
    decreases |pts|
  {
    if pts != [] {
      var q, rest := p + FrameLength(pts[0]), pts[1..];
      EncodedTail(data, p, pts);
      ScanEncodedFrames(data, q, rest);
      PointsFromCons(data, p, q);
      assert pts == [pts[0]] + rest;
    }
  }

  /** The first frame of an encoded buffer is read, and the rest of the buffer meets the
      conditions of `ScanEncodedFrames` from right behind it. */
  lemma EncodedTail(data: Buffer, p: nat, pts: seq<RawPoint>)
    requires pts != [] && forall i :: 0 <= i < |pts| ==> Encodable(pts[i]) && SignalIsNoise(pts[i])
    requires FitsFrom(p, pts)
    requires p + |EncodeFrames(pts)| <= BUFFER_SIZE
    requires data[p..p + |EncodeFrames(pts)|] == EncodeFrames(pts)
    requires Starts(data, p + |EncodeFrames(pts)|) == []
    ensures FrameAt(data, p) && DecodeFrame(data, p) == pts[0]
    ensures Starts(data, p) == [p] + Starts(data, p + FrameLength(pts[0]))
    ensures forall i :: 0 <= i < |pts[1..]| ==> Encodable(pts[1..][i]) && SignalIsNoise(pts[1..][i])
    ensures FitsFrom(p + FrameLength(pts[0]), pts[1..])
    ensures p + FrameLength(pts[0]) + |EncodeFrames(pts[1..])| <= BUFFER_SIZE
    ensures data[p + FrameLength(pts[0])..p + FrameLength(pts[0]) + |EncodeFrames(pts[1..])|] == EncodeFrames(pts[1..])
    ensures Starts(data, p + FrameLength(pts[0]) + |EncodeFrames(pts[1..])|) == []
  {
    SplitEncoded(data, p, pts);
    ScanOneFrame(data, p, pts[0]);
    assert p + FrameLength(pts[0]) + |EncodeFrames(pts[1..])| == p + |EncodeFrames(pts)|;
  }

  /** A frame at `p` that the scan reads before going on at `q`: its reading comes first. */
  lemma PointsFromCons(data: Buffer, p: nat, q: nat)
    requires q <= BUFFER_SIZE && FrameAt(data, p) && Starts(data, p) == [p] + Starts(data, q)
    ensures PointsFrom(data, p) == [DecodeFrame(data, p)] + PointsFrom(data, q)
  {
    DecodedCons(data, p, Starts(data, q));
  }

  /** The buffer a device would send for `pts`: the frames, the end marker, zero padding. */
  function ResponseOf(pts: seq<RawPoint>): Buffer
    requires forall i :: 0 <= i < |pts| ==> Encodable(pts[i])
    requires |EncodeFrames(pts)| < BUFFER_SIZE
  {
    EncodeFrames(pts) + [END_MARKER] + seq(BUFFER_SIZE - 1 - |EncodeFrames(pts)|, _ => 0)
  }

  /** `parseData` returns exactly the readings a response was built from. */
  lemma ResponseRoundTrip(pts: seq<RawPoint>)
    requires forall i :: 0 <= i < |pts| ==> Encodable(pts[i]) && SignalIsNoise(pts[i])
    requires FitsFrom(0, pts) && |EncodeFrames(pts)| < BUFFER_SIZE
    ensures Points(ResponseOf(pts)) == pts
  {
    var data, enc := ResponseOf(pts), EncodeFrames(pts);
    assert data[..|enc|] == enc;
    assert data[|enc|] == END_MARKER;
    ScanEncodedFrames(data, 0, pts);
  }

  /** A 9-byte frame for sensor 1 with value 10 at device time 0, then the end marker. */
  lemma ExampleShortFrame()
    ensures Points([9, 1, 0, 0, 10, 0, 0, 0, 0, 255] + seq(54, _ => 0))
         == [RawPoint(1, 10, 946681200, None)]
  {
    var data: Buffer := [9, 1, 0, 0, 10, 0, 0, 0, 0, 255] + seq(54, _ => 0);
    var pt := RawPoint(1, 10, 946681200, None);
    assert EncodeFrames([pt]) == [9, 1, 0, 0, 10, 0, 0, 0, 0];
    assert data[9] == END_MARKER;
    ScanEncodedFrames(data, 0, [pt]);
  }

  /** The same reading in a 10-byte frame with signal strength 7. */
  lemma ExampleFrameWithSignal()
    ensures Points([10, 1, 0, 0, 10, 0, 0, 0, 0, 7, 255] + seq(53, _ => 0))
         == [RawPoint(1, 10, 946681200, Some(7))]
  {
    var data: Buffer := [10, 1, 0, 0, 10, 0, 0, 0, 0, 7, 255] + seq(53, _ => 0);
    var pt := RawPoint(1, 10, 946681200, Some(7));
    assert EncodeFrames([pt]) == [10, 1, 0, 0, 10, 0, 0, 0, 0, 7];
    assert data[10] == END_MARKER;
    ScanEncodedFrames(data, 0, [pt]);
  }

  // ---------------------------------------------------------------------------
  // The signal byte of a 10-byte frame is scanned again
  // ---------------------------------------------------------------------------

  /** A 10-byte frame from sensor 1 with signal strength 9, a 9-byte frame from sensor 2,
      the end marker and padding. */
  const RescanExample: Buffer :=
    [10, 1, 0, 0, 10, 0, 0, 0, 0, 9] + [9, 2, 0, 0, 20, 0, 0, 0, 0] + [255] + seq(44, _ => 0)

  /** `RescanExample` is what a device sends for these two readings. */
  lemma RescanExampleEncodes()
    ensures RescanExample[..19]
         == EncodeFrames([RawPoint(1, 10, TIME_OFFSET, Some(9)), RawPoint(2, 20, TIME_OFFSET, None)])
    ensures RescanExample[19] == END_MARKER
  {
    var first, second := RawPoint(1, 10, TIME_OFFSET, Some(9)), RawPoint(2, 20, TIME_OFFSET, None);
    assert EncodeFrames([second]) == [9, 2, 0, 0, 20, 0, 0, 0, 0];
    assert [first, second][1..] == [second];
  }

  /** On `RescanExample` the scan reads the signal byte as a marker: it reports a reading
      from sensor 521 that no device sent and loses the reading of sensor 2. */
  lemma SignalByteReadAsMarker()
    ensures Points(RescanExample)
         == [RawPoint(1, 10, TIME_OFFSET, Some(9)), RawPoint(521, 0, TIME_OFFSET + 20, None)]
  {
    RescanStarts();
    RescanFirstFrame();
    RescanSecondFrame();
  }

  /** The scan of `RescanExample` recognises frames at 0 and at 9, the signal byte. */
  lemma RescanStarts()
    ensures Starts(RescanExample, 0) == [0, 9]
  {
    var data := RescanExample;
    assert data[0] == 10 && data[9] == 9 && data[18] == 0 && data[19] == END_MARKER;
    assert Starts(data, 18) == Starts(data, 19) == [];
    assert Starts(data, 9) == [9];
  }

  lemma RescanFirstFrame()
    ensures FrameAt(RescanExample, 0) && DecodeFrame(RescanExample, 0) == RawPoint(1, 10, TIME_OFFSET, Some(9))
  {
    var data := RescanExample;
    assert data[..10] == [10, 1, 0, 0, 10, 0, 0, 0, 0, 9];
    assert data[0] == 10 && data[1] == 1 && data[2] == 0 && data[3] == 0 && data[4] == 10 && data[9] == 9;
    assert data[5..9] == [0, 0, 0, 0];
  }

  lemma RescanSecondFrame()
    ensures FrameAt(RescanExample, 9) && DecodeFrame(RescanExample, 9) == RawPoint(521, 0, TIME_OFFSET + 20, None)
  {
    var data := RescanExample;
    assert data[9..19] == [9, 9, 2, 0, 0, 20, 0, 0, 0, 0];
    assert data[9] == 9 && data[10] == 9 && data[11] == 2 && data[12] == 0 && data[13] == 0;
    assert data[14..18] == [20, 0, 0, 0];
  }

  /** The scan as the frame format intends it: after a frame, resume right behind its last
      byte, `marker` positions further on. */
  function StartsByLength(data: Buffer, p: nat): (s: seq<nat>)
    requires p <= BUFFER_SIZE
    ensures forall i :: 0 <= i < |s| ==> p <= s[i] && FrameAt(data, s[i])
    decreases BUFFER_SIZE - p
  {
    if p == BUFFER_SIZE then []
    else if data[p] == 0 then StartsByLength(data, p + 1)
    else if data[p] == END_MARKER then []
    else if FrameAt(data, p) then [p] + StartsByLength(data, p + data[p])
    else StartsByLength(data, p + 1)
  }

  /** The intended scan reads back every buffer built from encoded readings, whatever
      their signal strengths. */
  lemma {:induction false} ScanByLengthEncodedFrames(data: Buffer, p: nat, pts: seq<RawPoint>)
    requires forall i :: 0 <= i < |pts| ==> Encodable(pts[i])
    requires FitsFrom(p, pts)
    requires p + |EncodeFrames(pts)| <= BUFFER_SIZE
    requires data[p..p + |EncodeFrames(pts)|] == EncodeFrames(pts)
    requires StartsByLength(data, p + |EncodeFrames(pts)|) == []
    ensures Decoded(data, StartsByLength(data, p)) == pts
    decreases |pts|
  {
    if pts != [] {
      ByLengthTail(data, p, pts);
      ScanByLengthEncodedFrames(data, p + FrameLength(pts[0]), pts[1..]);
      DecodedCons(data, p, StartsByLength(data, p + FrameLength(pts[0])));
      assert pts == [pts[0]] + pts[1..];
    }
  }

  /** The first frame of an encoded buffer is read by the intended scan, and the rest of
      the buffer meets the conditions of `ScanByLengthEncodedFrames` right behind it. */
  lemma ByLengthTail(data: Buffer, p: nat, pts: seq<RawPoint>)
    requires pts != [] && forall i :: 0 <= i < |pts| ==> Encodable(pts[i])
    requires FitsFrom(p, pts)
    requires p + |EncodeFrames(pts)| <= BUFFER_SIZE
    requires data[p..p + |EncodeFrames(pts)|] == EncodeFrames(pts)
    requires StartsByLength(data, p + |EncodeFrames(pts)|) == []
    ensures FrameAt(data, p) && DecodeFrame(data, p) == pts[0]
    ensures StartsByLength(data, p) == [p] + StartsByLength(data, p + FrameLength(pts[0]))
    ensures forall i :: 0 <= i < |pts[1..]| ==> Encodable(pts[1..][i])
    ensures FitsFrom(p + FrameLength(pts[0]), pts[1..])
    ensures p + FrameLength(pts[0]) + |EncodeFrames(pts[1..])| <= BUFFER_SIZE
    ensures data[p + FrameLength(pts[0])..p + FrameLength(pts[0]) + |EncodeFrames(pts[1..])|] == EncodeFrames(pts[1..])
    ensures StartsByLength(data, p + FrameLength(pts[0]) + |EncodeFrames(pts[1..])|) == []
  {
    SplitEncoded(data, p, pts);
    ByLengthOneFrame(data, p, pts[0]);
    assert p + FrameLength(pts[0]) + |EncodeFrames(pts[1..])| == p + |EncodeFrames(pts)|;
  }

  /** An encoded frame, whatever its signal byte: the intended scan reads it and goes on
      right behind it. */
  lemma ByLengthOneFrame(data: Buffer, p: nat, pt: RawPoint)
    requires Encodable(pt) && p < FRAME_LIMIT
    requires p + FrameLength(pt) <= BUFFER_SIZE && data[p..p + FrameLength(pt)] == EncodeFrame(pt)
    ensures FrameAt(data, p) && DecodeFrame(data, p) == pt
    ensures StartsByLength(data, p) == [p] + StartsByLength(data, p + FrameLength(pt))
  {
    DecodeEncoded(data, p, pt);
    assert data[p] == data[p..p + FrameLength(pt)][0] == FrameLength(pt);
  }

  /** With the intended scan `RescanExample` reads back as the two readings it was built from. */
  lemma SignalByteSkippedByLength()
    ensures Decoded(RescanExample, StartsByLength(RescanExample, 0))
         == [RawPoint(1, 10, TIME_OFFSET, Some(9)), RawPoint(2, 20, TIME_OFFSET, None)]
  {
    var first, second := RawPoint(1, 10, TIME_OFFSET, Some(9)), RawPoint(2, 20, TIME_OFFSET, None);
    RescanExampleEncodes();
    ScanByLengthEncodedFrames(RescanExample, 0, [first, second]);
  }
}
