/**
 The frames that the archive client and its worker exchange: one tag byte, a four-byte
 little-endian length and a payload of at most 64 KiB.
 */
module Protocol {
  import opened Bytes

  const MAX_FRAME: nat := 65536
  const HEADER: nat := 5

  const READY: byte := 1
  const OPEN: byte := 2
  const ARCHIVE: byte := 3
  const BLOCK: byte := 4
  const ENTRY: byte := 5
  const INVENTORY_END: byte := 6
  const DECODE: byte := 7
  const BEGIN: byte := 8
  const DATA: byte := 9
  const END: byte := 10
  const COMPLETE: byte := 11
  const FAILURE: byte := 12
  const HEARTBEAT: byte := 13

  datatype ImportError =
    | Unavailable | ResourceLimit | WorkerFailed | Unsupported | Encrypted | SourceChanged
    | Corrupt | Limit | Cancelled | TimedOut | Io

  datatype Result<T> = Ok(value: T) | Err(error: ImportError)

  datatype Frame = Frame(tag: byte, payload: seq<byte>)

  const BEAT := Frame(HEARTBEAT, [])

  predicate Fits(f: Frame) { |f.payload| <= MAX_FRAME }

  predicate AllFit(fs: seq<Frame>) { forall i :: 0 <= i < |fs| ==> Fits(fs[i]) }

  function Encode(f: Frame): (b: seq<byte>)
    ensures |b| == HEADER + |f.payload|
  {
    [f.tag] + LittleEndian(|f.payload|, 4) + f.payload
  }

  /** The frame at the head of `b` and what follows it, as `read_frame` takes it. */
  function Decode(b: seq<byte>): Result<(Frame, seq<byte>)> {
    if |b| < HEADER then Err(Io) else
    var length := FromLittleEndian(b[1..HEADER]);
    if length > MAX_FRAME then Err(Limit)
    else if |b| < HEADER + length then Err(Io)
    else Ok((Frame(b[0], b[HEADER..HEADER + length]), b[HEADER + length..]))
  }

  /** An eight-byte index, as `index` reads it; anything else is refused. */
  function ReadIndex(b: seq<byte>): Result<nat> {
    if |b| != 8 then Err(Corrupt) else Ok(FromLittleEndian(b))
  }

  function Index(n: nat): seq<byte> { LittleEndian(n, 8) }

  function Number(a: int, b: int, c: int, d: int): int { a + 0x100 * b + 0x1_0000 * c + 0x100_0000 * d }

  /** A frame on the wire: its tag, its length with the low byte first, its payload. */
  lemma {:induction false} WireFormat(f: Frame)
    requires Fits(f)
    ensures
      var b := Encode(f);
      && b[0] == f.tag && b[5..] == f.payload
      && Number(b[1], b[2], b[3], b[4]) == |f.payload| <= 64 * 1024
    ensures [READY, OPEN, ARCHIVE, BLOCK, ENTRY, INVENTORY_END] == [1, 2, 3, 4, 5, 6]
    ensures [DECODE, BEGIN, DATA, END, COMPLETE, FAILURE, HEARTBEAT] == [7, 8, 9, 10, 11, 12, 13]
  {
    var b, n := Encode(f), |f.payload|;
    FourBytes(n);
    assert b[1..5] == LittleEndian(n, 4) && b[5..] == f.payload;
    assert b[1] == b[1..5][0] && b[2] == b[1..5][1] && b[3] == b[1..5][2] && b[4] == b[1..5][3];
  }

  lemma {:induction false} FourBytes(n: nat)
    requires n < TWO_32
    ensures
      var s := LittleEndian(n, 4);
      Number(s[0], s[1], s[2], s[3]) == n
  {
    var s := LittleEndian(n, 4);
    var n1, n2, n3 := n / 256, n / 256 / 256, n / 256 / 256 / 256;
    assert s == [n % 256, n1 % 256, n2 % 256, n3 % 256] by {
      assert LittleEndian(n3, 1) == [n3 % 256] + LittleEndian(n3 / 256, 0);
      assert LittleEndian(n2, 2) == [n2 % 256] + LittleEndian(n3, 1);
      assert LittleEndian(n1, 3) == [n1 % 256] + LittleEndian(n2, 2);
    }
    assert n == 256 * n1 + n % 256 && n1 == 256 * n2 + n1 % 256 && n2 == 256 * n3 + n2 % 256;
    assert n3 < 256;
  }

  lemma {:induction false} IndexReadsBack(n: nat)
    requires n < TWO_64
    ensures ReadIndex(Index(n)) == Ok(n)
  {
    Widths();
    ReadBack(n, 8);
  }

  /** An index is eight bytes, no more and no less. */
  lemma {:induction false} IndexIsEightBytes(b: seq<byte>)
    ensures |b| == 8 ==> ReadIndex(b).Ok? && Index(ReadIndex(b).value) == b && ReadIndex(b).value < TWO_64
    ensures |b| != 8 ==> ReadIndex(b) == Err(Corrupt)
  {
    if |b| == 8 {
      WriteBack(b);
      Widths();
    }
  }

  // ---------------------------------------------------------------- one frame

  /** What is refused, and why: a header that claims more than 64 KiB is over the limit before any of its
      payload is looked at, and anything that stops short is an I/O error. */
  lemma {:induction false} RefusedFrames(b: seq<byte>)
    ensures Decode(b) == Err(Limit) <==> |b| >= 5 && FromLittleEndian(b[1..5]) > 64 * 1024
    ensures Decode(b) == Err(Io) <==>
      |b| < 5 || (FromLittleEndian(b[1..5]) <= 64 * 1024 && |b| < 5 + FromLittleEndian(b[1..5]))
    ensures Decode(b).Err? ==> Decode(b).error == Limit || Decode(b).error == Io
  {
  }

  /** Where a frame starts, reading gives that frame and exactly its 5 + length bytes. */
  lemma {:induction false} DecodeEncoded(f: Frame, rest: seq<byte>)
    requires Fits(f)
    ensures Decode(Encode(f) + rest) == Ok((f, rest))
  {
    var b := Encode(f) + rest;
    assert b[1..HEADER] == LittleEndian(|f.payload|, 4);
    Widths();
    ReadBack(|f.payload|, 4);
  }

  /** Conversely, whatever is read was the encoding of a frame that fits. */
  lemma {:induction false} DecodeExact(b: seq<byte>)
    requires Decode(b).Ok?
    ensures
      var (f, rest) := Decode(b).value;
      Fits(f) && b == Encode(f) + rest
  {
    var (f, rest) := Decode(b).value;
    WriteBack(b[1..HEADER]);
    assert b == [b[0]] + b[1..HEADER] + b[HEADER..HEADER + |f.payload|] + rest;
  }

  /** A frame cut short anywhere is refused. */
  lemma {:induction false} CutFrameRefused(f: Frame, p: seq<byte>)
    requires Fits(f) && p < Encode(f)
    ensures Decode(p) == Err(Io)
  {
    if |p| >= HEADER {
      assert p[1..HEADER] == Encode(f)[1..HEADER] == LittleEndian(|f.payload|, 4);
      Widths();
      ReadBack(|f.payload|, 4);
    }
  }

  // ---------------------------------------------------------------- streams

  function EncodeAll(fs: seq<Frame>): seq<byte> {
    if fs == [] then [] else Encode(fs[0]) + EncodeAll(fs[1..])
  }

  /** Every frame read from `b` up to the error that ends the stream. */
  function ReadAll(b: seq<byte>): (seq<Frame>, ImportError)
    decreases |b|
  {
    match Decode(b)
    case Err(e) => ([], e)
    case Ok((f, rest)) =>
      var (fs, e) := ReadAll(rest);
      ([f] + fs, e)
  }

  function DropBeats(fs: seq<Frame>): seq<Frame> {
    if fs == [] then [] else (if fs[0] == BEAT then [] else [fs[0]]) + DropBeats(fs[1..])
  }

  lemma {:induction false} ReadAllStep(b: seq<byte>)
    ensures match Decode(b)
            case Err(e) => ReadAll(b) == ([], e)
            case Ok((f, rest)) =>
              && ReadAll(b).1 == ReadAll(rest).1
              && DropBeats(ReadAll(b).0) == (if f == BEAT then [] else [f]) + DropBeats(ReadAll(rest).0)
  {
    if Decode(b).Ok? {
      var (f, rest) := Decode(b).value;
      assert ReadAll(b).0 == [f] + ReadAll(rest).0;
      assert ReadAll(b).0[1..] == ReadAll(rest).0;
    }
  }

  /** How many whole frames `n` bytes of the stream hold. */
  function WholeFrames(fs: seq<Frame>, n: nat): (k: nat)
    ensures k <= |fs|
  {
    if fs == [] || n < |Encode(fs[0])| then 0 else 1 + WholeFrames(fs[1..], n - |Encode(fs[0])|)
  }

  /** Any prefix of a stream of frames reads as its whole frames and then an `Io` error:
      a stream cut in mid-frame gives nothing of that frame, and one cut between frames ends the same way. */
  lemma {:induction false} PrefixReads(fs: seq<Frame>, p: seq<byte>)
    requires AllFit(fs) && p <= EncodeAll(fs)
    ensures ReadAll(p) == (fs[..WholeFrames(fs, |p|)], Io)
  {
    if fs != [] {
      var e := Encode(fs[0]);
      if |p| < |e| {
        assert p == EncodeAll(fs)[..|p|] == e[..|p|];
        CutFrameRefused(fs[0], p);
      } else {
        var p' := p[|e|..];
        assert p' == EncodeAll(fs[1..])[..|p'|];
        assert p == e + p';
        DecodeEncoded(fs[0], p');
        PrefixReads(fs[1..], p');
        var k := WholeFrames(fs[1..], |p'|);
        assert [fs[0]] + fs[1..][..k] == fs[..1 + k];
      }
    }
  }

  lemma {:induction false} AllBytesAllFrames(fs: seq<Frame>)
    ensures WholeFrames(fs, |EncodeAll(fs)|) == |fs|
  {
    if fs != [] { AllBytesAllFrames(fs[1..]); }
  }

  /** A stream of frames has one reading: the frames that were written. */
  lemma {:induction false} StreamReads(fs: seq<Frame>)
    requires AllFit(fs)
    ensures ReadAll(EncodeAll(fs)) == (fs, Io)
  {
    PrefixReads(fs, EncodeAll(fs));
    AllBytesAllFrames(fs);
    assert fs[..|fs|] == fs;
  }

  lemma {:induction false} EncodeAppend(a: seq<Frame>, b: seq<Frame>)
    ensures EncodeAll(a + b) == EncodeAll(a) + EncodeAll(b)
  {
    if a == [] {
      assert a + b == b;
    } else {
      assert (a + b)[1..] == a[1..] + b;
      EncodeAppend(a[1..], b);
    }
  }

  lemma {:induction false} DropAppend(a: seq<Frame>, b: seq<Frame>)
    ensures DropBeats(a + b) == DropBeats(a) + DropBeats(b)
  {
    if a == [] {
      assert a + b == b;
    } else {
      assert (a + b)[1..] == a[1..] + b;
      DropAppend(a[1..], b);
    }
  }

  // ---------------------------------------------------------------- the pipe

  /** The writing end of a pipe. Whatever is written is whole frames, one after another. */
  class Writer {
    var bytes: seq<byte>
    ghost var frames: seq<Frame>

    ghost predicate Valid()
      reads this
    {
      AllFit(frames) && bytes == EncodeAll(frames)
    }

    constructor ()
      ensures Valid() && frames == []
    {
      bytes, frames := [], [];
    }

    /** A frame goes out in a single write, and one too large for the protocol does not go out. */
    method WriteFrame(tag: byte, payload: seq<byte>) returns (r: Result<()>)
      requires Valid()
      modifies this
      ensures Valid()
      ensures r == if |payload| > MAX_FRAME then Err(Limit) else Ok(())
      ensures frames == old(frames) + if r.Ok? then [Frame(tag, payload)] else []
    {
      if |payload| > MAX_FRAME {
        return Err(Limit);
      }
      var out: seq<byte> := [tag];
      out := out + LittleEndian(|payload|, 4);
      out := out + payload;
      EncodeAppend(frames, [Frame(tag, payload)]);
      assert EncodeAll([Frame(tag, payload)]) == Encode(Frame(tag, payload)) + EncodeAll([]);
      bytes := bytes + out;
      frames := frames + [Frame(tag, payload)];
      r := Ok(());
    }
  }

  /** The reading end of a pipe: what has arrived and is not yet read. */
  class Reader {
    var bytes: seq<byte>

    constructor (bytes: seq<byte>)
      ensures this.bytes == bytes
    {
      this.bytes := bytes;
    }

    method ReadFrame() returns (r: Result<Frame>)
      modifies this
      ensures match old(Decode(bytes))
              case Err(e) => r == Err(e)
              case Ok((f, rest)) => r == Ok(f) && bytes == rest
    {
      if |bytes| < HEADER {
        bytes := [];
        return Err(Io);
      }
      var header := bytes[..HEADER];
      bytes := bytes[HEADER..];
      assert old(bytes)[1..HEADER] == header[1..];
      var length := FromLittleEndian(header[1..]);
      if length > MAX_FRAME {
        return Err(Limit);
      }
      if |bytes| < length {
        bytes := [];
        return Err(Io);
      }
      r := Ok(Frame(header[0], bytes[..length]));
      assert bytes[..length] == old(bytes)[HEADER..HEADER + length];
      bytes := bytes[length..];
      assert bytes == old(bytes)[HEADER + length..];
    }

    /** The reader thread's loop: everything but empty heartbeats goes to the channel, in order,
        up to the error that ends the stream. */
    method Forward() returns (sent: seq<Frame>, failure: ImportError)
      modifies this
      ensures sent == DropBeats(old(ReadAll(bytes)).0)
      ensures failure == old(ReadAll(bytes)).1
    {
      sent := [];
      ghost var whole := ReadAll(bytes);
      while true
        invariant sent + DropBeats(ReadAll(bytes).0) == DropBeats(whole.0)
        invariant ReadAll(bytes).1 == whole.1
        decreases |bytes|
      {
        ReadAllStep(bytes);
        var value := ReadFrame();
        if value.Err? {
          failure := value.error;
          return;
        }
        // Only an empty heartbeat is dropped here.
        if value.value.tag == HEARTBEAT && value.value.payload == [] {
          continue;
        }
        sent := sent + [value.value];
      }
    }
  }
}
