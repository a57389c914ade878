/** The length-prefixed frame protocol between client and daemon. */
module Frames {
  import opened Prelude

  datatype Frame = Frame(streamType: uint8, payload: seq<uint8>)

  const STREAM_STDOUT: uint8 := 1
  const STREAM_STDERR: uint8 := 2
  const STREAM_EXIT: uint8 := 3

  const UINT32 := 0x1_0000_0000

  /** Big-endian bytes of `n` modulo 2^32, as the source's `uint32` conversion truncates. */
  function PutUint32(n: nat): (s: seq<uint8>)
    ensures |s| == 4
  {
    [(n / 0x100_0000 % 0x100) as uint8, (n / 0x1_0000 % 0x100) as uint8, (n / 0x100 % 0x100) as uint8, (n % 0x100) as uint8]
  }

  function Uint32(s: seq<uint8>): nat
    requires |s| == 4
  {
    s[0] as nat * 0x100_0000 + s[1] as nat * 0x1_0000 + s[2] as nat * 0x100 + s[3] as nat
  }

  lemma Uint32OfPut(n: nat)
    ensures Uint32(PutUint32(n)) == n % UINT32
  {
    var a, b, c := n / 0x100, n / 0x1_0000, n / 0x100_0000;
    assert n == a * 0x100 + n % 0x100;
    assert b == a / 0x100 && a == b * 0x100 + a % 0x100;
    assert c == b / 0x100 && b == c * 0x100 + b % 0x100;
    assert c == (c / 0x100) * 0x100 + c % 0x100;
    assert n == (c / 0x100) * UINT32 + Uint32(PutUint32(n));
  }

  lemma PutOfUint32(s: seq<uint8>)
    requires |s| == 4
    ensures PutUint32(Uint32(s)) == s
  {
    var n, a, b := Uint32(s), s[0] as nat, s[1] as nat;
    assert n / 0x100 == a * 0x1_0000 + b * 0x100 + s[2] as nat;
    assert n / 0x1_0000 == a * 0x100 + b;
    assert n / 0x100_0000 == a;
  }

  function Header(f: Frame): (h: seq<uint8>)
    ensures |h| == 5
  {
    [f.streamType] + PutUint32(|f.payload|)
  }

  /** The header in numbers: type, then the length modulo 2^32 with the most significant byte first. */
  lemma HeaderInNumbers(f: Frame)
    ensures var h := Header(f);
            && h[0] == f.streamType
            && h[1] as nat * 16777216 + h[2] as nat * 65536 + h[3] as nat * 256 + h[4] as nat == |f.payload| % 4294967296
  {
    Uint32OfPut(|f.payload|);
    assert Header(f)[1..] == PutUint32(|f.payload|);
  }

  function Encode(f: Frame): seq<uint8> {
    Header(f) + f.payload
  }

  function EncodeAll(fs: seq<Frame>): seq<uint8> {
    if fs == [] then [] else Encode(fs[0]) + EncodeAll(fs[1..])
  }

  predicate Small(f: Frame) { |f.payload| < UINT32 }

  // ---------------------------------------------------------------------------
  // Parsing
  // ---------------------------------------------------------------------------

  /** `io.EOF`, `io.ErrUnexpectedEOF`, and any other error of the connection. */
  datatype ReadError = EOF | UnexpectedEOF | Broken

  datatype ReadResult = Got(frame: Frame, rest: seq<uint8>) | Failed(error: ReadError)

  /** One `ReadFrame` on the bytes still to come. */
  function Parse(data: seq<uint8>): ReadResult {
    if |data| < 5 then Failed(if data == [] then EOF else UnexpectedEOF)
    else
      var length := Uint32(data[1..5]);
      if |data| - 5 >= length then Got(Frame(data[0], data[5..5 + length]), data[5 + length..])
      else Failed(if |data| == 5 then EOF else UnexpectedEOF)
  }

  /** `ReadFrame` repeated until it fails. */
  function ParseAll(data: seq<uint8>): (seq<Frame>, ReadError)
    decreases |data|
  {
    match Parse(data)
    case Failed(e) => ([], e)
    case Got(f, rest) => var (fs, e) := ParseAll(rest); ([f] + fs, e)
  }

  /** Behind a frame's header the length field reads as the payload's length modulo 2^32. */
  lemma HeaderLength(data: seq<uint8>, f: Frame)
    requires |data| >= 5 && data[..5] == Header(f)
    ensures data[0] == f.streamType && Uint32(data[1..5]) == |f.payload| % UINT32
  {
    assert data[1..5] == data[..5][1..] == PutUint32(|f.payload|);
    assert data[0] == data[..5][0];
    Uint32OfPut(|f.payload|);
  }

  /** One frame survives the wire exactly when its payload length fits in 32 bits. */
  lemma FrameRoundTripIff(f: Frame, rest: seq<uint8>)
    ensures Parse(Encode(f) + rest) == Got(f, rest) <==> Small(f)
  {
    var data := Encode(f) + rest;
    assert data[..5] == Header(f);
    HeaderLength(data, f);
    if Small(f) {
      assert data[5..5 + |f.payload|] == f.payload;
      assert data[5 + |f.payload|..] == rest;
    } else if Parse(data).Got? {
      assert |Parse(data).frame.payload| == |f.payload| % UINT32;
    }
  }

  /** A parsed frame is on the wire: nothing is invented and nothing is lost, whatever the bytes. */
  lemma ParsedFrameIsOnTheWire(data: seq<uint8>)
    requires Parse(data).Got?
    ensures data == Encode(Parse(data).frame) + Parse(data).rest && Small(Parse(data).frame)
  {
    var length := Uint32(data[1..5]);
    PutOfUint32(data[1..5]);
    var f := Parse(data).frame;
    assert Header(f) == data[..5];
    assert data == data[..5] + data[5..5 + length] + data[5 + length..];
  }

  lemma ParseFirst(f: Frame, rest: seq<uint8>)
    requires Small(f)
    ensures ParseAll(Encode(f) + rest) == ([f] + ParseAll(rest).0, ParseAll(rest).1)
  {
    FrameRoundTripIff(f, rest);
  }

  /** A list of frames followed by any bytes parses to the frames and then whatever the bytes give. */
  lemma {:induction false} ParsePastFrames(fs: seq<Frame>, tail: seq<uint8>)
    requires forall f :: f in fs ==> Small(f)
    ensures ParseAll(EncodeAll(fs) + tail) == (fs + ParseAll(tail).0, ParseAll(tail).1)
  {
    if fs == [] {
      assert EncodeAll(fs) + tail == tail;
      assert fs + ParseAll(tail).0 == ParseAll(tail).0;
    } else {
      var f, gs := fs[0], fs[1..];
      var (later, error) := ParseAll(tail);
      assert ParseAll(EncodeAll(gs) + tail) == (gs + later, error) by {
        ParsePastFrames(gs, tail);
      }
      ParseFirst(f, EncodeAll(gs) + tail);
      assert ParseAll(Encode(f) + (EncodeAll(gs) + tail)) == ([f] + (gs + later), error);
      ConcatAssociates(Encode(f), EncodeAll(gs), tail);
      ConcatAssociates([f], gs, later);
      assert [f] + gs == fs;
    }
  }

  lemma CodecInverts(fs: seq<Frame>)
    requires forall f :: f in fs ==> Small(f)
    ensures ParseAll(EncodeAll(fs)) == (fs, EOF)
  {
    ParsePastFrames(fs, []);
    assert EncodeAll(fs) + [] == EncodeAll(fs) && fs + [] == fs;
  }

  lemma {:induction false} EncodeAllConcat(a: seq<Frame>, b: seq<Frame>)
    ensures EncodeAll(a + b) == EncodeAll(a) + EncodeAll(b)
  {
    if a == [] {
      assert a + b == b;
    } else {
      assert (a + b)[1..] == a[1..] + b;
      EncodeAllConcat(a[1..], b);
    }
  }

  /** How many of the frames lie wholly within the first `k` bytes. */
  function CompleteWithin(fs: seq<Frame>, k: nat): (m: nat)
    ensures m <= |fs| && |EncodeAll(fs[..m])| <= k
    ensures m < |fs| ==> k < |EncodeAll(fs[..m])| + |Encode(fs[m])|
  {
    if fs == [] || k < |Encode(fs[0])| then 0
    else
      var m := CompleteWithin(fs[1..], k - |Encode(fs[0])|);
      assert fs[..m + 1][1..] == fs[1..][..m];
      m + 1
  }

  /** A frame cut short yields no frame; the error is `EOF` exactly at a frame boundary or right after a header. */
  lemma CutFrame(f: Frame, k: nat)
    requires Small(f) && k < |Encode(f)|
    ensures Parse(Encode(f)[..k]) == Failed(if k == 0 || k == 5 then EOF else UnexpectedEOF)
  {
    var data := Encode(f)[..k];
    if k >= 5 {
      assert data[..5] == Header(f);
      PayloadMissing(data, f);
    }
  }

  lemma PayloadMissing(data: seq<uint8>, f: Frame)
    requires Small(f) && 5 <= |data| < 5 + |f.payload| && data[..5] == Header(f)
    ensures Parse(data) == Failed(if |data| == 5 then EOF else UnexpectedEOF)
  {
    HeaderLength(data, f);
  }

  /** Any strict prefix of the wire yields exactly the complete frames it contains and then an error. */
  lemma TruncationIsSafe(fs: seq<Frame>, k: nat)
    requires (forall f :: f in fs ==> Small(f)) && k < |EncodeAll(fs)|
    ensures var m := CompleteWithin(fs, k);
            var cut := k - |EncodeAll(fs[..m])|;
            && m < |fs|
            && ParseAll(EncodeAll(fs)[..k]) == (fs[..m], if cut == 0 || cut == 5 then EOF else UnexpectedEOF)
  {
    var m := CutInside(fs, k);
    var cut := k - |EncodeAll(fs[..m])|;
    WireUpTo(fs, m, cut);
    FramesThenCut(fs[..m], fs[m], cut);
  }

  lemma CutInside(fs: seq<Frame>, k: nat) returns (m: nat)
    requires k < |EncodeAll(fs)|
    ensures m == CompleteWithin(fs, k) < |fs| && |EncodeAll(fs[..m])| <= k < |EncodeAll(fs[..m])| + |Encode(fs[m])|
  {
    assert fs[..|fs|] == fs;
    m := CompleteWithin(fs, k);
  }

  lemma FramesThenCut(fs: seq<Frame>, f: Frame, cut: nat)
    requires (forall g :: g in fs ==> Small(g)) && Small(f) && cut < |Encode(f)|
    ensures ParseAll(EncodeAll(fs) + Encode(f)[..cut]) == (fs, if cut == 0 || cut == 5 then EOF else UnexpectedEOF)
  {
    CutFrame(f, cut);
    ParsePastFrames(fs, Encode(f)[..cut]);
    assert fs + [] == fs;
  }

  /** The wire up to a point inside frame `m`. */
  lemma WireUpTo(fs: seq<Frame>, m: nat, cut: nat)
    requires m < |fs| && cut <= |Encode(fs[m])|
    ensures |EncodeAll(fs[..m])| + cut <= |EncodeAll(fs)|
    ensures EncodeAll(fs)[..|EncodeAll(fs[..m])| + cut] == EncodeAll(fs[..m]) + Encode(fs[m])[..cut]
  {
    assert fs == fs[..m] + ([fs[m]] + fs[m + 1..]);
    EncodeAllConcat(fs[..m], [fs[m]] + fs[m + 1..]);
    assert ([fs[m]] + fs[m + 1..])[1..] == fs[m + 1..];
  }

  // ---------------------------------------------------------------------------
  // The reader: bytes arrive in pieces of any size
  // ---------------------------------------------------------------------------

  /** On a broken connection every error reads as that break, wherever the bytes end. */
  function Seen(error: ReadError, broken: bool): ReadError { if broken then Broken else error }

  function SeenResult(result: ReadResult, broken: bool): ReadResult {
    if result.Failed? then Failed(Seen(result.error, broken)) else result
  }

  /** A byte stream that ends or breaks off after `data`. `Read` hands out between one byte and all that fit,
      as it pleases. */
  class Source {
    var data: seq<uint8>
    const broken: bool

    constructor (data: seq<uint8>, broken: bool)
      ensures this.data == data && this.broken == broken
    {
      this.data, this.broken := data, broken;
    }

    method Read(max: nat) returns (chunk: seq<uint8>)
      requires max > 0
      modifies this
      ensures |chunk| <= max && old(data) == chunk + data
      ensures chunk == [] <==> old(data) == []
    {
      if data == [] {
        return [];
      }
      var n: nat :| 1 <= n <= max && n <= |data|;
      chunk := data[..n];
      data := data[n..];
    }

    /** `io.ReadFull`: all `n` bytes, or `EOF` when none came and `UnexpectedEOF` when some did, or the break. */
    method ReadFull(n: nat) returns (buf: seq<uint8>, error: ReadError, ok: bool)
      requires n > 0
      modifies this
      ensures ok <==> |old(data)| >= n
      ensures ok ==> buf == old(data)[..n] && data == old(data)[n..]
      ensures !ok ==> data == [] && error == Seen(if old(data) == [] then EOF else UnexpectedEOF, broken)
    {
      buf, error, ok := [], EOF, false;
      while |buf| < n
        invariant |buf| <= n && old(data) == buf + data
        decreases n - |buf|
      {
        var chunk := Read(n - |buf|);
        if chunk == [] {
          error := if broken then Broken else if buf == [] then EOF else UnexpectedEOF;
          return;
        }
        buf := buf + chunk;
      }
      ok := true;
    }
  }

  class FrameReader {
    const r: Source

    constructor (r: Source)
      ensures this.r == r
    {
      this.r := r;
    }

    /** Whatever the sizes of the reads, one call does one parsing step. */
    method ReadFrame() returns (result: ReadResult)
      modifies r
      ensures result == SeenResult(Parse(old(r.data)), r.broken)
      ensures result.Got? ==> r.data == result.rest
      ensures result.Failed? ==> r.data == []
    {
      var header, error, ok := r.ReadFull(5);
      if !ok {
        return Failed(error);
      }
      var length := Uint32(header[1..5]);
      var payload := [];
      assert header[1..5] == old(r.data)[1..5];
      if length > 0 {
        payload, error, ok := r.ReadFull(length);
        if !ok {
          return Failed(error);
        }
      }
      result := Got(Frame(header[0], payload), r.data);
    }

    /** Reading until the first error delivers exactly the parse of the whole stream. */
    method ReadAll() returns (frames: seq<Frame>, error: ReadError)
      modifies r
      ensures frames == ParseAll(old(r.data)).0 && error == Seen(ParseAll(old(r.data)).1, r.broken)
    {
      frames := [];
      assert frames + ParseAll(r.data).0 == ParseAll(r.data).0;
      while true
        invariant ParseAll(old(r.data)) == (frames + ParseAll(r.data).0, ParseAll(r.data).1)
        decreases |r.data|
      {
        ghost var before := r.data;
        var result := ReadFrame();
        if result.Failed? {
          assert frames + [] == frames;
          return frames, result.error;
        }
        assert frames + ParseAll(before).0 == (frames + [result.frame]) + ParseAll(r.data).0;
        frames := frames + [result.frame];
      }
    }
  }

  // ---------------------------------------------------------------------------
  // The writer: the connection accepts a limited number of bytes, then breaks
  // ---------------------------------------------------------------------------

  class Connection {
    var wire: seq<uint8>
    var room: nat

    constructor (room: nat)
      ensures wire == [] && this.room == room
    {
      wire, this.room := [], room;
    }

    method Write(p: seq<uint8>) returns (ok: bool)
      modifies this
      ensures ok <==> |p| <= old(room)
      ensures wire == old(wire) + (if ok then p else p[..old(room)])
      ensures room == if ok then old(room) - |p| else 0
    {
      ok := |p| <= room;
      wire := wire + (if ok then p else p[..room]);
      room := if ok then room - |p| else 0;
    }
  }

  class FrameWriter {
    const w: Connection

    constructor (w: Connection)
      ensures this.w == w
    {
      this.w := w;
    }

    /** Header then payload; on a break the wire holds a prefix of the frame. */
    method WriteFrame(streamType: uint8, payload: seq<uint8>) returns (ok: bool)
      modifies w
      ensures var bytes := Encode(Frame(streamType, payload));
              && (ok <==> |bytes| <= old(w.room))
              && w.wire == old(w.wire) + (if ok then bytes else bytes[..old(w.room)])
              && w.room == if ok then old(w.room) - |bytes| else 0
    {
      var header := new uint8[5];
      header[0] := streamType;
      var n := |payload| % UINT32;
      header[1] := (n / 0x100_0000 % 0x100) as uint8;
      header[2] := (n / 0x1_0000 % 0x100) as uint8;
      header[3] := (n / 0x100 % 0x100) as uint8;
      header[4] := (n % 0x100) as uint8;
      ghost var bytes := Encode(Frame(streamType, payload));
      PutUint32Wraps(|payload|);
      assert header[..] == Header(Frame(streamType, payload));
      ok := w.Write(header[..]);
      if !ok {
        assert bytes[..old(w.room)] == header[..][..old(w.room)];
        return false;
      }
      if |payload| > 0 {
        ok := w.Write(payload);
        assert !ok ==> bytes[..old(w.room)] == header[..] + payload[..old(w.room) - 5];
        assert ok ==> bytes == header[..] + payload;
      } else {
        assert bytes == header[..];
      }
    }
  }

  lemma PutUint32Wraps(n: nat)
    ensures PutUint32(n % UINT32) == PutUint32(n)
  {
    Uint32OfPut(n);
    PutOfUint32(PutUint32(n));
  }

  // ---------------------------------------------------------------------------
  // Terminal resize payloads
  // ---------------------------------------------------------------------------

  newtype uint16 = x: int | 0 <= x < 0x1_0000

  datatype WindowSize = WindowSize(rows: uint16, cols: uint16)
  datatype ParsedSize = Size(size: WindowSize) | InvalidLength

  function Uint16(hi: uint8, lo: uint8): uint16 { hi as uint16 * 0x100 + lo as uint16 }

  function ParseWindowSize(payload: seq<uint8>): ParsedSize {
    if |payload| < 4 then InvalidLength
    else Size(WindowSize(Uint16(payload[0], payload[1]), Uint16(payload[2], payload[3])))
  }

  function WindowBytes(size: WindowSize): seq<uint8> {
    [(size.rows / 0x100) as uint8, (size.rows % 0x100) as uint8, (size.cols / 0x100) as uint8, (size.cols % 0x100) as uint8]
  }

  method EncodeWindowSize(rows: uint16, cols: uint16) returns (buf: array<uint8>)
    ensures fresh(buf) && buf[..] == WindowBytes(WindowSize(rows, cols))
    ensures buf.Length == 4 && buf[0] as nat * 256 + buf[1] as nat == rows as nat && buf[2] as nat * 256 + buf[3] as nat == cols as nat
  {
    buf := new uint8[4];
    buf[0], buf[1] := (rows / 0x100) as uint8, (rows % 0x100) as uint8;
    buf[2], buf[3] := (cols / 0x100) as uint8, (cols % 0x100) as uint8;
  }

  lemma WindowSizeInNumbers(a: uint8, b: uint8, c: uint8, d: uint8, more: seq<uint8>)
    ensures ParseWindowSize([a, b, c, d] + more) == Size(WindowSize(a as uint16 * 256 + b as uint16, c as uint16 * 256 + d as uint16))
    ensures ParseWindowSize([a, b, c]) == InvalidLength
  {
    assert ([a, b, c, d] + more)[..4] == [a, b, c, d];
  }

  /** Sizes and 4-byte payloads correspond one to one; longer payloads are read by their first 4 bytes. */
  lemma WindowSizeRoundTrip(payload: seq<uint8>, size: WindowSize)
    ensures ParseWindowSize(payload) == Size(size) <==> WindowBytes(size) <= payload
  {
    assert size.rows == (size.rows / 0x100) * 0x100 + size.rows % 0x100;
    assert size.cols == (size.cols / 0x100) * 0x100 + size.cols % 0x100;
  }
}
