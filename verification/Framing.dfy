/** Length-prefixed framing of the remote protocol over a byte stream. */
module Framing {
  import opened Basics

  const MAX_PROTOCOL_FRAME_BYTES: nat := 2 * 1024 * 1024

  datatype StreamError = FrameSize(size: nat) | UnexpectedEof

  datatype Result<+T> = Ok(value: T) | Err(error: StreamError)

  predicate SizeOk(size: nat) {
    0 < size <= MAX_PROTOCOL_FRAME_BYTES
  }

  /** Big-endian 32-bit prefix. */
  function ToBigEndian(n: nat): (r: seq<Byte>)
    requires n < 0x1_0000_0000
    ensures |r| == 4 && FromBigEndian(r) == n
  {
    var hi, lo := n / 0x1_0000, n % 0x1_0000;
    assert n == hi * 0x1_0000 + lo;
    [hi / 0x100, hi % 0x100, lo / 0x100, lo % 0x100]
  }

  function FromBigEndian(p: seq<Byte>): (n: nat)
    requires |p| == 4
  {
    var hi: int := p[0] as int * 0x100 + p[1] as int;
    var lo: int := p[2] as int * 0x100 + p[3] as int;
    hi * 0x1_0000 + lo
  }

  /** No two prefixes announce the same size. */
  lemma PrefixIsCanonical(p: seq<Byte>)
    requires |p| == 4
    ensures FromBigEndian(p) < 0x1_0000_0000
    ensures ToBigEndian(FromBigEndian(p)) == p
  {
    var n := FromBigEndian(p);
    assert n / 0x1_0000 == p[0] as int * 0x100 + p[1] as int;
    assert n % 0x1_0000 == p[2] as int * 0x100 + p[3] as int;
  }

  /** What the writer puts on the wire for one payload. */
  function Encode(payload: seq<Byte>): (r: seq<Byte>)
    requires SizeOk(|payload|)
    ensures |r| == 4 + |payload|
  {
    ToBigEndian(|payload|) + payload
  }

  /** The weight of byte `i` of the prefix: the first weighs most. */
  function Weight(i: nat): (w: nat)
    requires i < 4
    ensures w > 0
  {
    [0x100_0000, 0x1_0000, 0x100, 1][i]
  }

  lemma HighBytes(n: nat)
    requires n < 0x1_0000_0000
    ensures n / 0x1_0000 / 0x100 == n / 0x100_0000 < 0x100
  {
  }

  lemma LowBytes(n: nat)
    ensures n % 0x1_0000 / 0x100 == n / 0x100 % 0x100
    ensures n % 0x1_0000 % 0x100 == n % 0x100
  {
    var hi, lo := n / 0x1_0000, n % 0x1_0000;
    assert n == hi * 0x1_0000 + lo;
  }

  lemma PrefixBytes(n: nat, i: nat)
    requires n < 0x1_0000_0000 && i < 4
    ensures ToBigEndian(n)[i] == n / Weight(i) % 0x100
  {
    if i < 2 {
      HighBytes(n);
    } else {
      LowBytes(n);
    }
  }

  /** A frame on the wire, byte by byte: the payload's size, most significant byte first, and then the payload. */
  lemma FrameBytes(payload: seq<Byte>, i: nat)
    requires SizeOk(|payload|) && i < 4 + |payload|
    ensures Encode(payload)[i] == if i < 4 then |payload| / Weight(i) % 0x100 else payload[i - 4]
  {
    if i < 4 {
      PrefixBytes(|payload|, i);
    }
    hide ToBigEndian;
  }

  ghost predicate AllSizesOk(frames: seq<seq<Byte>>) {
    forall i :: 0 <= i < |frames| ==> SizeOk(|frames[i]|)
  }

  function Wire(frames: seq<seq<Byte>>): (r: seq<Byte>)
    requires AllSizesOk(frames)
  {
    if frames == [] then [] else Encode(frames[0]) + Wire(frames[1..])
  }

  /** One read from a stream that holds `s` and then ends. */
  datatype FrameRead =
    | CleanEnd
    | Frame(payload: seq<Byte>, rest: seq<Byte>)
    | Broken(error: StreamError)

  function NextFrame(s: seq<Byte>): (r: FrameRead)
    ensures r.Frame? ==> |r.rest| < |s|
  {
    if |s| == 0 then CleanEnd
    else if |s| < 4 then Broken(UnexpectedEof)
    else
      var size := FromBigEndian(s[..4]);
      if !SizeOk(size) then Broken(FrameSize(size))
      else if |s| < 4 + size then Broken(UnexpectedEof)
      else Frame(s[4..4 + size], s[4 + size..])
  }

  /** The size that a prefix announces. */
  function Announced(s: seq<Byte>): (n: nat)
    requires |s| >= 4
  {
    s[0] as int * Weight(0) + s[1] as int * Weight(1) + s[2] as int * Weight(2) + s[3] as int * Weight(3)
  }

  lemma AnnouncedIsRead(s: seq<Byte>)
    requires |s| >= 4
    ensures FromBigEndian(s[..4]) == Announced(s)
  {
  }

  /** Any stream at all: clean only when empty; a size of zero or above 2 MiB is an error that names it; anything shorter
      than it announces has ended too early; and otherwise the announced number of bytes is the payload. */
  lemma ReadMeaning(s: seq<Byte>, n: nat)
    ensures NextFrame(s) == CleanEnd <==> s == []
    ensures NextFrame(s) == Broken(FrameSize(n)) <==> |s| >= 4 && n == Announced(s) && (n == 0 || n > 2_097_152)
    ensures NextFrame(s) == Broken(UnexpectedEof) <==>
              s != [] && (|s| < 4 || (0 < Announced(s) <= 2_097_152 && |s| < 4 + Announced(s)))
    ensures NextFrame(s).Frame? ==>
              |s| >= 4 && |NextFrame(s).payload| == Announced(s) && s == s[..4] + NextFrame(s).payload + NextFrame(s).rest
  {
    if |s| >= 4 {
      AnnouncedIsRead(s);
    }
    hide Announced;
    hide FromBigEndian;
  }

  /** Reading until the stream ends or breaks. */
  datatype Transcript = Transcript(frames: seq<seq<Byte>>, ending: Option<StreamError>)

  function ReadAll(s: seq<Byte>): (r: Transcript)
    decreases |s|
  {
    match NextFrame(s)
    case CleanEnd => Transcript([], None)
    case Broken(e) => Transcript([], Some(e))
    case Frame(payload, rest) =>
      var t := ReadAll(rest);
      Transcript([payload] + t.frames, t.ending)
  }

  class ByteReader {
    const data: seq<Byte>
    var pos: nat

    ghost predicate Valid() reads this { pos <= |data| }

    ghost function Rest(): (r: seq<Byte>)
      requires Valid()
      reads this
    {
      data[pos..]
    }

    constructor (data: seq<Byte>)
      ensures Valid() && Rest() == data
    {
      this.data := data;
      pos := 0;
    }

    /** Fills as much of an `n`-byte buffer as the stream still holds. */
    method Read(n: nat) returns (got: seq<Byte>)
      requires Valid()
      modifies this
      ensures Valid()
      ensures got + Rest() == old(Rest())
      ensures |got| == if n <= |old(Rest())| then n else |old(Rest())|
    {
      var end := if pos + n <= |data| then pos + n else |data|;
      got := data[pos..end];
      pos := end;
    }

    /** Fills an `n`-byte buffer completely, or fails having drained the stream. */
    method ReadExact(n: nat) returns (r: Result<seq<Byte>>)
      requires Valid()
      modifies this
      ensures Valid()
      ensures n <= |old(Rest())| ==> r == Ok(old(Rest())[..n]) && Rest() == old(Rest())[n..]
      ensures n > |old(Rest())| ==> r == Err(UnexpectedEof)
    {
      var got := Read(n);
      r := if |got| < n then Err(UnexpectedEof) else Ok(got);
    }
  }

  class ByteWriter {
    var written: seq<Byte>

    constructor ()
      ensures written == []
    {
      written := [];
    }

    method WriteAll(bytes: seq<Byte>)
      modifies this
      ensures written == old(written) + bytes
    {
      written := written + bytes;
    }
  }

  method CheckSize(size: nat) returns (r: Result<()>)
    ensures r == if SizeOk(size) then Ok(()) else Err(FrameSize(size))
  {
    if size == 0 || size > MAX_PROTOCOL_FRAME_BYTES {
      return Err(FrameSize(size));
    }
    return Ok(());
  }

  method ReadFrame(reader: ByteReader) returns (r: Result<Option<seq<Byte>>>)
    requires reader.Valid()
    modifies reader
    ensures reader.Valid()
    ensures match NextFrame(old(reader.Rest()))
            case CleanEnd => r == Ok(None)
            case Broken(e) => r == Err(e)
            case Frame(payload, rest) => r == Ok(Some(payload)) && reader.Rest() == rest
  {
    ghost var s := reader.Rest();
    var first := reader.Read(1);
    if |first| == 0 {
      return Ok(None);
    }
    var others := reader.ReadExact(3);
    if others.Err? {
      return Err(others.error);
    }
    var prefix := first + others.value;
    assert prefix == s[..4];
    ghost var after := reader.Rest();
    assert after == s[4..];
    var size := FromBigEndian(prefix);
    var checked := CheckSize(size);
    if checked.Err? {
      return Err(checked.error);
    }
    var body := reader.ReadExact(size);
    if body.Err? {
      return Err(body.error);
    }
    assert after[..size] == s[4..4 + size] && after[size..] == s[4 + size..];
    return Ok(Some(body.value));
  }

  method WriteFrame(writer: ByteWriter, bytes: seq<Byte>) returns (r: Result<()>)
    modifies writer
    ensures SizeOk(|bytes|) ==> r == Ok(()) && writer.written == old(writer.written) + Encode(bytes)
    ensures !SizeOk(|bytes|) ==> r == Err(FrameSize(|bytes|)) && writer.written == old(writer.written)
  {
    r := CheckSize(|bytes|);
    if r.Err? {
      return;
    }
    writer.WriteAll(ToBigEndian(|bytes|));
    writer.WriteAll(bytes);
  }

  lemma NextFrameOfEncode(payload: seq<Byte>, rest: seq<Byte>)
    requires SizeOk(|payload|)
    ensures NextFrame(Encode(payload) + rest) == Frame(payload, rest)
  {
    var s := Encode(payload) + rest;
    assert s[..4] == ToBigEndian(|payload|);
    assert s[4..4 + |payload|] == payload;
    assert s[4 + |payload|..] == rest;
  }

  /** How many whole frames lie within the first `k` bytes of the wire. */
  function WholeFrames(frames: seq<seq<Byte>>, k: nat): (w: nat)
    requires AllSizesOk(frames)
    ensures w <= |frames|
  {
    if frames == [] || k < |Encode(frames[0])| then 0
    else 1 + WholeFrames(frames[1..], k - |Encode(frames[0])|)
  }

  /** `WholeFrames` is the last frame boundary at or before byte `k`. */
  lemma {:induction false} WholeFramesIsLastBoundary(frames: seq<seq<Byte>>, k: nat)
    requires AllSizesOk(frames)
    ensures var w := WholeFrames(frames, k);
            && |Wire(frames[..w])| <= k
            && (w < |frames| ==> k < |Wire(frames[..w + 1])|)
  {
    var w := WholeFrames(frames, k);
    if frames == [] {
    } else if w == 0 {
      assert frames[..1][1..] == [];
    } else {
      WholeFramesIsLastBoundary(frames[1..], k - |Encode(frames[0])|);
      assert frames[..w][1..] == frames[1..][..w - 1];
      if w < |frames| {
        assert frames[..w + 1][1..] == frames[1..][..w];
      }
    }
  }

  lemma CutInsideFrame(payload: seq<Byte>, k: nat)
    requires SizeOk(|payload|) && k < |Encode(payload)|
    ensures NextFrame(Encode(payload)[..k]) == if k == 0 then CleanEnd else Broken(UnexpectedEof)
  {
    if k >= 4 {
      assert Encode(payload)[..k][..4] == ToBigEndian(|payload|);
    }
  }

  lemma ReadCons(payload: seq<Byte>, rest: seq<Byte>)
    requires SizeOk(|payload|)
    ensures ReadAll(Encode(payload) + rest).frames == [payload] + ReadAll(rest).frames
    ensures ReadAll(Encode(payload) + rest).ending == ReadAll(rest).ending
  {
    NextFrameOfEncode(payload, rest);
    hide Encode;
  }

  lemma CutCons(frames: seq<seq<Byte>>, k: nat)
    requires AllSizesOk(frames) && frames != [] && |Encode(frames[0])| <= k <= |Wire(frames)|
    ensures var cut := ReadAll(Wire(frames[1..])[..k - |Encode(frames[0])|]);
            ReadAll(Wire(frames)[..k]) == Transcript([frames[0]] + cut.frames, cut.ending)
  {
    var e := Encode(frames[0]);
    hide ReadAll;
    hide NextFrame;
    var rest := Wire(frames[1..])[..k - |e|];
    assert Wire(frames)[..k] == e + rest;
    ReadCons(frames[0], rest);
  }

  lemma CutFront(frames: seq<seq<Byte>>, k: nat)
    requires AllSizesOk(frames) && k <= |Wire(frames)| && (frames != [] ==> k < |Encode(frames[0])|)
    ensures ReadAll(Wire(frames)[..k]) == Transcript([], if k == 0 then None else Some(UnexpectedEof))
  {
    if frames != [] {
      CutInsideFrame(frames[0], k);
      assert Wire(frames)[..k] == Encode(frames[0])[..k];
    }
  }

  lemma WirePrefix(frames: seq<seq<Byte>>, w: nat)
    requires AllSizesOk(frames) && 0 < w <= |frames|
    ensures frames[..w] == [frames[0]] + frames[1..][..w - 1]
    ensures |Wire(frames[..w])| == |Encode(frames[0])| + |Wire(frames[1..][..w - 1])|
  {
    assert frames[..w][1..] == frames[1..][..w - 1];
  }

  /** Cutting the wire anywhere yields the whole frames before the cut, then a clean end exactly
      when the cut is on a frame boundary and an unexpected end of stream otherwise. */
  lemma {:induction false} CutAnywhere(frames: seq<seq<Byte>>, k: nat)
    requires AllSizesOk(frames)
    requires k <= |Wire(frames)|
    ensures var w := WholeFrames(frames, k);
            && ReadAll(Wire(frames)[..k]).frames == frames[..w]
            && ReadAll(Wire(frames)[..k]).ending ==
               (if |Wire(frames[..w])| == k then None else Some(UnexpectedEof))
  {
    hide Encode;
    hide NextFrame;
    hide ReadAll;
    var w := WholeFrames(frames, k);
    if w == 0 {
      CutFront(frames, k);
      assert frames[..0] == [];
    } else {
      CutAnywhere(frames[1..], k - |Encode(frames[0])|);
      CutCons(frames, k);
      WirePrefix(frames, w);
    }
  }

  /** Whatever list of frames was written is read back, and then the stream ends cleanly. */
  lemma {:induction false} ReadAllOfWire(frames: seq<seq<Byte>>)
    requires AllSizesOk(frames)
    ensures ReadAll(Wire(frames)) == Transcript(frames, None)
  {
    if frames != [] {
      NextFrameOfEncode(frames[0], Wire(frames[1..]));
      ReadAllOfWire(frames[1..]);
    }
  }

  /** One accepted frame re-encodes to exactly the bytes it was read from. */
  lemma FrameIsEncoded(s: seq<Byte>)
    requires NextFrame(s).Frame?
    ensures SizeOk(|NextFrame(s).payload|)
    ensures Encode(NextFrame(s).payload) + NextFrame(s).rest == s
  {
    var size := FromBigEndian(s[..4]);
    PrefixIsCanonical(s[..4]);
    assert s == s[..4] + s[4..4 + size] + s[4 + size..];
  }

  /** The reader accepts nothing but what a writer produced: a stream that ends cleanly is
      the wire of exactly the frames read from it. */
  lemma {:induction false} CleanStreamsAreWires(s: seq<Byte>)
    requires ReadAll(s).ending == None
    ensures AllSizesOk(ReadAll(s).frames)
    ensures Wire(ReadAll(s).frames) == s
    decreases |s|
  {
    match NextFrame(s)
    case CleanEnd =>
    case Broken(e) =>
    case Frame(payload, rest) =>
      CleanStreamsAreWires(rest);
      FrameIsEncoded(s);
      assert ReadAll(s).frames[1..] == ReadAll(rest).frames;
  }
}
