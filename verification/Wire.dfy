/**
  Bytes, frames and pipes: the request / response framing of the two transports.
  A frame is an 8-byte header (op, three pad bytes, little-endian length) and a payload.
 */
module Wire {
  import opened Options

  type byte = x: int | 0 <= x < 256
  const U32: nat := 0x1_0000_0000

  /** A payload whose length fits the header's uint32. */
  type Payload = p: seq<byte> | |p| < U32

  /* ---- Little-endian numbers ---- */

  function Pow256(k: nat): (r: nat)
    ensures r > 0
  {
    if k == 0 then 1 else 256 * Pow256(k - 1)
  }

  /** The k low bytes of n, lowest first. */
  function LE(n: nat, k: nat): (s: seq<byte>)
    ensures |s| == k
  {
    if k == 0 then [] else [n % 256] + LE(n / 256, k - 1)
  }

  function FromLE(s: seq<byte>): nat {
    if s == [] then 0 else s[0] + 256 * FromLE(s[1..])
  }

  lemma {:induction false} FromLEBound(s: seq<byte>)
    ensures FromLE(s) < Pow256(|s|)
  {
    if s != [] { FromLEBound(s[1..]); }
  }

  /** Decoding gives back every number that fits. */
  lemma {:induction false} LERoundTrip(n: nat, k: nat)
    requires n < Pow256(k)
    ensures FromLE(LE(n, k)) == n
  {
    if k > 0 {
      LERoundTrip(n / 256, k - 1);
      assert LE(n, k)[1..] == LE(n / 256, k - 1);
    }
  }

  /** ... and a byte string is the encoding of what it decodes to. */
  lemma {:induction false} LEOnto(s: seq<byte>)
    ensures LE(FromLE(s), |s|) == s
  {
    if s != [] {
      LEOnto(s[1..]);
      LowByte(s[0], FromLE(s[1..]));
    }
  }

  lemma LowByte(b: byte, n: nat)
    ensures (b + 256 * n) % 256 == b && (b + 256 * n) / 256 == n
  {
  }

  lemma Pow256Four()
    ensures Pow256(4) == U32
  {
    assert Pow256(2) == 65536;
    assert Pow256(4) == 256 * (256 * Pow256(2));
  }

  /* ---- Frames ---- */

  datatype Frame = Frame(op: byte, payload: Payload)

  function Encode(f: Frame): (s: seq<byte>)
    ensures |s| == 8 + |f.payload|
  {
    [f.op, 0, 0, 0] + LE(|f.payload|, 4) + f.payload
  }

  /** The bytes of a frame: op, three zeros, the length lowest byte first, the payload. */
  lemma FrameBytes(f: Frame)
    ensures var n := |f.payload|;
      Encode(f)[..8] == [f.op, 0, 0, 0, n % 256, n / 0x100 % 256, n / 0x1_0000 % 256, n / 0x100_0000] && Encode(f)[8..] == f.payload
  {
    var n := |f.payload|;
    assert LE(n, 4) == [n % 256] + LE(n / 256, 3);
    assert LE(n / 256, 3) == [n / 256 % 256] + LE(n / 0x1_0000, 2);
    assert LE(n / 0x1_0000, 2) == [n / 0x1_0000 % 256] + LE(n / 0x100_0000, 1);
  }

  function EncodeAll(fs: seq<Frame>): seq<byte> {
    if fs == [] then [] else Encode(fs[0]) + EncodeAll(fs[1..])
  }

  /** How many more bytes the receiver of `got` asks for: the header, then the payload. */
  function Need(got: seq<byte>): int {
    if |got| < 8 then 8 - |got| else 8 + FromLE(got[4..8]) - |got|
  }

  /** A frame that is complete and nothing more. */
  function Decode(got: seq<byte>): (r: Option<Frame>)
    ensures r.Some? ==> |got| >= 8 && r.value.payload == got[8..]
  {
    if |got| >= 8 && Need(got) == 0 then
      FromLEBound(got[4..8]); Pow256Four();
      Some(Frame(got[0], got[8..]))
    else None
  }

  lemma DecodeEncode(f: Frame)
    ensures Need(Encode(f)) == 0 && Decode(Encode(f)) == Some(f)
  {
    Pow256Four();
    LERoundTrip(|f.payload|, 4);
    assert Encode(f)[4..8] == LE(|f.payload|, 4);
    assert Encode(f)[8..] == f.payload;
  }

  /** While a frame is arriving the receiver asks for its missing bytes and no others. */
  lemma NeedPrefix(f: Frame, got: seq<byte>)
    requires got <= Encode(f)
    ensures |got| < |Encode(f)| ==> 0 < Need(got) <= |Encode(f)| - |got| && Decode(got).None?
    ensures |got| == |Encode(f)| ==> Need(got) == 0
  {
    if |got| >= 8 {
      assert got[4..8] == Encode(f)[4..8];
      DecodeEncode(f);
    }
    if |got| == |Encode(f)| { assert got == Encode(f); }
  }

  lemma {:induction false} EncodeAllPush(fs: seq<Frame>, f: Frame)
    ensures EncodeAll(fs + [f]) == EncodeAll(fs) + Encode(f)
  {
    hide Encode;
    if fs == [] {
      assert [f][1..] == [];
    } else {
      EncodeAllPush(fs[1..], f);
      assert (fs + [f])[1..] == fs[1..] + [f];
    }
  }

  /* ---- What a receiver dispatches from a stream that ends anywhere ---- */

  /** Bytes of the frame a stream starts with. */
  function FirstLen(s: seq<byte>): (n: nat)
    requires |s| >= 8
    ensures n >= 8
  {
    8 + FromLE(s[4..8])
  }

  predicate Whole(s: seq<byte>) { |s| >= 8 && FirstLen(s) <= |s| }

  function First(s: seq<byte>): Frame
    requires Whole(s)
  {
    FromLEBound(s[4..8]); Pow256Four();
    Frame(s[0], s[8..FirstLen(s)])
  }

  /** The frames the serve loop dispatches before it meets the end of the stream. */
  function Dispatched(s: seq<byte>): seq<Frame>
    decreases |s|
  {
    if !Whole(s) then [] else [First(s)] + Dispatched(s[FirstLen(s)..])
  }

  lemma FirstOf(f: Frame, s: seq<byte>)
    requires Encode(f) <= s
    ensures Whole(s) && FirstLen(s) == |Encode(f)| && First(s) == f
  {
    DecodeEncode(f);
    var e := Encode(f);
    assert s[4..8] == e[4..8];
    assert s[8..|e|] == e[8..] == f.payload;
    assert s[0] == e[0];
  }

  lemma NotWhole(f: Frame, s: seq<byte>)
    requires s <= Encode(f) && |s| < |Encode(f)|
    ensures !Whole(s)
  {
    NeedPrefix(f, s);
  }

  /**
    Framing.  However a stream of frames is cut off (a crashed sender, a closed pipe), the
    receiver dispatches exactly the frames that arrived whole, with their exact payloads,
    and never a truncated one.
   */
  lemma {:induction false} FramesSurvive(fs: seq<Frame>, s: seq<byte>) returns (k: nat)
    requires s <= EncodeAll(fs)
    ensures k <= |fs| && Dispatched(s) == fs[..k]
    ensures |EncodeAll(fs[..k])| <= |s|
    ensures k < |fs| ==> |s| < |EncodeAll(fs[..k+1])|
  {
    hide Encode, First, FirstLen, Whole;
    k := 0;
    if fs == [] {
      assert !Whole(s) by { EmptyNotWhole(s); }
      return;
    }
    var e := Encode(fs[0]);
    if |s| < |e| {
      assert s <= e;
      NotWhole(fs[0], s);
      assert fs[..1] == [fs[0]] && [fs[0]][1..] == [];
      assert EncodeAll(fs[..1]) == e + EncodeAll([]);
    } else {
      assert e <= s;
      FirstOf(fs[0], s);
      var rest := s[|e|..];
      assert rest <= EncodeAll(fs[1..]);
      var j := FramesSurvive(fs[1..], rest);
      k := j + 1;
      assert fs[..k] == [fs[0]] + fs[1..][..j] && fs[..k][1..] == fs[1..][..j];
      if k < |fs| { assert fs[..k+1][1..] == fs[1..][..j+1]; }
    }
  }

  lemma EmptyNotWhole(s: seq<byte>)
    requires s == []
    ensures !Whole(s)
  {
  }

  /** A stream that is not cut off delivers every frame. */
  lemma AllFramesArrive(fs: seq<Frame>)
    ensures Dispatched(EncodeAll(fs)) == fs
  {
    var k := FramesSurvive(fs, EncodeAll(fs));
    if k < |fs| {
      EncodeAllMonotone(fs, k + 1);
      assert false;
    }
    assert fs[..k] == fs;
  }

  lemma {:induction false} EncodeAllMonotone(fs: seq<Frame>, k: nat)
    requires k <= |fs|
    ensures |EncodeAll(fs[..k])| <= |EncodeAll(fs)|
  {
    if k > 0 {
      EncodeAllMonotone(fs[1..], k - 1);
      assert fs[..k][1..] == fs[1..][..k-1];
    }
  }

  /** What is sent before and with frame i is a prefix of the whole stream. */
  lemma {:induction false} SentPrefix(fs: seq<Frame>, i: nat)
    requires i < |fs|
    ensures EncodeAll(fs[..i]) + Encode(fs[i]) <= EncodeAll(fs)
  {
    hide Encode;
    if i == 0 {
      assert fs[..0] == [];
    } else {
      SentPrefix(fs[1..], i - 1);
      assert fs[..i][1..] == fs[1..][..i-1];
      assert EncodeAll(fs[..i]) == Encode(fs[0]) + EncodeAll(fs[1..][..i-1]);
    }
  }
}
