/** Robust pipe IO, the growable buffer, and the parent's frame loop. */
module Pipes {
  import opened Options
  import opened Wire

  datatype ReadResult = Interrupted | Bytes(b: seq<byte>) | Eof

  /** The reading end of a pipe: what is still to come before the end of the stream.  Every
      read may be interrupted (finitely often) and may return fewer bytes than asked. */
  class Source {
    var left: seq<byte>
    var interrupts: nat
    const cuts: nat -> nat
    var tick: nat

    constructor (left: seq<byte>, interrupts: nat, cuts: nat -> nat)
      ensures this.left == left
    {
      this.left, this.interrupts, this.cuts, tick := left, interrupts, cuts, 0;
    }

    method Read(max: nat) returns (r: ReadResult)
      requires max > 0
      modifies this
      ensures r.Interrupted? ==> left == old(left) && interrupts < old(interrupts)
      ensures r.Eof? ==> left == old(left) == []
      ensures r.Bytes? ==> 0 < |r.b| <= max && old(left) == r.b + left
      ensures interrupts <= old(interrupts)
    {
      var cut := cuts(tick);
      tick := tick + 1;
      if interrupts > 0 && cut % 2 == 1 {
        interrupts := interrupts - 1;
        return Interrupted;
      }
      if left == [] { return Eof; }
      var most := if max < |left| then max else |left|;
      var n := 1 + cut / 2 % most;
      r := Bytes(left[..n]);
      left := left[n..];
    }
  }

  /** hegel__read_full: fill buf[..n], or meet the end of the stream. */
  method ReadFull(src: Source, buf: array<byte>, n: nat) returns (ok: bool)
    requires n <= buf.Length
    modifies src, buf
    ensures ok <==> |old(src.left)| >= n
    ensures ok ==> buf[..n] == old(src.left)[..n] && src.left == old(src.left)[n..]
    ensures !ok ==> src.left == []
  {
    var p := 0;
    assert src.left == old(src.left)[0..];
    while p < n
      invariant 0 <= p <= n && p <= |old(src.left)|
      invariant buf[..p] == old(src.left)[..p] && src.left == old(src.left)[p..]
      decreases n - p, src.interrupts
    {
      var r := src.Read(n - p);
      match r {
        case Interrupted => continue;
        case Eof => return false;
        case Bytes(b) =>
          CopyInto(buf, p, b);
          assert old(src.left)[p..] == b + src.left;
          assert old(src.left)[..p + |b|] == old(src.left)[..p] + b;
          p := p + |b|;
      }
    }
    ok := true;
  }

  /** memcpy into buf at p. */
  method CopyInto(buf: array<byte>, p: nat, b: seq<byte>)
    requires p + |b| <= buf.Length
    modifies buf
    ensures buf[..p + |b|] == old(buf[..p]) + b
    ensures buf[p + |b|..] == old(buf[p + |b|..])
  {
    var i := 0;
    while i < |b|
      invariant 0 <= i <= |b|
      invariant buf[..p] == old(buf[..p]) && buf[p..p + i] == b[..i]
      invariant buf[p + |b|..] == old(buf[p + |b|..])
    {
      buf[p + i] := b[i];
      i := i + 1;
      assert buf[p..p + i] == buf[p..p + i - 1] + [b[i - 1]];
    }
    assert buf[..p + |b|] == buf[..p] + buf[p..p + |b|];
  }

  /** hegel_buf: a small inline array first, heap arrays of doubling size after. */
  class Buffer {
    const small: array<byte>
    var data: array<byte>
    var len: nat

    ghost predicate Valid() reads this {
      small.Length == 256 && data.Length >= 256 && len <= data.Length
    }

    ghost function Contents(): seq<byte>
      requires Valid()
      reads this, data
    {
      data[..len]
    }

    constructor ()
      ensures Valid() && Contents() == [] && fresh(small) && data == small
    {
      var s := new byte[256];
      small, data, len := s, s, 0;
    }

    method Put(p: seq<byte>)
      requires Valid()
      modifies this, data
      ensures Valid() && Contents() == old(Contents()) + p
      ensures data == old(data) || fresh(data)
    {
      if len + |p| > data.Length {
        var cap := data.Length * 2;
        while cap < len + |p|
          invariant cap >= 512 && cap > len
        {
          cap := cap * 2;
        }
        var d := new byte[cap];
        CopyInto(d, 0, data[..len]);
        assert d[..len] == old(Contents());
        data := d;
      }
      CopyInto(data, len, p);
      len := len + |p|;
    }

    method Clear()
      requires Valid()
      modifies this
      ensures Valid() && Contents() == [] && data == old(data)
    {
      len := 0;
    }
  }

  /** The reader's working memory: a header, a chunk, a reused payload buffer. */
  class Receiver {
    const header: array<byte>
    const chunk: array<byte>
    const payload: Buffer

    ghost predicate Valid() reads this, payload {
      header.Length == 8 && chunk.Length == 4096 && payload.Valid() &&
      header != chunk && payload.data != header && payload.data != chunk && payload.small != header &&
      payload.small != chunk
    }

    constructor ()
      ensures Valid() && fresh(header) && fresh(chunk) && fresh(payload) && fresh(payload.data)
    {
      header, chunk := new byte[8], new byte[4096];
      payload := new Buffer();
    }

    /** One frame: the header, then the payload in chunks of at most 4096 bytes.  None at
        the end of the stream, also when it ends inside the frame. */
    method ReceiveFrame(src: Source) returns (f: Option<Frame>)
      requires Valid()
      modifies src, header, chunk, payload, payload.data
      ensures Valid() && (payload.data == old(payload.data) || fresh(payload.data))
      ensures var s := old(src.left);
        if Whole(s) then f == Some(First(s)) && src.left == s[FirstLen(s)..]
        else f.None? && src.left == []
    {
      ghost var s := src.left;
      var ok := ReadFull(src, header, 8);
      if !ok { return None; }
      assert header[..8] == s[..8] && header[4..8] == s[4..8];
      var op, len := header[0], FromLE(header[4..8]);
      ok := ReceivePayload(src, len);
      if !ok { return None; }
      FromLEBound(s[4..8]);
      Pow256Four();
      var body := payload.data[..payload.len];
      assert s[8..][..len] == s[8..8 + len] && s[8..][len..] == s[8 + len..];
      f := Some(Frame(op, body));
    }

    /** The payload buffer is reused; it grows by doubling when a chunk does not fit. */
    method ReceivePayload(src: Source, len: nat) returns (ok: bool)
      requires Valid()
      modifies src, header, chunk, payload, payload.data
      ensures Valid() && (payload.data == old(payload.data) || fresh(payload.data))
      ensures ok <==> |old(src.left)| >= len
      ensures ok ==> payload.Contents() == old(src.left)[..len] && src.left == old(src.left)[len..]
      ensures !ok ==> src.left == []
    {
      hide Buffer.Contents, Buffer.Valid;
      ghost var s := src.left;
      payload.Clear();
      var got := 0;
      assert s[..0] == [] && s[0..] == s;
      while got < len
        invariant 0 <= got <= len && got <= |s|
        invariant Valid() && (payload.data == old(payload.data) || fresh(payload.data))
        invariant payload.Contents() == s[..got] && src.left == s[got..]
      {
        var n := if len - got < 4096 then len - got else 4096;
        ok := ReceiveChunk(src, n);
        if !ok { return; }
        NextSlice(s, got, n);
        got := got + n;
      }
      ok := true;
    }

    /** The next n bytes, by way of the chunk. */
    method ReceiveChunk(src: Source, n: nat) returns (ok: bool)
      requires Valid() && n <= 4096
      modifies src, chunk, payload, payload.data
      ensures Valid() && (payload.data == old(payload.data) || fresh(payload.data))
      ensures ok <==> |old(src.left)| >= n
      ensures ok ==> payload.Contents() == old(payload.Contents()) + old(src.left)[..n]
      ensures ok ==> src.left == old(src.left)[n..]
      ensures !ok ==> src.left == []
    {
      ok := ReadFull(src, chunk, n);
      if ok { payload.Put(chunk[..n]); }
    }

    /** serve_child's loop: dispatch frames until a terminal message or the end of the
        stream.  Returns the frames handed to the server, in order. */
    method ServeLoop(src: Source) returns (log: seq<Frame>, ended: bool)
      requires Valid()
      modifies src, header, chunk, payload, payload.data
      ensures log == UpToTerminal(Dispatched(old(src.left)))
      ensures ended <==> log != [] && Terminal(log[|log| - 1])
    {
      hide First, Whole, FirstLen, Dispatched, UpToTerminal;
      ghost var all := UpToTerminal(Dispatched(src.left));
      log, ended := [], false;
      while true
        invariant Valid() && (payload.data == old(payload.data) || fresh(payload.data))
        invariant !ended && all == log + UpToTerminal(Dispatched(src.left))
        invariant log == [] || !Terminal(log[|log| - 1])
        decreases |src.left|
      {
        ghost var s := src.left;
        var f := ReceiveFrame(src);
        DispatchStep(s);
        if f.None? { return; }
        ghost var rest := UpToTerminal(Dispatched(src.left));
        assert log + ([f.value] + rest) == log + [f.value] + rest;
        log := log + [f.value];
        if Terminal(f.value) { ended := true; return; }
      }
    }
  }

  lemma NextSlice(s: seq<byte>, got: nat, n: nat)
    requires got + n <= |s|
    ensures s[..got + n] == s[..got] + s[got..][..n] && s[got..][n..] == s[got + n..]
  {
  }

  lemma DispatchStep(s: seq<byte>)
    ensures !Whole(s) ==> UpToTerminal(Dispatched(s)) == []
    ensures Whole(s) ==> |s[FirstLen(s)..]| < |s|
    ensures Whole(s) ==>
      (UpToTerminal(Dispatched(s)) ==
       [First(s)] + if Terminal(First(s)) then [] else UpToTerminal(Dispatched(s[FirstLen(s)..])))
  {
    hide First, FirstLen;
    if Whole(s) {
      var rest := Dispatched(s[FirstLen(s)..]);
      assert ([First(s)] + rest)[1..] == rest;
    }
  }

  /** The sender exits after a terminal message: DONE, STOPPED, ASSUME, FAIL or HEALTH. */
  predicate Terminal(f: Frame) { 60 <= f.op <= 64 }

  function UpToTerminal(fs: seq<Frame>): seq<Frame> {
    if fs == [] then [] else if Terminal(fs[0]) then [fs[0]] else [fs[0]] + UpToTerminal(fs[1..])
  }

  /** The writing end: how much of the stream got out before the reader vanished. */
  class Sink {
    var sent: seq<byte>
    var interrupts: nat
    var room: nat                    // bytes until the reader is gone
    const cuts: nat -> nat
    var tick: nat

    constructor (interrupts: nat, room: nat, cuts: nat -> nat)
      ensures sent == [] && this.room == room
    {
      this.interrupts, this.room, this.cuts, tick, sent := interrupts, room, cuts, 0, [];
    }

    /** None: interrupted.  Some(0): the reader is gone. */
    method Write(b: seq<byte>) returns (n: Option<nat>)
      requires b != []
      modifies this
      ensures interrupts <= old(interrupts) && room <= old(room)
      ensures n.None? ==> sent == old(sent) && room == old(room) && interrupts < old(interrupts)
      ensures n.Some? ==> n.value <= |b| && sent == old(sent) + b[..n.value] && room == old(room) - n.value
      ensures n.Some? && n.value == 0 ==> room == 0
    {
      var cut := cuts(tick);
      tick := tick + 1;
      if interrupts > 0 && cut % 2 == 1 {
        interrupts := interrupts - 1;
        return None;
      }
      var most := if room < |b| then room else |b|;
      if most == 0 {
        assert b[..0] == [];
        return Some(0);
      }
      var k := 1 + cut / 2 % most;
      sent := sent + b[..k];
      room := room - k;
      n := Some(k);
    }
  }

  /** hegel__write_full: everything, or a prefix when the reader vanished. */
  method WriteFull(dst: Sink, b: seq<byte>) returns (ok: bool)
    modifies dst
    ensures ok <==> |b| <= old(dst.room)
    ensures dst.sent == old(dst.sent) + b[..if ok then |b| else old(dst.room)]
    ensures dst.room == if ok then old(dst.room) - |b| else 0
  {
    var p := 0;
    while p < |b|
      invariant 0 <= p <= |b| && p <= old(dst.room) && dst.room == old(dst.room) - p
      invariant dst.sent == old(dst.sent) + b[..p]
      decreases |b| - p, dst.interrupts
    {
      var n := dst.Write(b[p..]);
      if n.None? { continue; }
      assert b[..p] + b[p..][..n.value] == b[..p + n.value];
      p := p + n.value;
      if n.value == 0 { return false; }
    }
    ok := true;
  }

  /** write_frame: false when the sender gave up (it exits). */
  method WriteFrame(dst: Sink, f: Frame) returns (ok: bool)
    modifies dst
    ensures ok <==> |Encode(f)| <= old(dst.room)
    ensures dst.sent == old(dst.sent) + Encode(f)[..if ok then |Encode(f)| else old(dst.room)]
    ensures dst.room == if ok then old(dst.room) - |Encode(f)| else 0
  {
    var head := [f.op, 0, 0, 0] + LE(|f.payload|, 4);
    assert Encode(f) == head + f.payload;
    ok := WriteFull(dst, head);
    if !ok {
      assert Encode(f)[..old(dst.room)] == head[..old(dst.room)];
      return;
    }
    assert head[..8] == head;
    if f.payload != [] {
      ghost var r := dst.room;
      ok := WriteFull(dst, f.payload);
      assert Encode(f)[..8 + |f.payload|] == head + f.payload[..|f.payload|];
      if !ok { assert Encode(f)[..old(dst.room)] == head + f.payload[..r]; }
    }
  }

  /** The first k frames, and no more, fit in `room` bytes. */
  predicate LastWhole(fs: seq<Frame>, room: nat, k: nat) {
    k <= |fs| && |EncodeAll(fs[..k])| <= room && (k < |fs| ==> room < |EncodeAll(fs[..k+1])|)
  }

  /**
    End to end: frames written to a pipe that may break at any byte, read back through any
    pattern of short and interrupted reads, are dispatched whole, in order, up to the first
    terminal message or the break.
   */
  method Transmit(fs: seq<Frame>, room: nat, wcuts: nat -> nat, rcuts: nat -> nat, wints: nat, rints: nat)
    returns (log: seq<Frame>)
    ensures exists k: nat :: LastWhole(fs, room, k) && log == UpToTerminal(fs[..k])
  {
    hide Encode;
    var dst := new Sink(wints, room, wcuts);
    var i := 0;
    assert fs[..0] == [];
    while i < |fs|
      invariant 0 <= i <= |fs|
      invariant dst.sent == EncodeAll(fs[..i]) && dst.room + |EncodeAll(fs[..i])| == room
    {
      SentPrefix(fs, i);
      EncodeAllPush(fs[..i], fs[i]);
      assert fs[..i] + [fs[i]] == fs[..i+1];
      var ok := WriteFrame(dst, fs[i]);
      if !ok { break; }
      i := i + 1;
    }
    assert fs[..|fs|] == fs;
    assert dst.sent <= EncodeAll(fs) && (|dst.sent| == room || dst.sent == EncodeAll(fs));
    ghost var k := FramesSurvive(fs, dst.sent);
    if dst.sent == EncodeAll(fs) {
      AllFramesArrive(fs);
    }
    var src := new Source(dst.sent, rints, rcuts);
    var rx := new Receiver();
    var ended;
    log, ended := rx.ServeLoop(src);
    assert LastWhole(fs, room, k);
  }
}
