/** Length-prefixed framing over a transport that may move fewer bytes than asked. */
module Framing {
  import opened Common

  type Byte = b: int | 0 <= b < 256

  const TWO_32: nat := 0x1_0000_0000
  const MAX_FRAME: nat := 16 * 1024 * 1024

  /** The four big-endian bytes of a 32-bit length. */
  function Header(len: nat): (h: seq<Byte>)
    requires len < TWO_32
    ensures |h| == 4
  {
    var by8 := len / 256;
    var by16 := by8 / 256;
    [by16 / 256, by16 % 256, by8 % 256, len % 256]
  }

  function LengthOf(h: seq<Byte>): nat
    requires |h| >= 4
  {
    h[0] as int * 0x100_0000 + h[1] as int * 0x1_0000 + h[2] as int * 0x100 + h[3] as int
  }

  lemma HeaderRoundTrip(len: nat)
    requires len < TWO_32
    ensures LengthOf(Header(len)) == len
  {
  }

  /** The first differing byte decides. */
  predicate Below(a: seq<Byte>, b: seq<Byte>) {
    a != [] && b != [] && (a[0] < b[0] || (a[0] == b[0] && Below(a[1..], b[1..])))
  }

  /** The most significant byte comes first: headers compare byte by byte as their lengths do. */
  lemma HeadersCompare(a: nat, b: nat)
    requires a < TWO_32 && b < TWO_32
    ensures Below(Header(a), Header(b)) <==> a < b
  {
    BelowFour(Header(a), Header(b));
    HeaderRoundTrip(a);
    HeaderRoundTrip(b);
  }

  lemma BelowFour(a: seq<Byte>, b: seq<Byte>)
    requires |a| == |b| == 4
    ensures Below(a, b) <==> LengthOf(a) < LengthOf(b)
  {
    assert Below(a[3..], b[3..]) <==> a[3] < b[3];
    assert Below(a[2..], b[2..]) <==> a[2] < b[2] || (a[2] == b[2] && Below(a[3..], b[3..]));
    assert Below(a[1..], b[1..]) <==> a[1] < b[1] || (a[1] == b[1] && Below(a[2..], b[2..]));
  }

  /** frame: the length is cut to 32 bits. */
  function Frame(json: seq<Byte>): seq<Byte> {
    Header(|json| % TWO_32) + json
  }

  /** deframe. The completeness test adds 4 in 32-bit arithmetic; a copy that would then leave the buffer
      is given the value Err(Internal). */
  function Deframe(buf: seq<Byte>): Result<seq<Byte>> {
    if |buf| < 4 then Err(InvalidArg)
    else
      var len := LengthOf(buf);
      if |buf| < (4 + len) % TWO_32 then Err(InvalidArg)
      else if |buf| < 4 + len then Err(Internal)
      else Ok(buf[4..4 + len])
  }

  /** frame: four pushes, then the payload. */
  method MakeFrame(json: seq<Byte>) returns (out: seq<Byte>)
    ensures out == Frame(json)
  {
    var len := |json| % TWO_32;
    out := [];
    out := out + [len / 0x100_0000];
    out := out + [len / 0x1_0000 % 256];
    out := out + [len / 0x100 % 256];
    out := out + [len % 256];
    HeaderByShifts(len);
    out := out + json;
  }

  lemma HeaderByShifts(len: nat)
    requires len < TWO_32
    ensures len / 0x100_0000 < 256
    ensures Header(len) == [len / 0x100_0000, len / 0x1_0000 % 256, len / 0x100 % 256, len % 256]
  {
  }

  /** The announced length passes the 32-bit completeness test although the buffer is shorter. */
  predicate Overruns(buf: seq<Byte>) {
    |buf| >= 4 && LengthOf(buf) >= TWO_32 - 4 && |buf| < 4 + LengthOf(buf)
  }

  /** The copy would leave the buffer exactly for an incomplete frame whose length is one of the four largest. */
  lemma DeframeOverruns(buf: seq<Byte>)
    ensures Deframe(buf) == Err(Internal) <==> Overruns(buf)
  {
  }

  /** Four bytes are enough. */
  lemma OverrunExample()
    ensures Deframe([255, 255, 255, 255]) == Err(Internal)
  {
    DeframeOverruns([255, 255, 255, 255]);
  }

  /** deframe: the checks, then a copy byte by byte. `asked` is one past the last index the copy asks for: it
      stays within the buffer unless the frame overruns, and then it asks for the byte right behind the end. */
  method Unframe(buf: seq<Byte>) returns (r: Result<seq<Byte>>, ghost asked: nat)
    ensures r == Deframe(buf)
    ensures asked > |buf| <==> Overruns(buf)
    ensures Overruns(buf) ==> asked == |buf| + 1
    ensures r.Ok? ==> asked == 4 + LengthOf(buf)
  {
    asked := 0;
    if |buf| < 4 {
      return Err(InvalidArg), asked;
    }
    var len := LengthOf(buf);
    if |buf| < (4 + len) % TWO_32 {
      return Err(InvalidArg), asked;
    }
    var s: seq<Byte> := [];
    var i := 0;
    asked := 4;
    while i < len
      invariant 0 <= i <= len && 4 + i <= |buf| && s == buf[4..4 + i] && asked == 4 + i
    {
      asked := 4 + i + 1;
      if 4 + i >= |buf| {
        return Err(Internal), asked;
      }
      s := s + [buf[4 + i]];
      i := i + 1;
    }
    return Ok(s), asked;
  }

  /** Unframing a frame gives the payload back, whatever follows it, exactly when its size fits 32 bits. */
  lemma DeframeUndoesFrame(json: seq<Byte>, rest: seq<Byte>)
    ensures Deframe(Frame(json) + rest) == Ok(json) <==> |json| < TWO_32
  {
    var buf := Frame(json) + rest;
    HeaderRoundTrip(|json| % TWO_32);
    assert buf[..4] == Header(|json| % TWO_32);
    assert LengthOf(buf) == LengthOf(buf[..4]);
    if |json| < TWO_32 {
      assert buf[4..4 + |json|] == json;
    }
  }

  /** What a receiver gets from the bytes that will arrive before the peer closes, and what it leaves. */
  datatype Incoming = Incoming(result: Result<seq<Byte>>, rest: seq<Byte>)

  function Receive(bytes: seq<Byte>): Incoming {
    if |bytes| < 4 then Incoming(Err(Io), [])
    else
      var len := LengthOf(bytes);
      if len > MAX_FRAME then Incoming(Err(InvalidArg), bytes[4..])
      else if |bytes| < 4 + len then Incoming(Err(Io), [])
      else Incoming(Ok(bytes[4..4 + len]), bytes[4 + len..])
  }

  /** A framed payload arrives intact, and exactly its 4 + n bytes are consumed, precisely up to 16 MiB. */
  lemma ReceiveUndoesFrame(json: seq<Byte>, rest: seq<Byte>)
    ensures Receive(Frame(json) + rest) == Incoming(Ok(json), rest) <==> |json| <= MAX_FRAME
  {
    var buf := Frame(json) + rest;
    HeaderRoundTrip(|json| % TWO_32);
    assert buf[..4] == Header(|json| % TWO_32);
    assert LengthOf(buf) == LengthOf(buf[..4]);
    if |json| <= MAX_FRAME {
      assert buf[4..4 + |json|] == json;
      assert buf[4 + |json|..] == rest;
    }
  }

  /** Four bytes are the header of the length they give. */
  lemma HeaderOfLength(h: seq<Byte>)
    requires |h| == 4
    ensures LengthOf(h) < TWO_32 && Header(LengthOf(h)) == h
  {
    var by8 := h[0] as int * 0x1_0000 + h[1] as int * 0x100 + h[2] as int;
    var by16 := h[0] as int * 0x100 + h[1] as int;
    assert LengthOf(h) == by8 * 256 + h[3] as int && by8 == by16 * 256 + h[2] as int;
  }

  lemma BeginsWithBoth(bytes: seq<Byte>, h: seq<Byte>, json: seq<Byte>)
    requires |h| == 4
    ensures h + json <= bytes <==> 4 + |json| <= |bytes| && bytes[..4] == h && bytes[4..4 + |json|] == json
  {
    if h + json <= bytes {
      assert bytes[..4] == (h + json)[..4] == h;
      assert bytes[4..4 + |json|] == (h + json)[4..] == json;
    }
  }

  lemma BeginsWithHeader(bytes: seq<Byte>, len: nat)
    requires len < TWO_32 && |bytes| >= 4
    ensures bytes[..4] == Header(len) <==> LengthOf(bytes) == len
  {
    assert LengthOf(bytes[..4]) == LengthOf(bytes);
    HeaderOfLength(bytes[..4]);
    HeaderRoundTrip(len);
  }

  /** What begins with a frame: four bytes that give a length, and so many more. */
  lemma BeginsWithFrame(bytes: seq<Byte>, json: seq<Byte>)
    requires |json| < TWO_32
    ensures Frame(json) <= bytes <==>
            |bytes| >= 4 && LengthOf(bytes) == |json| && 4 + |json| <= |bytes| && bytes[4..4 + |json|] == json
  {
    BeginsWithBoth(bytes, Header(|json|), json);
    if |bytes| >= 4 {
      BeginsWithHeader(bytes, |json|);
    }
  }

  /** A payload is unframed exactly from what begins with its frame. */
  lemma DeframedMeans(buf: seq<Byte>, json: seq<Byte>)
    ensures Deframe(buf) == Ok(json) <==> |json| < TWO_32 && Frame(json) <= buf
    ensures Deframe(buf).Err? && !Overruns(buf) ==> Deframe(buf) == Err(InvalidArg)
  {
    if |json| < TWO_32 {
      BeginsWithFrame(buf, json);
    } else if |buf| >= 4 {
      assert LengthOf(buf[..4]) == LengthOf(buf);
      HeaderOfLength(buf[..4]);
    }
  }

  /** A payload is received exactly from what begins with its frame, and the rest is left, up to 16 MiB. */
  lemma ReceivedMeans(bytes: seq<Byte>, json: seq<Byte>, rest: seq<Byte>)
    ensures Receive(bytes) == Incoming(Ok(json), rest) <==> |json| <= MAX_FRAME && bytes == Frame(json) + rest
  {
    if |json| <= MAX_FRAME {
      BeginsWithFrame(bytes, json);
      if Frame(json) <= bytes {
        assert bytes == Frame(json) + bytes[4 + |json|..];
      }
    }
  }

  ghost predicate Completes(bytes: seq<Byte>, more: seq<Byte>, json: seq<Byte>) {
    more != [] && |json| <= MAX_FRAME && bytes + more == Frame(json)
  }

  /** Nothing else arrives: the answer is an I/O error exactly when the length is not there yet or more bytes would
      complete the frame, with everything taken, and otherwise invalid argument, with just the length taken. */
  lemma ReceiveFails(bytes: seq<Byte>)
    ensures Receive(bytes).result == Err(Io) <==> |bytes| < 4 || exists more, json :: Completes(bytes, more, json)
    ensures Receive(bytes).result == Err(Io) ==> Receive(bytes).rest == []
    ensures Receive(bytes).result.Err? && Receive(bytes).result != Err(Io) ==>
              Receive(bytes).result == Err(InvalidArg) && |bytes| >= 4 && bytes == bytes[..4] + Receive(bytes).rest
  {
    if |bytes| >= 4 {
      if Receive(bytes).result == Err(Io) {
        var more := Completed(bytes);
      }
      forall more, json | Completes(bytes, more, json)
        ensures LengthOf(bytes) == |json|
      {
        BeginsWithFrame(bytes + more, json);
        assert (bytes + more)[..4] == bytes[..4];
      }
    }
  }

  lemma Completed(bytes: seq<Byte>) returns (more: seq<Byte>)
    requires |bytes| >= 4 && LengthOf(bytes) <= MAX_FRAME && |bytes| < 4 + LengthOf(bytes)
    ensures Completes(bytes, more, bytes[4..] + more)
  {
    var len := LengthOf(bytes);
    more := Zeros(4 + len - |bytes|);
    BeginsWithHeader(bytes, len);
    Regrouped(bytes, Header(len), more);
    FrameCompleted(bytes, more, bytes[4..] + more, len);
  }

  lemma FrameCompleted(bytes: seq<Byte>, more: seq<Byte>, json: seq<Byte>, len: nat)
    requires more != [] && |json| == len <= MAX_FRAME && bytes + more == Header(len) + json
    ensures Completes(bytes, more, json)
  {
  }

  lemma Zeros(n: nat) returns (s: seq<Byte>)
    ensures |s| == n
  {
    s := seq(n, i => 0 as Byte);
  }

  lemma Regrouped(bytes: seq<Byte>, h: seq<Byte>, more: seq<Byte>)
    requires |bytes| >= 4 && bytes[..4] == h
    ensures bytes + more == h + (bytes[4..] + more)
  {
  }

  /** Frames written one after another. */
  function Stream(messages: seq<seq<Byte>>): seq<Byte> {
    if messages == [] then [] else Frame(messages[0]) + Stream(messages[1..])
  }

  /** The results of `k` receives in a row. */
  function ReceiveMany(bytes: seq<Byte>, k: nat): seq<Result<seq<Byte>>>
    decreases k
  {
    if k == 0 then [] else [Receive(bytes).result] + ReceiveMany(Receive(bytes).rest, k - 1)
  }

  function AllDelivered(messages: seq<seq<Byte>>): seq<Result<seq<Byte>>> {
    if messages == [] then [] else [Ok(messages[0])] + AllDelivered(messages[1..])
  }

  lemma FirstFrameArrives(messages: seq<seq<Byte>>, rest: seq<Byte>)
    requires messages != [] && |messages[0]| <= MAX_FRAME
    ensures Receive(Stream(messages) + rest) == Incoming(Ok(messages[0]), Stream(messages[1..]) + rest)
  {
    var tail := Stream(messages[1..]) + rest;
    assert Stream(messages) + rest == Frame(messages[0]) + tail;
    ReceiveUndoesFrame(messages[0], tail);
  }

  /** A stream of frames is self-delimiting: the messages come out one by one, in order. */
  lemma {:induction false} StreamDelivers(messages: seq<seq<Byte>>, rest: seq<Byte>)
    requires forall i :: 0 <= i < |messages| ==> |messages[i]| <= MAX_FRAME
    ensures ReceiveMany(Stream(messages) + rest, |messages|) == AllDelivered(messages)
  {
    if messages != [] {
      FirstFrameArrives(messages, rest);
      StreamDelivers(messages[1..], rest);
    }
  }

  /** What the operating system does at one send or recv call: a signal, a transfer of at most that many
      bytes, or an error. */
  datatype IoEvent = Interrupted | Moves(count: nat) | Fails

  ghost predicate NoFailure(script: seq<IoEvent>) {
    forall i :: 0 <= i < |script| ==> !script[i].Fails?
  }

  /** The next call moves as much as it is asked for. */
  predicate MovesAll(script: seq<IoEvent>, max: nat) {
    script == [] || (script[0].Moves? && (script[0].count >= max || max == 1))
  }

  function Later(script: seq<IoEvent>): seq<IoEvent> {
    if script == [] then [] else script[1..]
  }

  function Least(a: nat, b: nat): nat {
    if a < b then a else b
  }

  /** The bytes under way, and what the coming calls will do; once the script is used up every call moves
      all it can. */
  class Wire {
    var bytes: seq<Byte>
    var script: seq<IoEvent>

    /** send(): the number of bytes taken, or a negative number. */
    method Send(data: seq<Byte>) returns (n: int, interrupted: bool)
      requires data != []
      modifies this
      ensures n <= |data| && bytes == old(bytes) + (if n > 0 then data[..n] else [])
      ensures script == if old(script) == [] then [] else old(script)[1..]
      ensures old(script) == [] ==> n == |data|
      ensures old(script) != [] && old(script)[0].Moves? ==> n == Least(old(script)[0].count, |data|)
      ensures n < 0 <==> old(script) != [] && !old(script)[0].Moves?
      ensures interrupted <==> old(script) != [] && old(script)[0].Interrupted?
    {
      interrupted := false;
      if script == [] {
        n := |data|;
      } else {
        match script[0] {
          case Interrupted => n := -1; interrupted := true;
          case Fails => n := -1;
          case Moves(c) => n := Least(c, |data|);
        }
        script := script[1..];
      }
      if n > 0 {
        bytes := bytes + data[..n];
      }
    }

    /** recv(): at least one byte while there are any, none once the peer has closed. */
    method Recv(max: nat) returns (got: seq<Byte>, error: bool, interrupted: bool)
      requires max > 0
      modifies this
      ensures script == if old(script) == [] then [] else old(script)[1..]
      ensures error <==> old(script) != [] && !old(script)[0].Moves?
      ensures interrupted <==> old(script) != [] && old(script)[0].Interrupted?
      ensures |got| <= max && old(bytes) == got + bytes
      ensures error ==> got == []
      ensures !error && old(bytes) != [] ==> got != []
      ensures MovesAll(old(script), max) && |old(bytes)| >= max ==> |got| == max
      ensures |got| == max ==> MovesAll(old(script), max)
    {
      got, error, interrupted := [], false, false;
      var n := max;
      if script != [] {
        match script[0] {
          case Interrupted => error := true; interrupted := true;
          case Fails => error := true;
          case Moves(c) => n := Least(if c == 0 then 1 else c, max);
        }
        script := script[1..];
      }
      if !error {
        n := Least(n, |bytes|);
        got := bytes[..n];
        bytes := bytes[n..];
      }
    }

    /** rawSend, and the server's sendAll. */
    method RawSend(data: seq<Byte>) returns (r: Status)
      modifies this
      ensures r.Ok? ==> bytes == old(bytes) + data
      ensures r.Err? ==> exists k: nat :: k <= |data| && bytes == old(bytes) + data[..k]
      ensures NoFailure(old(script)) ==> r.Ok? && NoFailure(script)
    {
      var sent := 0;
      while sent < |data|
        invariant 0 <= sent <= |data|
        invariant bytes == old(bytes) + data[..sent]
        invariant NoFailure(old(script)) ==> NoFailure(script)
        decreases |script|, |data| - sent
      {
        var n, interrupted := Send(data[sent..]);
        if n < 0 {
          if interrupted {
            continue;
          }
          return Err(Io);
        }
        assert data[..sent] + data[sent..][..n] == data[..sent + n];
        sent := sent + n;
      }
      assert data[..sent] == data;
      return DONE;
    }

    /** recvExact, and both loops of rawRecv. */
    method RecvExact(count: nat) returns (r: Result<seq<Byte>>)
      modifies this
      ensures r.Ok? ==> |r.value| == count && old(bytes) == r.value + bytes
      ensures NoFailure(old(script)) ==> NoFailure(script)
      ensures NoFailure(old(script)) ==>
        if count <= |old(bytes)| then r.Ok? else r == Err(Io) && bytes == []
    {
      var got: seq<Byte> := [];
      while |got| < count
        invariant |got| <= count && old(bytes) == got + bytes
        invariant NoFailure(old(script)) ==> NoFailure(script)
        decreases |script|, count - |got|
      {
        ghost var was := bytes;
        var part, error, interrupted := Recv(count - |got|);
        if error {
          if interrupted {
            continue;
          }
          return Err(Io);
        }
        if part == [] {
          return Err(Io);
        }
        assert got + was == (got + part) + bytes;
        got := got + part;
      }
      return Ok(got);
    }

    /** The named-pipe server's side: the pipe is in byte mode, but header and payload are each read only once. It
        gets a request exactly when it is there and each read moves all of its part. */
    method ReadOnce() returns (r: Result<seq<Byte>>)
      modifies this
      ensures r.Ok? <==> Receive(old(bytes)).result.Ok? && MovesAll(old(script), 4)
                         && (LengthOf(old(bytes)) == 0 || MovesAll(Later(old(script)), LengthOf(old(bytes))))
      ensures r.Ok? ==> r == Receive(old(bytes)).result && bytes == Receive(old(bytes)).rest
    {
      ghost var all := bytes;
      var hdr, failed, interrupted := Recv(4);
      if failed || |hdr| != 4 {
        return Err(Io);
      }
      assert all[..4] == hdr && all[4..] == bytes;
      assert LengthOf(all) == LengthOf(all[..4]);
      var len := LengthOf(hdr);
      if len > MAX_FRAME {
        return Err(InvalidArg);
      }
      var payload: seq<Byte> := [];
      if len > 0 {
        payload, failed, interrupted := Recv(len);
        if failed || |payload| != len {
          return Err(Io);
        }
      }
      assert all[4..4 + len] == payload;
      assert all[4 + len..] == bytes;
      return Ok(payload);
    }

    /** rawRecv: however the transport splits the transfer, the outcome depends on the bytes alone. */
    method RawRecv() returns (r: Result<seq<Byte>>)
      modifies this
      ensures NoFailure(old(script)) ==> r == Receive(old(bytes)).result && bytes == Receive(old(bytes)).rest
      ensures NoFailure(old(script)) ==> NoFailure(script)
    {
      ghost var all := bytes;
      var hdr := RecvExact(4);
      if hdr.Err? {
        return hdr;
      }
      assert all[..4] == hdr.value && all[4..] == bytes;
      assert LengthOf(all) == LengthOf(all[..4]);
      var len := LengthOf(hdr.value);
      if len > MAX_FRAME {
        return Err(InvalidArg);
      }
      ghost var body := bytes;
      r := RecvExact(len);
      if r.Ok? {
        assert all[4..4 + len] == r.value;
        assert all[4 + len..] == bytes;
      }
    }
  }

  /** rawSend of a frame on one side, rawRecv on the other, each under its own splitting: the payload
      arrives and nothing is left over. */
  method Transfer(wire: Wire, json: seq<Byte>, receiving: seq<IoEvent>) returns (r: Result<seq<Byte>>)
    requires wire.bytes == [] && NoFailure(wire.script) && NoFailure(receiving) && |json| <= MAX_FRAME
    modifies wire
    ensures r == Ok(json) && wire.bytes == []
  {
    var framed := MakeFrame(json);
    var sent := wire.RawSend(framed);
    wire.script := receiving;
    ReceiveUndoesFrame(json, []);
    assert wire.bytes == Frame(json) + [];
    r := wire.RawRecv();
  }
}
