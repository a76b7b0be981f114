/** The frame format of the UART link: a 16-byte little-endian header and a payload. */
module Framing {
  import opened Bytes

  const HEADER_SIZE := 16

  // `len` is the full 32-bit header field. Only its low byte is used to delimit
  // a frame, by the transmit thread and by the receiver alike.
  datatype Message = Message(len: U32, kind: U32, model: U32, addr: U32, data: seq<Byte>)

  datatype Parsed = Parsed(msgs: seq<Message>, rest: seq<Byte>)

  // The buffer uart_send fills: four header words, then the payload.
  function Layout(m: Message): (b: seq<Byte>)
    ensures |b| == HEADER_SIZE + |m.data|
  {
    Le32(m.len) + Le32(m.kind) + Le32(m.model) + Le32(m.addr) + m.data
  }

  // What of a sent message reaches the wire: the transmit thread sizes the
  // transfer by the low byte of the length.
  function OnWire(m: Message): Message
    requires |m.data| == m.len
  {
    m.(data := m.data[..m.len % 0x100])
  }

  // A message as a receiver can have rebuilt it.
  predicate Delimited(m: Message) {
    |m.data| == m.len % 0x100
  }

  function Encode(ms: seq<Message>): seq<Byte> {
    if ms == [] then [] else Layout(ms[0]) + Encode(ms[1..])
  }

  // No frame ends in s.
  predicate Incomplete(s: seq<Byte>) {
    |s| == 0 || |s| < HEADER_SIZE + s[0]
  }

  function ParseFrame(f: seq<Byte>): Message
    requires |f| >= HEADER_SIZE
  {
    Message(FromLe32(f[0..4]), FromLe32(f[4..8]), FromLe32(f[8..12]), FromLe32(f[12..16]), f[16..])
  }

  // The pure decoder: complete frames off the front, what is left over.
  function Decode(s: seq<Byte>): Parsed
    decreases |s|
  {
    if Incomplete(s) then Parsed([], s)
    else
      var n := HEADER_SIZE + s[0];
      var tail := Decode(s[n..]);
      Parsed([ParseFrame(s[..n])] + tail.msgs, tail.rest)
  }

  // What is where in a frame: four little-endian words, then the payload.
  lemma FrameBytes(m: Message)
    ensures forall k: nat | k < 4 ::
              && Layout(m)[k] == ByteAt(m.len, k) && Layout(m)[4 + k] == ByteAt(m.kind, k)
              && Layout(m)[8 + k] == ByteAt(m.model, k) && Layout(m)[12 + k] == ByteAt(m.addr, k)
    ensures forall i: nat | i < |m.data| :: Layout(m)[16 + i] == m.data[i]
  {
    ByteOrders(m.len, 0);
    ByteOrders(m.kind, 0);
    ByteOrders(m.model, 0);
    ByteOrders(m.addr, 0);
    hide Le32, ByteAt;
  }

  lemma ParseLayout(m: Message)
    ensures ParseFrame(Layout(m)) == m
    ensures Layout(m)[0] == m.len % 0x100
  {
    var b := Layout(m);
    assert b[0..4] == Le32(m.len) && b[4..8] == Le32(m.kind);
    assert b[8..12] == Le32(m.model) && b[12..16] == Le32(m.addr) && b[16..] == m.data;
    FromLe32OfLe32(m.len);
    FromLe32OfLe32(m.kind);
    FromLe32OfLe32(m.model);
    FromLe32OfLe32(m.addr);
  }

  lemma LayoutParse(f: seq<Byte>)
    requires |f| >= HEADER_SIZE
    ensures Layout(ParseFrame(f)) == f
    ensures ParseFrame(f).len % 0x100 == f[0]
  {
    Le32OfFromLe32(f[0..4]);
    Le32OfFromLe32(f[4..8]);
    Le32OfFromLe32(f[8..12]);
    Le32OfFromLe32(f[12..16]);
    assert f == f[0..4] + f[4..8] + f[8..12] + f[12..16] + f[16..];
  }

  predicate AllDelimited(ms: seq<Message>) {
    forall i | 0 <= i < |ms| :: Delimited(ms[i])
  }

  lemma DecodeFirst(m: Message, t: seq<Byte>)
    requires Delimited(m)
    ensures Decode(Layout(m) + t) == Parsed([m] + Decode(t).msgs, Decode(t).rest)
  {
    ParseLayout(m);
    hide Layout, ParseFrame;
    var s := Layout(m) + t;
    var n := |Layout(m)|;
    assert s[0] == Layout(m)[0];
    assert s[..n] == Layout(m) && s[n..] == t;
  }

  lemma {:induction false} DecodeOfEncode(ms: seq<Message>, rest: seq<Byte>)
    requires AllDelimited(ms)
    requires Incomplete(rest)
    ensures Decode(Encode(ms) + rest) == Parsed(ms, rest)
  {
    hide Layout, ParseFrame;
    if ms == [] {
      assert Encode(ms) + rest == rest;
    } else {
      assert Encode(ms) + rest == Layout(ms[0]) + (Encode(ms[1..]) + rest);
      DecodeFirst(ms[0], Encode(ms[1..]) + rest);
      DecodeOfEncode(ms[1..], rest);
    }
  }

  lemma {:induction false} EncodeOfDecode(s: seq<Byte>)
    ensures Encode(Decode(s).msgs) + Decode(s).rest == s
    decreases |s|
  {
    hide Layout, ParseFrame;
    if !Incomplete(s) {
      var n := HEADER_SIZE + s[0];
      LayoutParse(s[..n]);
      EncodeOfDecode(s[n..]);
      assert Decode(s).msgs[1..] == Decode(s[n..]).msgs;
      assert s == s[..n] + s[n..];
    }
  }

  lemma {:induction false} DecodedDelimited(s: seq<Byte>)
    ensures AllDelimited(Decode(s).msgs)
    ensures Incomplete(Decode(s).rest)
    decreases |s|
  {
    if !Incomplete(s) {
      var n := HEADER_SIZE + s[0];
      LayoutParse(s[..n]);
      hide ParseFrame;
      DecodedDelimited(s[n..]);
    }
  }

  // Parsing is unique: a stream parses as (ms, rest) exactly when it is the
  // encoding of ms followed by rest, whether or not a sender produced it.
  lemma DecodeIff(s: seq<Byte>, ms: seq<Message>, rest: seq<Byte>)
    ensures Decode(s) == Parsed(ms, rest)
       <==> s == Encode(ms) + rest && AllDelimited(ms) && Incomplete(rest)
  {
    hide Layout, ParseFrame;
    EncodeOfDecode(s);
    DecodedDelimited(s);
    if s == Encode(ms) + rest && AllDelimited(ms) && Incomplete(rest) {
      DecodeOfEncode(ms, rest);
    }
  }

  lemma {:induction false} EncodeConcat(a: seq<Message>, b: seq<Message>)
    ensures Encode(a + b) == Encode(a) + Encode(b)
  {
    if a == [] {
      assert a + b == b;
    } else {
      assert (a + b)[1..] == a[1..] + b;
      EncodeConcat(a[1..], b);
    }
  }

  // One more byte: it extends the unfinished frame, and finishes it exactly when
  // that reaches the delimited size. This is what one receive callback must do.
  lemma DecodeSnoc(s: seq<Byte>, b: Byte)
    ensures var p := Decode(s);
            Decode(s + [b]) ==
            if Incomplete(p.rest + [b]) then Parsed(p.msgs, p.rest + [b])
            else Parsed(p.msgs + [ParseFrame(p.rest + [b])], [])
    ensures !Incomplete(Decode(s).rest + [b]) ==>
              |Decode(s).rest + [b]| == HEADER_SIZE + (Decode(s).rest + [b])[0]
  {
    hide Layout, ParseFrame, Decode;
    var p := Decode(s);
    EncodeOfDecode(s);
    DecodedDelimited(s);
    var f := p.rest + [b];
    assert s + [b] == Encode(p.msgs) + f;
    if Incomplete(f) {
      DecodeOfEncode(p.msgs, f);
    } else {
      assert |p.rest| > 0 ==> f[0] == p.rest[0];
      LayoutParse(f);
      var m := ParseFrame(f);
      EncodeConcat(p.msgs, [m]);
      assert Encode([m]) == Layout(m) + Encode([]) == f;
      assert s + [b] == Encode(p.msgs + [m]) + [];
      DecodeOfEncode(p.msgs + [m], []);
    }
  }

  // Later bytes never change messages already complete.
  lemma {:induction false} DecodeMonotone(s: seq<Byte>, t: seq<Byte>)
    ensures Decode(s).msgs <= Decode(s + t).msgs
    decreases |t|
  {
    if t == [] {
      assert s + t == s;
    } else {
      var n := |t| - 1;
      assert s + t == (s + t[..n]) + [t[n]];
      DecodeMonotone(s, t[..n]);
      DecodeSnoc(s + t[..n], t[n]);
    }
  }

  predicate Sendable(ms: seq<Message>) {
    forall i | 0 <= i < |ms| :: |ms[i].data| == ms[i].len
  }

  function OnWireAll(ms: seq<Message>): (w: seq<Message>)
    requires Sendable(ms)
    ensures |w| == |ms| && forall i | 0 <= i < |ms| :: w[i] == OnWire(ms[i])
  {
    seq(|ms|, i requires 0 <= i < |ms| => OnWire(ms[i]))
  }

  // Cutting to the wire size leaves a list alone exactly when all payloads fit in a byte.
  lemma OnWireAllIdentity(ms: seq<Message>)
    requires Sendable(ms)
    ensures OnWireAll(ms) == ms <==> forall i | 0 <= i < |ms| :: ms[i].len <= 255
  {
    var w := OnWireAll(ms);
    forall i | 0 <= i < |ms| ensures w[i] == ms[i] <==> ms[i].len <= 255 {
      assert |w[i].data| == ms[i].len % 0x100;
    }
  }

  // The link round trip, for payloads of every length: the receiver ends idle
  // having rebuilt one message per message sent, in order, cut to the wire size;
  // so it rebuilds the list itself exactly when no payload exceeds 255 bytes.
  lemma StreamRoundTrip(ms: seq<Message>)
    requires Sendable(ms)
    ensures Decode(Encode(OnWireAll(ms))) == Parsed(OnWireAll(ms), [])
    ensures Decode(Encode(OnWireAll(ms))).msgs == ms <==> forall i | 0 <= i < |ms| :: ms[i].len <= 255
  {
    var w := OnWireAll(ms);
    assert AllDelimited(w);
    hide Layout, ParseFrame, OnWire, Decode, Encode, OnWireAll;
    assert Encode(w) + [] == Encode(w);
    DecodeOfEncode(w, []);
    OnWireAllIdentity(ms);
  }

  // After any prefix of the bytes the messages rebuilt are a prefix of the list.
  lemma StreamPrefix(ms: seq<Message>, k: nat)
    requires Sendable(ms)
    requires k <= |Encode(OnWireAll(ms))|
    ensures Decode(Encode(OnWireAll(ms))[..k]).msgs <= OnWireAll(ms)
  {
    var s := Encode(OnWireAll(ms));
    StreamRoundTrip(ms);
    assert s == s[..k] + s[k..];
    DecodeMonotone(s[..k], s[k..]);
  }
}
