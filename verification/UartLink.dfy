/** The whole link: transmitter, wire, the two receive buffers, and the decoder. */
module UartLink {
  import opened Bytes
  import opened Framing
  import Rx = RxBuffers
  import Tx = UartTransmitter

  // The receiving driver has heard some of what the wire carried: all of it so far,
  // or less if it lags behind or has stopped.
  predicate Joined(es: seq<Tx.Event>, rs: seq<Rx.Step>) {
    Rx.Run(rs).heard <= Tx.Run(es).wire
  }

  // End to end, over every interleaving on both chips: what the byte machine has
  // rebuilt is a prefix of what was sent, cut to the wire size. It is all of it, with
  // nothing left over, exactly when every byte of it was passed on, in particular
  // once the transmitter is drained, its last byte heard, and the buffers are empty.
  lemma LinkCrosses(es: seq<Tx.Event>, rs: seq<Rx.Step>)
    requires Joined(es, rs)
    ensures Sendable(Tx.Run(es).sent)
    ensures Decode(Rx.Run(rs).passed).msgs <= OnWireAll(Tx.Run(es).sent)
    ensures Decode(Rx.Run(rs).passed) == Parsed(OnWireAll(Tx.Run(es).sent), []) <==>
            Rx.Run(rs).passed == Encode(OnWireAll(Tx.Run(es).sent))
    ensures Tx.Drained(Tx.Run(es)) && Rx.Run(rs).heard == Tx.Run(es).wire && Rx.Run(rs).full == [] ==>
              Decode(Rx.Run(rs).passed) == Parsed(OnWireAll(Tx.Run(es).sent), [])
  {
    hide Decode, Encode, OnWireAll, Tx.Run, Rx.Run, Tx.Drained;
    var s := Rx.Run(rs);
    Rx.BytesInOrder(rs);
    Tx.LinkDelivers(es);
    PrefixDecodes(s.passed, Tx.Run(es).wire);
    EncodeOfDecode(s.passed);
    StreamRoundTrip(Tx.Run(es).sent);
    if s.full == [] {
      assert s.passed + Rx.Contents(s.mem, s.full) == s.passed;
    }
  }

  lemma PrefixDecodes(a: seq<Byte>, b: seq<Byte>)
    requires a <= b
    ensures Decode(a).msgs <= Decode(b).msgs
  {
    DecodeMonotone(a, b[|a|..]);
    assert a + b[|a|..] == b;
  }
}
