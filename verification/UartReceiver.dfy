/** The receiving half of the UART link: the byte machine and the heap it uses. */
module UartReceiver {
  import opened Bytes
  import opened Framing

  // Heap blocks one received message occupies: its record, and its payload. The
  // bridge allocates no block for an empty payload, the gateway always does.
  function BlocksFor(onBridge: bool, payload: nat): nat {
    if onBridge && payload == 0 then 1 else 2
  }

  function BlocksOf(onBridge: bool, ms: seq<Message>): nat {
    if ms == [] then 0
    else BlocksFor(onBridge, |ms[0].data|) + BlocksOf(onBridge, ms[1..])
  }

  lemma {:induction false} BlocksOfConcat(onBridge: bool, a: seq<Message>, b: seq<Message>)
    ensures BlocksOf(onBridge, a + b) == BlocksOf(onBridge, a) + BlocksOf(onBridge, b)
  {
    if a == [] {
      assert a + b == b;
    } else {
      assert (a + b)[1..] == a[1..] + b;
      BlocksOfConcat(onBridge, a[1..], b);
    }
  }

  lemma BlocksOfOne(onBridge: bool, m: Message)
    ensures BlocksOf(onBridge, [m]) == BlocksFor(onBridge, |m.data|)
  {}

  function Empties(ms: seq<Message>): nat {
    if ms == [] then 0 else (if ms[0].data == [] then 1 else 0) + Empties(ms[1..])
  }

  // Two blocks a message, but one for an empty one on the bridge.
  lemma {:induction false} BlocksCounted(onBridge: bool, ms: seq<Message>)
    ensures BlocksOf(onBridge, ms) == 2 * |ms| - (if onBridge then Empties(ms) else 0)
  {
    if ms != [] {
      BlocksCounted(onBridge, ms[1..]);
    }
  }

  lemma PayloadSize(f: seq<Byte>)
    requires |f| >= HEADER_SIZE
    ensures |ParseFrame(f).data| == |f| - HEADER_SIZE
  {}

  // The static variables of uart_data_rx_rdy_handler, the receive fifo and the
  // receive thread, on either chip. The two chips run the same byte machine and
  // differ in two places: the allocation above, and that the gateway's receive
  // thread frees the record of a message but not its payload.
  class Receiver {
    const onBridge: bool
    var currentLen: nat
    var expectedLen: nat
    var header: array<Byte>          // the record being assembled
    var data: array?<Byte>           // its payload
    var rxFifo: seq<Message>
    var handling: Option<Message>    // taken from the fifo, not yet freed

    ghost var liveBlocks: int        // allocations minus frees
    ghost var handled: seq<Message>  // messages the receive thread is done with
    ghost var stream: seq<Byte>      // every byte received so far

    ghost function Complete(): seq<Message>
      reads this
    {
      (if handling.None? then [] else [handling.value]) + rxFifo
    }

    // The arrays are the size the first byte asked for, and there is room for one more byte.
    ghost predicate HasRoom()
      reads this
    {
      && header.Length == HEADER_SIZE
      && currentLen < HEADER_SIZE + expectedLen
      && (data == null ==> expectedLen == 0 && onBridge)
      && (data != null ==> data != header && data.Length == expectedLen)
    }

    function Assembled(): seq<Byte>
      reads this, header, data
    {
      header[..] + if data == null then [] else data[..]
    }

    // The arrays hold the unfinished frame.
    ghost predicate PartialOk(rest: seq<Byte>)
      reads this, header, data
    {
      && currentLen == |rest|
      && (currentLen > 0 ==> HasRoom() && expectedLen == rest[0] && rest == Assembled()[..currentLen])
    }

    // Allocations are exactly those of the message being assembled, the one being
    // handled and the queued ones; the gateway also keeps one payload for every
    // message it has handled.
    ghost predicate HeapOk()
      reads this
    {
      liveBlocks == BlocksOf(onBridge, Complete())
                    + (if currentLen == 0 then 0 else BlocksFor(onBridge, expectedLen))
                    + (if onBridge then 0 else |handled|)
    }

    // The refinement: over the whole stream, what has been rebuilt is what the pure
    // decoder gives, message for message and byte for byte.
    ghost predicate Valid()
      reads this, header, data
    {
      && handled + Complete() == Decode(stream).msgs
      && PartialOk(Decode(stream).rest)
      && HeapOk()
    }

    constructor (onBridge: bool)
      ensures Valid() && this.onBridge == onBridge
      ensures stream == [] && handled == [] && Complete() == [] && liveBlocks == 0
      ensures fresh(header) && data == null
    {
      this.onBridge := onBridge;
      currentLen, expectedLen := 0, 0;
      header, data := new Byte[0], null;
      rxFifo, handling := [], None;
      liveBlocks, handled, stream := 0, [], [];
    }

    // The first branch of the handler: note the payload length, allocate the message.
    method StartMessage(b: Byte)
      requires currentLen == 0
      modifies this
      ensures HasRoom() && expectedLen == b
      ensures fresh(header) && (data != null ==> fresh(data))
      ensures liveBlocks == old(liveBlocks) + BlocksFor(onBridge, b)
      ensures unchanged(`currentLen) && unchanged(`rxFifo) && unchanged(`handling)
      ensures unchanged(`handled) && unchanged(`stream)
    {
      expectedLen := b;
      header := new Byte[HEADER_SIZE](_ => 0);
      liveBlocks := liveBlocks + 1;
      if onBridge && expectedLen == 0 {
        data := null;
      } else {
        data := new Byte[expectedLen](_ => 0);
        liveBlocks := liveBlocks + 1;
      }
    }

    // The two memcpy branches: header bytes by offset, then payload bytes.
    method StoreByte(b: Byte)
      requires HasRoom()
      modifies header, data
      ensures |Assembled()| == HEADER_SIZE + expectedLen
      ensures Assembled() == old(Assembled())[currentLen := b]
    {
      if currentLen < HEADER_SIZE {
        header[currentLen] := b;
      } else if !onBridge || expectedLen != 0 {
        data[currentLen - HEADER_SIZE] := b;
      }
    }

    // k_fifo_put: the finished message joins the queue and the machine is idle.
    method Finish()
      requires HeapOk() && currentLen > 0 && |Assembled()| == HEADER_SIZE + expectedLen
      modifies `currentLen, `rxFifo
      ensures HeapOk() && currentLen == 0
      ensures Complete() == old(Complete() + [ParseFrame(Assembled())])
      ensures old(rxFifo) <= rxFifo
    {
      hide ParseFrame, BlocksOf;
      ghost var before := Complete();
      var m := ParseFrame(Assembled());
      currentLen := 0;
      rxFifo := rxFifo + [m];
      assert Complete() == before + [m];
      PayloadSize(Assembled());
      BlocksOfConcat(onBridge, before, [m]);
      BlocksOfOne(onBridge, m);
    }

    // The branches before the length test: the byte joins the frame being assembled.
    method Accept(b: Byte)
      requires currentLen > 0 ==> HasRoom()
      modifies this, header, data
      ensures HasRoom() && |Assembled()| == HEADER_SIZE + expectedLen
      ensures Assembled()[..currentLen + 1] == old(if currentLen == 0 then [] else Assembled()[..currentLen]) + [b]
      ensures expectedLen == if currentLen == 0 then b else old(expectedLen)
      ensures liveBlocks == old(liveBlocks) + if currentLen == 0 then BlocksFor(onBridge, b) else 0
      ensures header == old(header) || fresh(header)
      ensures data == null || data == old(data) || fresh(data)
      ensures unchanged(`currentLen) && unchanged(`rxFifo) && unchanged(`handling)
      ensures unchanged(`handled) && unchanged(`stream)
    {
      if currentLen == 0 {
        StartMessage(b);
      }
      StoreByte(b);
    }

    // uart_data_rx_rdy_handler: one received byte.
    method RxRdy(b: Byte)
      requires Valid()
      modifies this, header, data
      ensures Valid() && stream == old(stream) + [b]
      ensures unchanged(`handled) && unchanged(`handling) && old(rxFifo) <= rxFifo
      ensures header == old(header) || fresh(header)
      ensures data == null || data == old(data) || fresh(data)
    {
      hide Decode, ParseFrame, BlocksOf, BlocksFor;
      ghost var rest := Decode(stream).rest;
      DecodeSnoc(stream, b);
      Accept(b);
      currentLen := currentLen + 1;
      stream := stream + [b];
      assert rest + [b] == Assembled()[..currentLen];
      if currentLen == expectedLen + HEADER_SIZE {
        assert Assembled() == rest + [b];
        Finish();
      }
    }

    // The receive thread: take a message off the fifo.
    method RxGet() returns (m: Message)
      requires Valid() && handling.None? && rxFifo != []
      modifies this
      ensures Valid() && m == old(rxFifo[0]) && handling == Some(m) && rxFifo == old(rxFifo[1..])
      ensures unchanged(`handled) && unchanged(`stream) && unchanged(`header) && unchanged(`data)
      ensures unchanged(`currentLen) && unchanged(`liveBlocks)
    {
      hide Decode;
      ghost var before := Complete();
      m := rxFifo[0];
      handling := Some(m);
      rxFifo := rxFifo[1..];
      assert Complete() == before;
    }

    // ... and, the handlers having run, free it.
    method RxFree()
      requires Valid() && handling.Some?
      modifies this
      ensures Valid() && handled == old(handled + [handling.value]) && handling == None
      ensures unchanged(`rxFifo) && unchanged(`stream) && unchanged(`header) && unchanged(`data)
      ensures unchanged(`currentLen)
    {
      hide Decode, BlocksOf;
      ghost var before := Complete();
      var m := handling.value;
      if onBridge && |m.data| != 0 {
        liveBlocks := liveBlocks - 1;
      }
      liveBlocks := liveBlocks - 1;
      handling := None;
      handled := handled + [m];
      assert before == [m] + Complete();
      BlocksOfConcat(onBridge, [m], Complete());
      BlocksOfOne(onBridge, m);
    }

    // At any time: two blocks for each message not yet freed and for the one being
    // assembled, but one if it is empty and this is the bridge; and on the gateway one
    // more for every message ever handled.
    lemma HeapInUse()
      requires Valid()
      ensures liveBlocks ==
              2 * |Complete()| - (if onBridge then Empties(Complete()) else 0)
              + (if currentLen == 0 then 0 else if onBridge && expectedLen == 0 then 1 else 2)
              + (if onBridge then 0 else |handled|)
    {
      BlocksCounted(onBridge, Complete());
    }

    // Idle with every message handled: the bridge has given all of its blocks back;
    // the gateway has kept one for every message it ever handled.
    lemma HeapWhenIdle()
      requires Valid() && currentLen == 0 && Complete() == []
      ensures handled == Decode(stream).msgs && Encode(handled) == stream
      ensures liveBlocks == if onBridge then 0 else |handled|
      ensures liveBlocks == 0 <==> onBridge || stream == []
    {
      EncodeOfDecode(stream);
      assert Encode(handled) + [] == Encode(handled);
      assert handled == [] <==> Encode(handled) == [];
    }
  }
}
