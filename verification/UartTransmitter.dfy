/**
 The transmitting half of the UART link: senders, the transmit thread, its
 semaphore and the driver callbacks, over every interleaving.
 */
module UartTransmitter {
  import opened Bytes
  import opened Framing

  type Payload = s: seq<Byte> | |s| < 0x1_0000_0000

  // A heap buffer filled by uart_send; ids number the allocations.
  datatype Buffer = Buffer(id: nat, bytes: seq<Byte>)

  // The transmit thread is at k_fifo_get, or past uart_tx at k_sem_take.
  datatype Thread = Getting | Waiting

  datatype Tx = Tx(
    sent: seq<Message>,        // every message handed to uart_send
    fifo: seq<Buffer>,
    thread: Thread,
    inFlight: Option<Buffer>,  // the buffer the driver owns
    left: seq<Byte>,           // its bytes not yet shifted out
    sem: nat,
    wire: seq<Byte>,           // every byte shifted out
    freed: seq<nat>            // ids, in the order they were freed
  )

  datatype Event =
    | Send(kind: U32, model: U32, addr: U32, data: Payload)
    | ThreadGet      // k_fifo_get and uart_tx
    | DriverByte     // the driver shifts one byte out
    | DriverDone     // UART_TX_DONE; giving a semaphore saturates at its limit, 1
    | ThreadTake     // k_sem_take

  const INIT := Tx([], [], Getting, None, [], 0, [], [])

  function TxSize(buf: seq<Byte>): nat
    requires |buf| > 0
  {
    buf[0] + HEADER_SIZE
  }

  // Events that cannot happen in t leave it as it is.
  predicate Enabled(t: Tx, e: Event) {
    match e
    case Send(_, _, _, _) => true
    case ThreadGet => t.thread.Getting? && t.fifo != [] && |t.fifo[0].bytes| >= HEADER_SIZE
    case DriverByte => t.inFlight.Some? && t.left != []
    case DriverDone => t.inFlight.Some? && t.left == []
    case ThreadTake => t.thread.Waiting? && t.sem > 0
  }

  function Step(t: Tx, e: Event): Tx {
    if !Enabled(t, e) then t else
    match e
    case Send(kind, model, addr, data) =>
      var m := Message(|data|, kind, model, addr, data);
      t.(sent := t.sent + [m], fifo := t.fifo + [Buffer(|t.sent|, Layout(m))])
    case ThreadGet =>
      var b := t.fifo[0];
      if t.inFlight.Some? then t.(fifo := t.fifo[1..], thread := Waiting)  // uart_tx refuses: busy
      else
        var size := if TxSize(b.bytes) <= |b.bytes| then TxSize(b.bytes) else |b.bytes|;
        t.(fifo := t.fifo[1..], thread := Waiting, inFlight := Some(b), left := b.bytes[..size])
    case DriverByte => t.(wire := t.wire + [t.left[0]], left := t.left[1..])
    case DriverDone =>
      t.(inFlight := None, freed := t.freed + [t.inFlight.value.id], sem := 1)
    case ThreadTake => t.(thread := Getting, sem := t.sem - 1)
  }

  function Run(es: seq<Event>): Tx {
    if es == [] then INIT else Step(Run(es[..|es| - 1]), es[|es| - 1])
  }

  predicate Sized(q: seq<Buffer>) {
    forall i | 0 <= i < |q| ::
      |q[i].bytes| >= HEADER_SIZE && TxSize(q[i].bytes) <= |q[i].bytes|
  }

  // The bytes the fifo will put on the wire.
  function Queued(q: seq<Buffer>): seq<Byte>
    requires Sized(q)
  {
    if q == [] then [] else q[0].bytes[..TxSize(q[0].bytes)] + Queued(q[1..])
  }

  function Ids(q: seq<Buffer>): seq<nat> {
    seq(|q|, i requires 0 <= i < |q| => q[i].id)
  }

  function InFlightIds(t: Tx): seq<nat> {
    if t.inFlight.None? then [] else [t.inFlight.value.id]
  }

  function Count(b: bool): nat { if b then 1 else 0 }

  // At most one buffer is in flight, and exactly one of {it, the semaphore} stands
  // for the transfer the thread is waiting for.
  predicate Gated(t: Tx) {
    Count(t.inFlight.Some?) + t.sem == Count(t.thread.Waiting?)
  }

  // Allocations are numbered, and freed, in flight and queued ones are, in that
  // order, all of them once each.
  predicate FreedInOrder(t: Tx) {
    t.freed + InFlightIds(t) + Ids(t.fifo) == seq(|t.sent|, i => i)
  }

  // Wire, rest of the buffer in flight and fifo together spell the messages sent.
  predicate BytesInOrder(t: Tx) {
    && Sendable(t.sent) && Sized(t.fifo)
    && t.wire + t.left + Queued(t.fifo) == Encode(OnWireAll(t.sent))
    && (t.inFlight.None? ==> t.left == [])
  }

  predicate Inv(t: Tx) {
    Gated(t) && FreedInOrder(t) && BytesInOrder(t)
  }

  lemma {:induction false} QueuedSnoc(q: seq<Buffer>, b: Buffer)
    requires Sized(q) && |b.bytes| >= HEADER_SIZE && TxSize(b.bytes) <= |b.bytes|
    ensures Queued(q + [b]) == Queued(q) + b.bytes[..TxSize(b.bytes)]
  {
    if q == [] {
      assert q + [b] == [b];
      assert Queued([b]) == b.bytes[..TxSize(b.bytes)] + Queued([]);
    } else {
      assert (q + [b])[1..] == q[1..] + [b];
      QueuedSnoc(q[1..], b);
    }
  }

  // What the transmit thread sends of a laid-out message.
  lemma LayoutCut(m: Message)
    requires |m.data| == m.len
    ensures TxSize(Layout(m)) <= |Layout(m)|
    ensures Layout(m)[..TxSize(Layout(m))] == Layout(OnWire(m))
  {
    ParseLayout(m);
  }

  lemma EncodeSnoc(ms: seq<Message>, m: Message)
    requires Sendable(ms) && |m.data| == m.len
    ensures Sendable(ms + [m])
    ensures Encode(OnWireAll(ms + [m])) == Encode(OnWireAll(ms)) + Layout(OnWire(m))
  {
    hide Layout, Encode, OnWire;
    assert OnWireAll(ms + [m]) == OnWireAll(ms) + [OnWire(m)];
    EncodeConcat(OnWireAll(ms), [OnWire(m)]);
    EncodeOne(OnWire(m));
  }

  lemma EncodeOne(m: Message)
    ensures Encode([m]) == Layout(m)
  {
    assert Encode([m]) == Layout(m) + Encode([]);
  }

  lemma SizedSnoc(q: seq<Buffer>, b: Buffer)
    requires Sized(q) && |b.bytes| >= HEADER_SIZE && TxSize(b.bytes) <= |b.bytes|
    ensures Sized(q + [b])
  {}

  lemma SendKeepsBytes(t: Tx, m: Message, id: nat)
    requires BytesInOrder(t) && |m.data| == m.len
    ensures BytesInOrder(t.(sent := t.sent + [m], fifo := t.fifo + [Buffer(id, Layout(m))]))
  {
    var b := Buffer(id, Layout(m));
    hide Layout, Encode, Queued, OnWire, OnWireAll, TxSize, Sendable, Sized;
    LayoutCut(m);
    SizedSnoc(t.fifo, b);
    QueuedSnoc(t.fifo, b);
    EncodeSnoc(t.sent, m);
    var w, x := t.wire + t.left, Layout(OnWire(m));
    assert w + (Queued(t.fifo) + x) == (w + Queued(t.fifo)) + x;
  }

  lemma GetKeepsBytes(t: Tx)
    requires BytesInOrder(t) && Gated(t) && Enabled(t, ThreadGet)
    ensures BytesInOrder(Step(t, ThreadGet))
  {
    hide Encode, OnWireAll;
    assert Queued(t.fifo) == Step(t, ThreadGet).left + Queued(t.fifo[1..]);
  }

  lemma StepKeepsBytes(t: Tx, e: Event)
    requires BytesInOrder(t) && Gated(t)
    ensures BytesInOrder(Step(t, e))
  {
    if e.Send? {
      SendKeepsBytes(t, Message(|e.data|, e.kind, e.model, e.addr, e.data), |t.sent|);
    } else if e.ThreadGet? && Enabled(t, e) {
      GetKeepsBytes(t);
    } else if e.DriverByte? && Enabled(t, e) {
      hide Encode, OnWireAll, Queued;
      assert t.left == [t.left[0]] + Step(t, e).left;
    }
  }

  lemma StepKeepsIds(t: Tx, e: Event)
    requires FreedInOrder(t) && Gated(t)
    ensures FreedInOrder(Step(t, e)) && Gated(Step(t, e))
  {
    var t' := Step(t, e);
    if e.Send? {
      assert Ids(t'.fifo) == Ids(t.fifo) + [|t.sent|];
      assert seq(|t'.sent|, i => i) == seq(|t.sent|, i => i) + [|t.sent|];
    } else if e.ThreadGet? && Enabled(t, e) {
      assert Ids(t.fifo) == InFlightIds(t') + Ids(t'.fifo);
    }
  }

  lemma StepKeepsInv(t: Tx, e: Event)
    requires Inv(t)
    ensures Inv(Step(t, e))
  {
    StepKeepsIds(t, e);
    StepKeepsBytes(t, e);
  }

  // Transmit discipline, over every interleaving.
  lemma {:induction false} RunInv(es: seq<Event>)
    ensures Inv(Run(es))
  {
    if es == [] {
      assert OnWireAll(INIT.sent) == [];
    } else {
      RunInv(es[..|es| - 1]);
      StepKeepsInv(Run(es[..|es| - 1]), es[|es| - 1]);
    }
  }

  // The frees are the ids 0, 1, 2, ...: no buffer is freed twice, none out of
  // order, and none while it is queued or in flight.
  lemma NeverFreedTwice(es: seq<Event>)
    ensures var t := Run(es);
            && (forall i | 0 <= i < |t.freed| :: t.freed[i] == i)
            && (t.inFlight.Some? ==> t.inFlight.value.id == |t.freed|)
            && |t.freed| + Count(t.inFlight.Some?) + |t.fifo| == |t.sent|
  {
    var t := Run(es);
    RunInv(es);
    var all := t.freed + InFlightIds(t) + Ids(t.fifo);
    forall i | 0 <= i < |t.freed| ensures t.freed[i] == i {
      assert all[i] == t.freed[i];
    }
    if t.inFlight.Some? {
      assert all[|t.freed|] == t.inFlight.value.id;
    }
  }

  // Work left, in steps of the thread and the driver.
  function Work(q: seq<Buffer>): nat {
    if q == [] then 0 else |q[0].bytes| + 4 + Work(q[1..])
  }

  function Remaining(t: Tx): nat {
    Work(t.fifo) + |t.left| + 2 * Count(t.inFlight.Some?) + Count(t.thread.Waiting?)
  }

  predicate Drained(t: Tx) {
    t.fifo == [] && t.inFlight.None? && t.thread.Getting?
  }

  // No deadlock: until the link is drained, some step other than a send can happen,
  // and each such step takes work off.
  lemma Progress(t: Tx)
    requires Inv(t)
    ensures Drained(t) || exists e: Event :: !e.Send? && Enabled(t, e)
    ensures forall e: Event | !e.Send? && Enabled(t, e) :: Remaining(Step(t, e)) < Remaining(t)
  {
    if t.thread.Waiting? {
      assert Enabled(t, if t.sem > 0 then ThreadTake else if t.left == [] then DriverDone else DriverByte);
    } else if t.fifo != [] {
      assert Enabled(t, ThreadGet);
    }
  }

  // Once drained, the wire carries exactly the messages sent, and every buffer is freed.
  lemma DrainedMeansDelivered(es: seq<Event>)
    requires Drained(Run(es))
    ensures Sendable(Run(es).sent)
    ensures Run(es).wire == Encode(OnWireAll(Run(es).sent))
    ensures |Run(es).freed| == |Run(es).sent|
  {
    RunInv(es);
    NeverFreedTwice(es);
    var t := Run(es);
    assert t.wire + [] + [] == t.wire;
  }

  // The two ends joined: whatever the interleaving so far, the other chip has
  // rebuilt a prefix of the messages sent, cut to the wire size; once the
  // transmitter is drained, all of them, with no byte left over.
  lemma LinkDelivers(es: seq<Event>)
    ensures Sendable(Run(es).sent)
    ensures Decode(Run(es).wire).msgs <= OnWireAll(Run(es).sent)
    ensures Drained(Run(es)) ==> Decode(Run(es).wire) == Parsed(OnWireAll(Run(es).sent), [])
  {
    var t := Run(es);
    RunInv(es);
    hide Decode, Encode, Queued, OnWireAll, Run;
    var s := Encode(OnWireAll(t.sent));
    assert s[..|t.wire|] == t.wire;
    StreamPrefix(t.sent, |t.wire|);
    if Drained(t) {
      DrainedMeansDelivered(es);
      StreamRoundTrip(t.sent);
    }
  }

  // What the thread relies on when it sizes a transfer and calls uart_tx.
  lemma ThreadGetSends(t: Tx)
    requires Inv(t) && t.thread.Getting? && t.fifo != []
    ensures t.inFlight.None? && HEADER_SIZE <= TxSize(t.fifo[0].bytes) <= |t.fifo[0].bytes|
    ensures Step(t, ThreadGet) ==
            Tx(t.sent, t.fifo[1..], Waiting, Some(t.fifo[0]), t.fifo[0].bytes[..TxSize(t.fifo[0].bytes)],
               t.sem, t.wire, t.freed)
  {}

  // memcpy into a heap buffer.
  method Memcpy(dst: array<Byte>, pos: nat, src: seq<Byte>)
    requires pos + |src| <= dst.Length
    modifies dst
    ensures dst[..] == old(dst[..pos]) + src + old(dst[pos + |src|..])
  {
    for i := 0 to |src|
      invariant forall j | 0 <= j < dst.Length ::
          dst[j] == if pos <= j < pos + i then src[j - pos] else old(dst[j])
    {
      dst[pos + i] := src[i];
    }
  }

  class TxBuf {
    ghost const id: nat
    const bytes: array<Byte>

    constructor (ghost id: nat, bytes: array<Byte>)
      ensures this.id == id && this.bytes == bytes
    {
      this.id, this.bytes := id, bytes;
    }
  }

  // The transmit fifo, thread, semaphore and callback of either chip.
  class Transmitter {
    const spare: nat            // bytes uart_send over-allocates: none on the gateway, four on the bridge
    var txFifo: seq<TxBuf>
    var waiting: bool
    var inFlight: TxBuf?
    var next: nat               // the driver's position in the buffer in flight
    var end: nat
    var sem: nat

    ghost var sent: seq<Message>
    ghost var queued: seq<Buffer>
    ghost var flying: Option<Buffer>
    ghost var wire: seq<Byte>
    ghost var freed: seq<nat>

    ghost predicate Holds(b: TxBuf, v: Buffer)
      reads b.bytes
    {
      b.id == v.id && HEADER_SIZE <= |v.bytes| <= b.bytes.Length && b.bytes[..|v.bytes|] == v.bytes
    }

    ghost predicate AllHold(q: seq<TxBuf>, vs: seq<Buffer>)
      reads set b | b in q :: b.bytes
    {
      |q| == |vs| && forall i | 0 <= i < |vs| :: Holds(q[i], vs[i])
    }

    lemma HoldTail()
      requires AllHold(txFifo, queued) && txFifo != []
      ensures Holds(txFifo[0], queued[0]) && AllHold(txFifo[1..], queued[1..])
    {}

    ghost predicate Valid()
      reads this, set b | b in txFifo :: b.bytes, if inFlight == null then {} else {inFlight.bytes}
    {
      && AllHold(txFifo, queued)
      && (inFlight == null <==> flying.None?)
      && (inFlight != null ==> Holds(inFlight, flying.value) && next <= end <= inFlight.bytes.Length)
      && Inv(Abs())
    }

    ghost function Abs(): Tx
      reads this, if inFlight == null then {} else {inFlight.bytes}
    {
      var left := if inFlight == null || !(next <= end <= inFlight.bytes.Length) then []
                  else inFlight.bytes[next..end];
      Tx(sent, queued, if waiting then Waiting else Getting, flying, left, sem, wire, freed)
    }

    constructor (spare: nat)
      ensures Valid() && Abs() == INIT && this.spare == spare
    {
      this.spare := spare;
      txFifo, waiting, inFlight, next, end, sem := [], false, null, 0, 0, 0;
      sent, queued, flying, wire, freed := [], [], None, [], [];
      new;
      RunInv([]);
    }

    // The allocation of uart_send and the five copies into it.
    method Fill(kind: U32, model: U32, addr: U32, data: Payload) returns (msg: array<Byte>)
      ensures fresh(msg) && msg.Length == |data| + HEADER_SIZE + spare
      ensures msg[..|data| + HEADER_SIZE] == Layout(Message(|data|, kind, model, addr, data))
    {
      var len := |data|;
      msg := new Byte[len + HEADER_SIZE + spare](_ => 0);
      Memcpy(msg, 0, Le32(len));
      Memcpy(msg, 4, Le32(kind));
      assert msg[..8] == Le32(len) + Le32(kind);
      Memcpy(msg, 8, Le32(model));
      assert msg[..12] == Le32(len) + Le32(kind) + Le32(model);
      Memcpy(msg, 12, Le32(addr));
      assert msg[..16] == Le32(len) + Le32(kind) + Le32(model) + Le32(addr);
      Memcpy(msg, 16, data);
    }

    method UartSend(kind: U32, model: U32, addr: U32, data: Payload)
      requires Valid()
      modifies this
      ensures Valid() && Abs() == Step(old(Abs()), Send(kind, model, addr, data))
    {
      hide Inv, Layout;
      ghost var before := Abs();
      var msg := Fill(kind, model, addr, data);
      ghost var m := Message(|data|, kind, model, addr, data);
      var buf := new TxBuf(|sent|, msg);
      txFifo := txFifo + [buf];
      queued := queued + [Buffer(|sent|, Layout(m))];
      sent := sent + [m];
      StepKeepsInv(before, Send(kind, model, addr, data));
    }

    // uart_tx, the driver being free.
    method UartTx(buf: TxBuf, size: nat, ghost v: Buffer)
      requires inFlight == null && size <= |v.bytes| && Holds(buf, v)
      modifies `inFlight, `next, `end, `flying
      ensures inFlight == buf && flying == Some(v) && 0 == next <= end <= buf.bytes.Length
      ensures Abs() == old(Abs()).(inFlight := Some(v), left := v.bytes[..size])
    {
      assert buf.bytes[..size] == v.bytes[..size];
      inFlight, next, end, flying := buf, 0, size, Some(v);
    }

    // One turn of the thread up to k_sem_take.
    method ThreadSend()
      requires Valid() && !waiting && txFifo != []
      modifies this
      ensures Valid() && Abs() == Step(old(Abs()), ThreadGet)
    {
      ThreadGetSends(Abs());
      HoldTail();
      hide Inv, AllHold, Step, Holds;
      ghost var before := Abs();
      var buf := txFifo[0];
      ghost var v := queued[0];
      assert buf.bytes[0] == v.bytes[0] by { assert Holds(buf, v); }
      txFifo, queued := txFifo[1..], queued[1..];
      UartTx(buf, buf.bytes[0] + HEADER_SIZE, v);
      waiting := true;
      StepKeepsInv(before, ThreadGet);
    }

    // The driver shifts out one byte.
    method ShiftOut() returns (b: Byte)
      requires Valid() && inFlight != null && next < end
      modifies this
      ensures Valid() && Abs() == Step(old(Abs()), DriverByte) && wire == old(wire) + [b]
    {
      hide Inv;
      ghost var before := Abs();
      b := inFlight.bytes[next];
      next := next + 1;
      wire := wire + [b];
      StepKeepsInv(before, DriverByte);
    }

    // UART_TX_DONE: free the buffer, give the semaphore.
    method TxDone()
      requires Valid() && inFlight != null && next == end
      modifies this
      ensures Valid() && Abs() == Step(old(Abs()), DriverDone)
    {
      hide Inv;
      ghost var before := Abs();
      freed := freed + [inFlight.id];
      inFlight, flying := null, None;
      sem := 1;
      StepKeepsInv(before, DriverDone);
    }

    // k_sem_take returns.
    method ThreadTakeSem()
      requires Valid() && waiting && sem > 0
      modifies this
      ensures Valid() && Abs() == Step(old(Abs()), ThreadTake)
    {
      hide Inv;
      ghost var before := Abs();
      sem := sem - 1;
      waiting := false;
      StepKeepsInv(before, ThreadTake);
    }
  }
}
