/** The two one-byte receive buffers the UART callback alternates, under the driver. */
module RxBuffers {
  import opened Bytes
  import opened UartReceiver

  // An index into rx_buf.
  type Buf = i: nat | i < 2

  datatype State = State(
    filling: Option<Buf>,  // where the next byte goes; None once reception has stopped
    next: Option<Buf>,     // the buffer that answered the last request
    full: seq<Buf>,        // filled, not yet reported to the callback
    released: Buf,         // the static released_buf
    mem: seq<Byte>,        // rx_buf
    heard: seq<Byte>,      // history: bytes taken off the line,
    passed: seq<Byte>      // and bytes passed to the receive handler
  )

  datatype Step =
    | Request          // UART_RX_BUF_REQUEST
    | Arrive(b: Byte)  // the line completes a byte
    | Report           // UART_RX_RDY, then UART_RX_BUF_RELEASED

  // After uart_rx_enable.
  const INIT := State(Some(0), None, [], 1, [0, 0], [], [])

  function Response(s: State): Buf { if s.released == 0 then 0 else 1 }

  // The driver asks for a buffer once it fills a new one and the last is released. A
  // byte completed without a next buffer stops reception.
  function Next(s: State, step: Step): (t: State)
    requires |s.mem| == 2
    ensures |t.mem| == 2
  {
    match step
    case Request =>
      if s.filling.None? || s.next.Some? || s.full != [] then s else s.(next := Some(Response(s)))
    case Arrive(b) =>
      if s.filling.None? then s
      else s.(mem := s.mem[s.filling.value := b], full := s.full + [s.filling.value],
              filling := s.next, next := None, heard := s.heard + [b])
    case Report =>
      if s.full == [] then s
      else s.(passed := s.passed + [s.mem[s.full[0]]], released := s.full[0], full := s.full[1..])
  }

  function Run(steps: seq<Step>): (s: State)
    ensures |s.mem| == 2
  {
    if steps == [] then INIT else Next(Run(steps[..|steps| - 1]), steps[|steps| - 1])
  }

  function Contents(mem: seq<Byte>, bufs: seq<Buf>): (bs: seq<Byte>)
    requires |mem| == 2
    ensures |bs| == |bufs|
  {
    seq(|bufs|, i requires 0 <= i < |bufs| => mem[bufs[i]])
  }

  // No buffer is in two places, and no byte is overwritten before it is passed on.
  predicate Inv(s: State)
    requires |s.mem| == 2
  {
    && (s.next.Some? ==> s.filling.Some? && s.next.value == 1 - s.filling.value && s.full == [])
    && (s.filling.Some? ==>
          if s.full == [] then s.released == 1 - s.filling.value
          else s.released == s.filling.value && s.full == [1 - s.filling.value])
    && (s.filling.None? ==> |s.full| <= 2 && (|s.full| == 2 ==> s.full[0] != s.full[1]))
    && s.passed + Contents(s.mem, s.full) == s.heard
  }

  lemma NextKeepsInv(s: State, step: Step)
    requires |s.mem| == 2 && Inv(s)
    ensures Inv(Next(s, step))
  {
    match step
    case Request =>
    case Arrive(b) =>
      if s.filling.Some? {
        var t := Next(s, step);
        assert Contents(t.mem, t.full) == Contents(s.mem, s.full) + [b];
      }
    case Report =>
      if s.full != [] {
        assert Contents(s.mem, s.full) == [s.mem[s.full[0]]] + Contents(s.mem, s.full[1..]);
      }
  }

  // For every number of swaps: the bytes passed on are those heard, in order, short
  // of the at most two still in the buffers.
  lemma {:induction false} BytesInOrder(steps: seq<Step>)
    ensures Inv(Run(steps))
    ensures var s := Run(steps); s.passed <= s.heard && |s.heard| <= |s.passed| + 2
  {
    if steps != [] {
      BytesInOrder(steps[..|steps| - 1]);
      NextKeepsInv(Run(steps[..|steps| - 1]), steps[|steps| - 1]);
    }
  }

  // The buffer the callback would answer a request with is not the one being filled
  // exactly when the previous buffer has been released: the order the driver keeps.
  lemma ResponseIsFree(steps: seq<Step>)
    requires Run(steps).filling.Some?
    ensures Response(Run(steps)) != Run(steps).filling.value <==> Run(steps).full == []
  {
    BytesInOrder(steps);
  }

  // A byte completes with no buffer to go on with.
  predicate Overruns(s: State, step: Step) {
    step.Arrive? && s.filling.Some? && s.next.None?
  }

  lemma OverrunStep(s: State, step: Step)
    requires |s.mem| == 2
    ensures Next(s, step).filling.None? <==> s.filling.None? || Overruns(s, step)
  {}

  predicate OverrunAt(steps: seq<Step>, k: nat)
    requires k < |steps|
  {
    Overruns(Run(steps[..k]), steps[k])
  }

  lemma OverrunAtSnoc(steps: seq<Step>, step: Step, k: nat)
    requires k <= |steps|
    ensures OverrunAt(steps + [step], k) <==> if k == |steps| then Overruns(Run(steps), step) else OverrunAt(steps, k)
  {
    hide Run, Overruns;
    assert (steps + [step])[..k] == steps[..k];
    assert steps[..|steps|] == steps;
  }

  // Reception stops exactly at such a byte, and is never taken up again.
  lemma {:induction false} StopsExactly(steps: seq<Step>)
    ensures Run(steps).filling.None? <==> exists k | 0 <= k < |steps| :: OverrunAt(steps, k)
  {
    if steps != [] {
      hide Next, Overruns, OverrunAt;
      var n := |steps| - 1;
      var early := steps[..n];
      assert steps == early + [steps[n]];
      StopsExactly(early);
      OverrunStep(Run(early), steps[n]);
      forall k | 0 <= k <= n
        ensures OverrunAt(steps, k) <==> if k == n then Overruns(Run(early), steps[n]) else OverrunAt(early, k)
      {
        OverrunAtSnoc(early, steps[n], k);
      }
      if Run(steps).filling.None? {
        var k :| 0 <= k <= n && if k == n then Overruns(Run(early), steps[n]) else OverrunAt(early, k);
        assert OverrunAt(steps, k);
      }
    }
  }

  // Each byte of a stream completes, is reported, and its successor's buffer is asked
  // for, before the next.
  function InTime(bs: seq<Byte>): seq<Step> {
    if bs == [] then [Request] else InTime(bs[..|bs| - 1]) + [Arrive(bs[|bs| - 1])] + [Report] + [Request]
  }

  lemma RunSnoc(steps: seq<Step>, step: Step)
    ensures Run(steps + [step]) == Next(Run(steps), step)
  {
    assert (steps + [step])[..|steps|] == steps;
  }

  lemma Round(s: State, b: Byte)
    requires |s.mem| == 2 && Inv(s) && s.next.Some? && s.passed == s.heard
    ensures var t := Next(Next(Next(s, Arrive(b)), Report), Request);
            t.passed == s.passed + [b] && t.heard == s.heard + [b] && t.next.Some? && t.full == []
  {}

  // A driver that is answered in time never stops: every stream, of any length, is
  // passed on byte for byte, and the next buffer is at hand.
  lemma {:induction false} StreamPasses(bs: seq<Byte>)
    ensures var s := Run(InTime(bs));
            s.passed == bs && s.heard == bs && s.filling.Some? && s.next.Some? && s.full == []
  {
    hide Run, Next;
    if bs == [] {
      FirstRequest();
    } else {
      var early := InTime(bs[..|bs| - 1]);
      var b := bs[|bs| - 1];
      StreamPasses(bs[..|bs| - 1]);
      BytesInOrder(early);
      Round(Run(early), b);
      RunSnoc(early, Arrive(b));
      RunSnoc(early + [Arrive(b)], Report);
      RunSnoc(early + [Arrive(b)] + [Report], Request);
      BytesInOrder(InTime(bs));
      assert bs == bs[..|bs| - 1] + [b];
    }
  }

  lemma FirstRequest()
    ensures Run([Request]) == INIT.(next := Some(1))
  {
    assert [Request] == [] + [Request];
    RunSnoc([], Request);
  }

  // The callback's statics, the driver, and the byte machine behind it.
  class RxPath {
    const rxBuf: array<Byte>
    const receiver: Receiver
    var releasedBuf: Buf
    var filling: Option<Buf>
    var next: Option<Buf>
    var full: seq<Buf>
    ghost var heard: seq<Byte>

    ghost predicate Valid()
      reads this, rxBuf, receiver, receiver.header, receiver.data
    {
      && rxBuf.Length == 2 && rxBuf != receiver.header && rxBuf != receiver.data
      && receiver.Valid() && Inv(Abs())
    }

    ghost function Abs(): State
      reads this, rxBuf, receiver
      requires rxBuf.Length == 2
    {
      State(filling, next, full, releasedBuf, rxBuf[..], heard, receiver.stream)
    }

    constructor (onBridge: bool)
      ensures Valid() && Abs() == INIT && fresh(rxBuf) && fresh(receiver) && fresh(receiver.header)
    {
      rxBuf := new Byte[2](_ => 0);
      receiver := new Receiver(onBridge);
      releasedBuf, filling, next, full, heard := 1, Some(0), None, [], [];
      new;
      assert rxBuf[..] == [0, 0];
      assert Contents(rxBuf[..], []) == [];
    }

    // UART_RX_BUF_REQUEST and uart_rx_buf_rsp: what is handed over is not in use.
    method BufRequest() returns (i: Buf)
      requires Valid() && filling.Some? && next.None? && full == []
      modifies `next
      ensures Valid() && Abs() == Next(old(Abs()), Request)
      ensures next == Some(i) && filling != Some(i)
    {
      if releasedBuf == 0 {
        i := 0;
      } else {
        i := 1;
      }
      next := Some(i);
    }

    // The driver stores a byte and swaps buffers.
    method LineByte(b: Byte)
      requires Valid() && filling.Some?
      modifies this, rxBuf
      ensures Valid() && Abs() == Next(old(Abs()), Arrive(b))
    {
      NextKeepsInv(Abs(), Arrive(b));
      hide Inv, Contents, Receiver.Valid, Receiver.PartialOk, Receiver.HeapOk;
      ghost var t := Next(Abs(), Arrive(b));
      rxBuf[filling.value] := b;
      assert rxBuf[..] == t.mem;
      full := full + [filling.value];
      filling, next := next, None;
      heard := heard + [b];
      assert Abs() == t;
    }

    // UART_RX_RDY passes the byte to the byte machine, UART_RX_BUF_RELEASED notes the buffer.
    method RxReported()
      requires Valid() && full != []
      modifies this, receiver, receiver.header, receiver.data
      ensures Valid() && Abs() == Next(old(Abs()), Report)
      ensures receiver.header == old(receiver.header) || fresh(receiver.header)
      ensures receiver.data == null || receiver.data == old(receiver.data) || fresh(receiver.data)
    {
      NextKeepsInv(Abs(), Report);
      hide Inv, Contents, Receiver.Valid;
      ghost var t := Next(Abs(), Report);
      ghost var mem := rxBuf[..];
      var buf := full[0];
      receiver.RxRdy(rxBuf[buf]);
      assert rxBuf[..] == mem;
      releasedBuf, full := buf, full[1..];
      assert Abs() == t;
    }
  }
}
