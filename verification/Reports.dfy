/** Mesh reports on their way up: from the bridge's model callbacks to gateway events. */
module Reports {
  import opened Bytes
  import opened Framing
  import opened MeshModels
  import opened UartTransmitter
  import Bridge

  type Identity = s: seq<Byte> | |s| == 6 witness [0, 0, 0, 0, 0, 0]

  // What the bridge's robot client hears from the mesh, with the source address.
  datatype Report =
    | IdStatus(addr: U16, id: Identity)
    | MovementAck(addr: U16)
    | Telemetry(addr: U16, revolutions: Byte)

  // The handle_robot_* callbacks; an acknowledgement carries one dummy byte.
  function ReportFrame(r: Report): Message {
    match r
    case IdStatus(addr, id) => Message(6, OP_ID_STATUS, Bridge.ID_CLI, addr, id)
    case MovementAck(addr) => Message(1, OP_MOVEMENT_ACK, Bridge.MOVEMENT_CLI, addr, [0])
    case Telemetry(addr, n) => Message(1, OP_TELEMETRY_REPORT, Bridge.TELEMETRY_CLI, addr, [n])
  }

  function Le48(b: seq<Byte>): (x: int)
    requires |b| >= 6
    ensures 0 <= x < 0x1_0000_0000_0000
  {
    FromLe32(b[0..4]) as int + 0x1_0000_0000 * FromLe16(b[4..6]) as int
  }

  // Byte k of the identity is byte k of the payload, and the top sixteen bits are the
  // unassigned ones.
  lemma IdentityBytes(b: seq<Byte>, top: U16)
    requires |b| >= 6
    ensures var id := Le48(b) + 0x1_0000_0000_0000 * top as int;
            && (forall k: nat | k < 6 :: ByteAt(id, k) == b[k])
            && id / 0x1_0000_0000_0000 == top
  {
    var low, high: nat := FromLe32(b[0..4]), FromLe16(b[4..6]) as int + 0x1_0000 * top as int;
    var id := Le48(b) + 0x1_0000_0000_0000 * top as int;
    assert id == low + 0x1_0000_0000 * high;
    FromLe32Bytes(b[0..4]);
    HighHalf(b[4], b[5], top);
    hide Le48, FromLe32, ByteAt;
    forall k: nat | k < 6 ensures ByteAt(id, k) == b[k] {
      if k < 4 {
        LowBytes(low, high, k);
        assert b[0..4][k] == b[k];
      } else {
        HighBytes(low, high, k - 4);
      }
    }
  }

  lemma HighHalf(x: Byte, y: Byte, top: U16)
    ensures var high: nat := x as int + 0x100 * y as int + 0x1_0000 * top as int;
            ByteAt(high, 0) == x && ByteAt(high, 1) == y
  {
    var high: nat := x as int + 0x100 * y as int + 0x1_0000 * top as int;
    assert high / 0x100 == y as int + 0x100 * top as int;
    assert ByteAt(high, 1) == ByteAt(high / 0x100, 0);
  }

  lemma LowBytes(low: nat, high: nat, k: nat)
    requires low < 0x1_0000_0000 && k < 4
    ensures ByteAt(low + 0x1_0000_0000 * high, k) == ByteAt(low, k)
  {
    var x := low + 0x1_0000_0000 * high;
    assert x / 0x100 == low / 0x100 + 0x100_0000 * high;
    assert x / 0x100 / 0x100 == low / 0x100 / 0x100 + 0x1_0000 * high;
    assert x / 0x100 / 0x100 / 0x100 == low / 0x100 / 0x100 / 0x100 + 0x100 * high;
    assert forall n: nat :: ByteAt(n, 1) == n / 0x100 % 0x100;
    assert forall n: nat :: ByteAt(n, 2) == ByteAt(n / 0x100, 1);
    assert forall n: nat :: ByteAt(n, 3) == ByteAt(n / 0x100, 2);
  }

  lemma HighBytes(low: nat, high: nat, k: nat)
    requires low < 0x1_0000_0000
    ensures ByteAt(low + 0x1_0000_0000 * high, 4 + k) == ByteAt(high, k)
  {
    var x := low + 0x1_0000_0000 * high;
    assert x / 0x100 == low / 0x100 + 0x100_0000 * high;
    assert x / 0x100 / 0x100 == low / 0x100 / 0x100 + 0x1_0000 * high;
    assert x / 0x100 / 0x100 / 0x100 == low / 0x100 / 0x100 / 0x100 + 0x100 * high;
    assert x / 0x100 / 0x100 / 0x100 / 0x100 == high;
    assert ByteAt(x, 4 + k) == ByteAt(x / 0x100, 3 + k) == ByteAt(x / 0x100 / 0x100, 2 + k);
    assert ByteAt(x / 0x100 / 0x100, 2 + k) == ByteAt(x / 0x100 / 0x100 / 0x100, 1 + k);
    assert ByteAt(x / 0x100 / 0x100 / 0x100, 1 + k) == ByteAt(high, k);
  }

  // What a report means to the gateway. The identity is copied into the low six
  // bytes of a 64-bit local whose upper two bytes, `top`, are never assigned.
  function ReportEvent(r: Report, top: U16): MeshEvent {
    match r
    case IdStatus(addr, id) => RobotId(addr, Le48(id) + 0x1_0000_0000_0000 * top as int)
    case MovementAck(addr) => MovementConfigured(addr)
    case Telemetry(addr, n) => TelemetryReported(addr, n)
  }

  // The receive thread copies this much of the payload without looking at its length.
  predicate ReportReadable(m: Message) {
    && (m.model == Bridge.ID_CLI && m.kind == OP_ID_STATUS ==> |m.data| >= 6)
    && (m.model == Bridge.TELEMETRY_CLI && m.kind == OP_TELEMETRY_REPORT ==> |m.data| >= 1)
  }

  // uart_rx_thread_fn of the gateway: one message, one event.
  method ReceiveReport(m: Message, top: U16) returns (e: MeshEvent)
    requires ReportReadable(m)
    ensures forall r | m == ReportFrame(r) :: e == ReportEvent(r, top)
    ensures e == Unassigned <==> (m.model, m.kind) !in {
              (Bridge.ID_CLI, OP_ID_STATUS), (Bridge.MOVEMENT_CLI, OP_MOVEMENT_ACK),
              (Bridge.TELEMETRY_CLI, OP_TELEMETRY_REPORT)}
    ensures e != Unassigned ==> e.addr == m.addr % 0x1_0000
    ensures e.RobotId? ==>
              && |m.data| >= 6 && (forall k: nat | k < 6 :: ByteAt(e.id, k) == m.data[k])
              && e.id / 0x1_0000_0000_0000 == top
    ensures e.TelemetryReported? ==> |m.data| >= 1 && e.revolutions == m.data[0]
  {
    hide Le48;
    e := Unassigned;
    if m.model == Bridge.ID_CLI {
      if m.kind == OP_ID_STATUS {
        IdentityBytes(m.data, top);
        e := RobotId(m.addr % 0x1_0000, Le48(m.data) + 0x1_0000_0000_0000 * top as int);
      }
    } else if m.model == Bridge.MOVEMENT_CLI {
      if m.kind == OP_MOVEMENT_ACK {
        e := MovementConfigured(m.addr % 0x1_0000);
      }
    } else if m.model == Bridge.TELEMETRY_CLI {
      if m.kind == OP_TELEMETRY_REPORT {
        e := TelemetryReported(m.addr % 0x1_0000, m.data[0]);
      }
    }
  }

  // The bridge's callbacks send each report as its frame.
  function ReportSend(r: Report): Event {
    match r
    case IdStatus(addr, id) => Send(OP_ID_STATUS, Bridge.ID_CLI, addr, id)
    case MovementAck(addr) => Send(OP_MOVEMENT_ACK, Bridge.MOVEMENT_CLI, addr, [0])
    case Telemetry(addr, n) => Send(OP_TELEMETRY_REPORT, Bridge.TELEMETRY_CLI, addr, [n])
  }

  function ReportSends(rs: seq<Report>): (es: seq<Event>)
    ensures |es| == |rs|
  {
    seq(|rs|, i requires 0 <= i < |rs| => ReportSend(rs[i]))
  }

  // Every list of reports can be sent, and has the frames below.
  lemma {:induction false} ReportsCanBeSent(rs: seq<Report>)
    ensures Run(ReportSends(rs)).sent == ReportFrames(rs)
  {
    hide ReportFrame, ReportSend, Layout;
    if rs != [] {
      var n := |rs| - 1;
      ReportsCanBeSent(rs[..n]);
      assert ReportSends(rs)[..n] == ReportSends(rs[..n]);
      SendIsFrame(Run(ReportSends(rs[..n])), rs[n]);
      assert ReportFrames(rs) == ReportFrames(rs[..n]) + [ReportFrame(rs[n])];
    }
  }

  lemma SendIsFrame(t: Tx, r: Report)
    ensures Step(t, ReportSend(r)).sent == t.sent + [ReportFrame(r)]
  {
    hide Layout;
  }

  function ReportFrames(rs: seq<Report>): (ms: seq<Message>)
    ensures |ms| == |rs|
  {
    seq(|rs|, i requires 0 <= i < |rs| => ReportFrame(rs[i]))
  }

  // Every report crosses the link: the i-th message the gateway rebuilds is the
  // frame of the i-th report, and all of them have arrived once the link is drained.
  lemma ReportsReachGateway(es: seq<Event>, rs: seq<Report>)
    requires Run(es).sent == ReportFrames(rs)
    ensures var ms := Decode(Run(es).wire).msgs;
            && |ms| <= |rs|
            && (forall i | 0 <= i < |ms| :: ms[i] == ReportFrame(rs[i]) && ReportReadable(ms[i]))
            && (Drained(Run(es)) ==> |ms| == |rs|)
  {
    hide Decode, Run, OnWireAll;
    LinkDelivers(es);
    assert forall i | 0 <= i < |rs| :: ReportFrames(rs)[i].len <= 255;
    OnWireAllIdentity(ReportFrames(rs));
  }
}
