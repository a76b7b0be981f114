/** The barrier's abstract network steps are what the byte paths carry. */
module Composition {
  import opened Bytes
  import opened Framing
  import opened MeshModels
  import opened UartTransmitter
  import Bridge
  import Reports
  import R = RobotRegistry
  import F = Fleet

  // What the mesh thread is asked to send for an event of the robot module: the
  // robot's record as it is when the event's pointer is followed.
  function CommandsFor(robots: seq<R.Robot>, c: R.Out): seq<Bridge.Command> {
    match c
    case MovementConfigure(addr) =>
      var m := F.MovementOnRecord(robots, addr);
      if m.Some? then [Bridge.Configure(addr, m.value)] else []
    case ClearToMove => [Bridge.ClearToMove]
    case _ => []
  }

  // There is exactly one for a movement whose robot is registered, and for the broadcast.
  lemma CommandsForExactly(robots: seq<R.Robot>, c: R.Out)
    ensures |CommandsFor(robots, c)| ==
            if c.ClearToMove? || (c.MovementConfigure? && R.Has(robots, c.addr)) then 1 else 0
  {
    if c.MovementConfigure? {
      F.HasMovement(robots, c.addr);
    }
  }

  // A mesh message, read by a robot's server model, is this packet of the barrier.
  ghost predicate Carries(p: Pdu, k: F.Packet) {
    match k
    case Set(dst, m) => p.opcode == OP_MOVEMENT_SET && p.dst == dst && p.payload == EncodeMovement(m)
    case ReadyAll => p.opcode == OP_READY_SET && p.payload == []
    case _ => false
  }

  // The mesh message of an event's command carries exactly the packets the barrier
  // sends for the event.
  lemma CommandCarriesPackets(robots: seq<R.Robot>, c: R.Out, cmd: Bridge.Command, k: F.Packet)
    requires CommandsFor(robots, c) == [cmd]
    ensures Carries(Bridge.CommandPdu(cmd), k) <==> k in F.Sent(robots, c)
  {
    hide EncodeMovement;
    if k.Set? && cmd.Configure? && EncodeMovement(cmd.m) == EncodeMovement(k.m) {
      EncodeMovementInjective(k.m, cmd.m);
    }
  }

  // Downwards: put on the link among any other traffic, an event's command reaches
  // the mesh, at its place, as that message.
  lemma BarrierPacketsCross(es: seq<Event>, cs: seq<Bridge.Command>, i: nat, robots: seq<R.Robot>, c: R.Out)
    requires Run(es).sent == Bridge.CommandFrames(cs)
    requires i < |cs| && CommandsFor(robots, c) == [cs[i]]
    ensures var ms := Decode(Run(es).wire).msgs;
            && (forall j | 0 <= j < |ms| :: Bridge.CommandReadable(ms[j]))
            && |Bridge.ForwardAll(ms)| == |ms|
            && (Drained(Run(es)) ==> i < |ms|)
            && (i < |ms| ==> forall k :: Carries(Bridge.ForwardAll(ms)[i], k) <==> k in F.Sent(robots, c))
  {
    hide Decode, Run, Encode, EncodeMovement, Bridge.ForwardAll, Bridge.CommandFrames, Bridge.CommandReadable,
      Carries, F.Sent, CommandsFor, Bridge.CommandPdu;
    Bridge.CommandsReachMesh(es, cs);
    forall k ensures Carries(Bridge.CommandPdu(cs[i]), k) <==> k in F.Sent(robots, c) {
      CommandCarriesPackets(robots, c, cs[i], k);
    }
  }

  // A robot's server model does with the message what the barrier's robot does with
  // the packet: store and acknowledge, or hand over what is stored.
  method HearOverMesh(srv: RobotServer, addr: U16, node: F.Node, p: Pdu, ghost k: F.Packet) returns (r: Reaction)
    requires srv.config == node.config && Carries(p, k) && (k.Set? ==> k.dst == addr)
    modifies srv
    ensures srv.config == F.Heard(addr, node, k).0.config
    ensures r == Acked <==> F.Ack(addr) in F.Heard(addr, node, k).1
    ensures F.Heard(addr, node, k).0.moves == node.moves + if r.Moved? then [r.m] else []
  {
    r := srv.OnMessage(p);
    if k.Set? {
      EncodeMovementInjective(srv.config, k.m);
    }
  }

  // A report of the barrier, as the bridge hears it.
  function ReportOf(k: F.Packet, id: Reports.Identity): seq<Reports.Report> {
    match k
    case Ack(src) => [Reports.MovementAck(src)]
    case Telemetry(src, n) => [Reports.Telemetry(src, n)]
    case IdStatus(src, _) => [Reports.IdStatus(src, id)]
    case _ => []
  }

  // Upwards: what the gateway's receive thread makes of the i-th message is the
  // event the barrier's gateway handles for that packet.
  method HearOverLink(ghost es: seq<Event>, ghost rs: seq<Reports.Report>, ghost i: nat,
                      m: Message, top: U16, ghost k: F.Packet, ghost id: Reports.Identity) returns (e: MeshEvent)
    requires Run(es).sent == Reports.ReportFrames(rs)
    requires i < |Decode(Run(es).wire).msgs| && m == Decode(Run(es).wire).msgs[i]
    requires i < |rs| && ReportOf(k, id) == [rs[i]]
    requires k.IdStatus? ==> k.id == Reports.Le48(id) + 0x1_0000_0000_0000 * top as int
    ensures R.Mesh(e) == F.EventOf(k)
  {
    hide Decode, Run;
    Reports.ReportsReachGateway(es, rs);
    assert m == Reports.ReportFrame(rs[i]);
    e := Reports.ReceiveReport(m, top);
    assert e == Reports.ReportEvent(rs[i], top);
  }
}
