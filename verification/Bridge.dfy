/**
 Both directions across the bridge: gateway commands to mesh messages, mesh
 reports to gateway events, through the UART link and the byte-order changes.
 */
module Bridge {
  import opened Bytes
  import opened Framing
  import opened MeshModels
  import opened UartTransmitter

  const ID_CLI: U32 := 0x000B
  const MOVEMENT_CLI: U32 := 0x000D
  const TELEMETRY_CLI: U32 := 0x0011
  const LIGHT_RGB_CLI: U32 := 0x0013
  const ALL_NODES: U16 := 0xFFFF

  // What the gateway's mesh thread is asked to send.
  datatype Command = Configure(addr: U16, m: Movement) | ClearToMove | LedConfigure(addr: U16, l: Led)

  // The gateway's structs in memory, as far as uart_send copies them.
  function MovementBytes(m: Movement): (b: seq<Byte>)
    ensures |b| == 9
  {
    Le32(m.time) + Le32(ToU32(m.angle)) + [m.speed]
  }

  function LedBytes(l: Led): (b: seq<Byte>)
    ensures |b| == 5
  {
    Le16(l.time) + [l.red, l.green, l.blue]
  }

  // ... and the bridge's structs, read back from memory.
  function MovementFromBytes(b: seq<Byte>): Movement
    requires |b| == 9
  {
    Movement(FromLe32(b[0..4]), ToI32(FromLe32(b[4..8])), b[8])
  }

  function LedFromBytes(b: seq<Byte>): Led
    requires |b| == 5
  {
    Led(FromLe16(b[0..2]), b[2], b[3], b[4])
  }

  // What is where in the structs, in memory.
  lemma StructBytes(m: Movement, l: Led)
    ensures forall k: nat | k < 4 ::
              && MovementBytes(m)[k] == ByteAt(m.time, k)
              && MovementBytes(m)[4 + k] == ByteAt(m.angle % 0x1_0000_0000, k)
    ensures MovementBytes(m)[8] == m.speed
    ensures forall k: nat | k < 2 :: LedBytes(l)[k] == ByteAt(l.time, k)
    ensures LedBytes(l)[2] == l.red && LedBytes(l)[3] == l.green && LedBytes(l)[4] == l.blue
  {
    SignedIsModular(m.angle, 0);
    ByteOrders(m.time, l.time);
    ByteOrders(ToU32(m.angle), 0);
    hide Le32, ByteAt, ToU32;
  }

  lemma StructsSurviveMemory(m: Movement, l: Led)
    ensures MovementFromBytes(MovementBytes(m)) == m
    ensures LedFromBytes(LedBytes(l)) == l
  {
    var b := MovementBytes(m);
    assert b[0..4] == Le32(m.time) && b[4..8] == Le32(ToU32(m.angle)) && b[8] == m.speed;
    FromLe32OfLe32(m.time);
    FromLe32OfLe32(ToU32(m.angle));
    assert LedBytes(l)[0..2] == Le16(l.time);
  }

  function CommandFrame(c: Command): Message {
    match c
    case Configure(addr, m) => Message(9, OP_MOVEMENT_SET, MOVEMENT_CLI, addr, MovementBytes(m))
    case ClearToMove => Message(0, OP_READY_SET, MOVEMENT_CLI, ALL_NODES, [])
    case LedConfigure(addr, l) => Message(5, OP_RGB_SET, LIGHT_RGB_CLI, addr, LedBytes(l))
  }

  // The mesh message a command stands for.
  function CommandPdu(c: Command): Pdu {
    match c
    case Configure(addr, m) => Pdu(addr, OP_MOVEMENT_SET, EncodeMovement(m))
    case ClearToMove => Pdu(ALL_NODES, OP_READY_SET, [])
    case LedConfigure(addr, l) => Pdu(addr, OP_RGB_SET, EncodeLed(l))
  }

  // mesh_tx reads this much of the payload without looking at its length.
  predicate CommandReadable(m: Message) {
    && (m.model % 0x1_0000 == MOVEMENT_CLI && m.kind == OP_MOVEMENT_SET ==> |m.data| >= 9)
    && (m.model % 0x1_0000 == LIGHT_RGB_CLI && m.kind == OP_RGB_SET ==> |m.data| >= 5)
  }

  // What the bridge sends over the mesh for one UART message, if anything. The
  // handler prototypes narrow the model id and the address to 16 bits.
  function Forward(m: Message): seq<Pdu>
    requires CommandReadable(m)
  {
    var model, addr := m.model % 0x1_0000, m.addr % 0x1_0000;
    if model == MOVEMENT_CLI && m.kind == OP_MOVEMENT_SET then
      [Pdu(addr, OP_MOVEMENT_SET, EncodeMovement(MovementFromBytes(m.data[..9])))]
    else if model == MOVEMENT_CLI && m.kind == OP_READY_SET then
      [Pdu(ALL_NODES, OP_READY_SET, [])]
    else if model == LIGHT_RGB_CLI && m.kind == OP_RGB_SET then
      [Pdu(addr, OP_RGB_SET, EncodeLed(LedFromBytes(m.data[..5])))]
    else []
  }

  // What is forwarded, for any message whatever: exactly three kinds are, under the
  // opcode they came with; an address is cut to 16 bits, and the ready command goes to
  // all; the payload is the encoding of the value whose struct has these bytes.
  lemma ForwardExactly(m: Message)
    requires CommandReadable(m)
    ensures |Forward(m)| <= 1
    ensures Forward(m) != [] <==>
            (m.model % 0x1_0000, m.kind) in {(MOVEMENT_CLI, OP_MOVEMENT_SET), (MOVEMENT_CLI, OP_READY_SET),
                                             (LIGHT_RGB_CLI, OP_RGB_SET)}
    ensures Forward(m) != [] ==>
              && Forward(m)[0].opcode == m.kind
              && Forward(m)[0].dst == (if m.kind == OP_READY_SET then 0xFFFF else m.addr % 0x1_0000)
              && (m.kind == OP_READY_SET ==> Forward(m)[0].payload == [])
              && (m.kind == OP_MOVEMENT_SET ==>
                    exists v :: Forward(m)[0].payload == EncodeMovement(v) && MovementBytes(v) == m.data[..9])
              && (m.kind == OP_RGB_SET ==>
                    exists v :: Forward(m)[0].payload == EncodeLed(v) && LedBytes(v) == m.data[..5])
  {
    hide EncodeMovement, EncodeLed;
    if Forward(m) != [] && m.kind == OP_MOVEMENT_SET {
      MemoryIsStruct(m.data[..9]);
      assert MovementBytes(MovementFromBytes(m.data[..9])) == m.data[..9];
    }
    if Forward(m) != [] && m.kind == OP_RGB_SET {
      LedMemoryIsStruct(m.data[..5]);
      assert LedBytes(LedFromBytes(m.data[..5])) == m.data[..5];
    }
    hide MovementFromBytes, LedFromBytes, MovementBytes, LedBytes;
  }

  lemma MemoryIsStruct(b: seq<Byte>)
    requires |b| == 9
    ensures MovementBytes(MovementFromBytes(b)) == b
  {
    Le32OfFromLe32(b[0..4]);
    Le32OfFromLe32(b[4..8]);
    SignedIsModular(0, FromLe32(b[4..8]));
    assert b == b[0..4] + b[4..8] + [b[8]];
  }

  lemma LedMemoryIsStruct(b: seq<Byte>)
    requires |b| == 5
    ensures LedBytes(LedFromBytes(b)) == b
  {
    assert b == b[0..2] + [b[2], b[3], b[4]];
    assert Le16(FromLe16(b[0..2])) == b[0..2];
  }

  function ForwardAll(ms: seq<Message>): seq<Pdu>
    requires forall i | 0 <= i < |ms| :: CommandReadable(ms[i])
  {
    if ms == [] then [] else Forward(ms[0]) + ForwardAll(ms[1..])
  }

  function CommandFrames(cs: seq<Command>): (ms: seq<Message>)
    ensures |ms| == |cs|
  {
    seq(|cs|, i requires 0 <= i < |cs| => CommandFrame(cs[i]))
  }

  function CommandPdus(cs: seq<Command>): (ps: seq<Pdu>)
    ensures |ps| == |cs|
  {
    seq(|cs|, i requires 0 <= i < |cs| => CommandPdu(cs[i]))
  }

  lemma ForwardCommand(c: Command)
    ensures CommandReadable(CommandFrame(c)) && Forward(CommandFrame(c)) == [CommandPdu(c)]
    ensures |CommandFrame(c).data| == CommandFrame(c).len <= 255
  {
    match c
    case Configure(_, m) =>
      StructsSurviveMemory(m, Led(0, 0, 0, 0));
      assert MovementBytes(m)[..9] == MovementBytes(m);
    case ClearToMove =>
    case LedConfigure(_, l) =>
      StructsSurviveMemory(Movement(0, 0, 0), l);
      assert LedBytes(l)[..5] == LedBytes(l);
  }

  lemma CommandFramesFit(cs: seq<Command>)
    ensures forall i | 0 <= i < |cs| :: CommandReadable(CommandFrames(cs)[i])
    ensures Sendable(CommandFrames(cs)) && OnWireAll(CommandFrames(cs)) == CommandFrames(cs)
  {
    hide CommandFrame, CommandReadable, OnWireAll;
    var ms := CommandFrames(cs);
    forall i | 0 <= i < |cs| ensures CommandReadable(ms[i]) && |ms[i].data| == ms[i].len <= 255 {
      ForwardCommand(cs[i]);
    }
    OnWireAllIdentity(ms);
  }

  lemma {:induction false} ForwardCommands(cs: seq<Command>)
    requires forall i | 0 <= i < |cs| :: CommandReadable(CommandFrames(cs)[i])
    ensures ForwardAll(CommandFrames(cs)) == CommandPdus(cs)
  {
    hide Forward, CommandFrame, CommandPdu, CommandReadable;
    if cs != [] {
      var ms := CommandFrames(cs);
      assert ms[1..] == CommandFrames(cs[1..]);
      assert CommandPdus(cs) == [CommandPdu(cs[0])] + CommandPdus(cs[1..]);
      ForwardCommand(cs[0]);
      ForwardCommands(cs[1..]);
    }
  }

  // Every command crosses the link unchanged: over every interleaving of senders,
  // transmit thread and driver, what the bridge has put on the mesh is a prefix of
  // the commands, in order, and all of them once the link is drained.
  lemma CommandsReachMesh(es: seq<Event>, cs: seq<Command>)
    requires Run(es).sent == CommandFrames(cs)
    ensures var ms := Decode(Run(es).wire).msgs;
            && |ms| <= |cs|
            && (forall i | 0 <= i < |ms| :: CommandReadable(ms[i]))
            && ForwardAll(ms) == CommandPdus(cs)[..|ms|]
            && (Drained(Run(es)) ==> |ms| == |cs| && Decode(Run(es).wire).rest == [])
  {
    hide Decode, Run, CommandFrame, CommandPdu, Forward, CommandReadable, OnWireAll, ForwardAll;
    LinkDelivers(es);
    CommandFramesFit(cs);
    var ms := Decode(Run(es).wire).msgs;
    var n := |ms|;
    assert OnWireAll(Run(es).sent) == CommandFrames(cs);
    assert ms == CommandFrames(cs)[..n];
    assert CommandFrames(cs)[..n] == CommandFrames(cs[..n]);
    assert CommandPdus(cs)[..n] == CommandPdus(cs[..n]);
    CommandFramesFit(cs[..n]);
    ForwardCommands(cs[..n]);
  }

  // The value a robot stores or shows on the i-th mesh message is the one the
  // gateway was told to send, to the robot it named; negative angles included.
  lemma EndToEndValue(es: seq<Event>, cs: seq<Command>, i: nat, stored: Movement, shown: Led)
    requires Run(es).sent == CommandFrames(cs)
    requires i < |Decode(Run(es).wire).msgs|
    ensures i < |cs|
    ensures forall j | 0 <= j < |Decode(Run(es).wire).msgs| :: CommandReadable(Decode(Run(es).wire).msgs[j])
    ensures |ForwardAll(Decode(Run(es).wire).msgs)| > i
    ensures var p := ForwardAll(Decode(Run(es).wire).msgs)[i];
            && (cs[i].Configure? ==> p.dst == cs[i].addr && p.opcode == OP_MOVEMENT_SET && |p.payload| == 9)
            && (cs[i].Configure? && EncodeMovement(stored) == p.payload ==> stored == cs[i].m)
            && (cs[i].LedConfigure? ==> p.dst == cs[i].addr && p.opcode == OP_RGB_SET && |p.payload| == 5)
            && (cs[i].LedConfigure? && EncodeLed(shown) == p.payload ==> shown == cs[i].l)
            && (cs[i].ClearToMove? ==> p == Pdu(ALL_NODES, OP_READY_SET, []))
  {
    hide Decode, Run, ForwardAll, Encode, EncodeMovement, EncodeLed, CommandFrames, CommandReadable;
    CommandsReachMesh(es, cs);
    var p := ForwardAll(Decode(Run(es).wire).msgs)[i];
    assert p == CommandPdu(cs[i]);
    if cs[i].Configure? && EncodeMovement(stored) == p.payload {
      EncodeMovementInjective(stored, cs[i].m);
    }
    if cs[i].LedConfigure? && EncodeLed(shown) == p.payload {
      EncodeLedInjective(shown, cs[i].l);
    }
  }

  // The call of uart_send each command makes.
  function CommandSend(c: Command): (e: Event)
    ensures e.Send?
  {
    match c
    case Configure(addr, m) => Send(OP_MOVEMENT_SET, MOVEMENT_CLI, addr, MovementBytes(m))
    case ClearToMove => Send(OP_READY_SET, MOVEMENT_CLI, ALL_NODES, [])
    case LedConfigure(addr, l) => Send(OP_RGB_SET, LIGHT_RGB_CLI, addr, LedBytes(l))
  }

  function CommandSends(cs: seq<Command>): (es: seq<Event>)
    ensures |es| == |cs|
  {
    seq(|cs|, i requires 0 <= i < |cs| => CommandSend(cs[i]))
  }

  // Every list of commands can be sent, and has the frames above.
  lemma {:induction false} CommandsCanBeSent(cs: seq<Command>)
    ensures Run(CommandSends(cs)).sent == CommandFrames(cs)
  {
    hide CommandFrame, CommandSend, Layout;
    if cs != [] {
      var n := |cs| - 1;
      CommandsCanBeSent(cs[..n]);
      assert CommandSends(cs)[..n] == CommandSends(cs[..n]);
      SendIsFrame(Run(CommandSends(cs[..n])), cs[n]);
      assert CommandFrames(cs) == CommandFrames(cs[..n]) + [CommandFrame(cs[n])];
    }
  }

  lemma SendIsFrame(t: Tx, c: Command)
    ensures Step(t, CommandSend(c)).sent == t.sent + [CommandFrame(c)]
  {
    hide Layout;
  }

  // on_all_states of the gateway's mesh thread.
  method OnAllStates(tx: Transmitter, c: Command)
    requires tx.Valid()
    modifies tx
    ensures tx.Valid() && tx.sent == old(tx.sent) + [CommandFrame(c)]
    ensures tx.Abs() == Step(old(tx.Abs()), CommandSend(c))
    ensures tx.wire == old(tx.wire) && tx.freed == old(tx.freed)
  {
    hide Layout;
    match c
    case Configure(addr, m) => tx.UartSend(OP_MOVEMENT_SET, MOVEMENT_CLI, addr, MovementBytes(m));
    case ClearToMove => tx.UartSend(OP_READY_SET, MOVEMENT_CLI, ALL_NODES, []);
    case LedConfigure(addr, l) => tx.UartSend(OP_RGB_SET, LIGHT_RGB_CLI, addr, LedBytes(l));
  }

  // The struct is filled byte range by byte range.
  method CopyMovement(data: seq<Byte>) returns (m: Movement)
    requires |data| >= 9
    ensures m == MovementFromBytes(data[..9])
  {
    hide MovementFromBytes;
    var raw := new Byte[9](_ => 0);
    Memcpy(raw, 0, data[0..4]);
    assert raw[..4] == data[..4];
    Memcpy(raw, 4, data[4..8]);
    assert raw[..8] == data[..8];
    Memcpy(raw, 8, data[8..9]);
    assert raw[..] == data[..9];
    m := MovementFromBytes(raw[..]);
  }

  method CopyLed(data: seq<Byte>) returns (l: Led)
    requires |data| >= 5
    ensures l == LedFromBytes(data[..5])
  {
    hide LedFromBytes;
    var raw := new Byte[5](_ => 0);
    Memcpy(raw, 0, data[0..2]);
    assert raw[..2] == data[..2];
    Memcpy(raw, 2, data[2..3]);
    assert raw[..3] == data[..3];
    Memcpy(raw, 3, data[3..4]);
    assert raw[..4] == data[..4];
    Memcpy(raw, 4, data[4..5]);
    assert raw[..] == data[..5];
    l := LedFromBytes(raw[..]);
  }

  // mesh_tx: the struct is handed to the model.
  method MeshTx(m: Message) returns (out: seq<Pdu>)
    requires CommandReadable(m)
    ensures out == Forward(m)
  {
    out := [];
    var model, addr := m.model % 0x1_0000, m.addr % 0x1_0000;
    if model == MOVEMENT_CLI {
      if m.kind == OP_MOVEMENT_SET {
        var movement := CopyMovement(m.data);
        var p := MovementCliSet(addr, movement);
        out := [p];
      } else if m.kind == OP_READY_SET {
        out := [Pdu(ALL_NODES, OP_READY_SET, [])];
      }
    } else if model == LIGHT_RGB_CLI {
      if m.kind == OP_RGB_SET {
        var led := CopyLed(m.data);
        var p := RgbCliSet(addr, led);
        out := [p];
      }
    }
  }

  // From the gateway's command to the robot: the i-th message off the link, forwarded
  // by the bridge and taken by the server models of the robot it is addressed to.
  method CommandReachesRobot(srv: RobotServer, ghost es: seq<Event>, ghost cs: seq<Command>, ghost i: nat, m: Message)
    returns (dst: U16, r: Reaction)
    requires Run(es).sent == CommandFrames(cs)
    requires i < |Decode(Run(es).wire).msgs| && m == Decode(Run(es).wire).msgs[i]
    modifies srv
    ensures i < |cs|
    ensures match cs[i]
            case Configure(addr, mv) => dst == addr && r == Acked && srv.config == mv
            case ClearToMove => dst == ALL_NODES && r == Moved(old(srv.config)) && srv.config == old(srv.config)
            case LedConfigure(addr, l) => dst == addr && r == Lit(l) && srv.config == old(srv.config)
  {
    hide Decode, Run, OnWireAll, EncodeMovement, EncodeLed, CommandReadable, Forward;
    LinkDelivers(es);
    CommandFramesFit(cs);
    assert m == CommandFrame(cs[i]);
    ForwardCommand(cs[i]);
    var out := MeshTx(m);
    var p := out[0];
    dst := p.dst;
    r := srv.OnMessage(p);
    if r == Acked {
      EncodeMovementInjective(srv.config, cs[i].m);
    } else if r.Lit? {
      EncodeLedInjective(r.l, cs[i].l);
    }
  }
}
