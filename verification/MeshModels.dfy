/** The vendor mesh models: movement and RGB commands in big-endian payloads. */
module MeshModels {
  import opened Bytes

  const OP_ID_STATUS: U32 := 0xCA_0059
  const OP_MOVEMENT_SET: U32 := 0xCB_0059
  const OP_MOVEMENT_ACK: U32 := 0xCC_0059
  const OP_READY_SET: U32 := 0xCD_0059
  const OP_TELEMETRY_REPORT: U32 := 0xCF_0059
  const OP_RGB_SET: U32 := 0xD0_0059

  // An access payload on its way to a destination.
  datatype Pdu = Pdu(dst: U16, opcode: U32, payload: seq<Byte>)

  function EncodeMovement(m: Movement): (b: seq<Byte>)
    ensures |b| == 9
  {
    Be32(m.time) + Be32(ToU32(m.angle)) + [m.speed]
  }

  function EncodeLed(l: Led): (b: seq<Byte>)
    ensures |b| == 5
  {
    Be16(l.time) + [l.red, l.green, l.blue]
  }

  // What is where in the payloads, on the mesh.
  lemma PayloadBytes(m: Movement, l: Led)
    ensures forall k: nat | k < 4 ::
              && EncodeMovement(m)[3 - k] == ByteAt(m.time, k)
              && EncodeMovement(m)[7 - k] == ByteAt(m.angle % 0x1_0000_0000, k)
    ensures EncodeMovement(m)[8] == m.speed
    ensures forall k: nat | k < 2 :: EncodeLed(l)[k] == ByteAt(l.time, 1 - k)
    ensures EncodeLed(l)[2] == l.red && EncodeLed(l)[3] == l.green && EncodeLed(l)[4] == l.blue
  {
    SignedIsModular(m.angle, 0);
    ByteOrders(m.time, l.time);
    ByteOrders(ToU32(m.angle), 0);
    hide Be32, ByteAt, ToU32;
    var b := EncodeMovement(m);
    assert b[0..4] == Be32(m.time) && b[4..8] == Be32(ToU32(m.angle));
    assert b[0] == b[0..4][0] && b[1] == b[0..4][1] && b[2] == b[0..4][2] && b[3] == b[0..4][3];
    assert b[4] == b[4..8][0] && b[5] == b[4..8][1] && b[6] == b[4..8][2] && b[7] == b[4..8][3];
  }

  lemma Be32Injective(x: U32, y: U32)
    ensures Be32(x) == Be32(y) ==> x == y
  {
    FromLe32OfLe32(x);
    FromLe32OfLe32(y);
    if Be32(x) == Be32(y) {
      assert Be32(x)[0] == Be32(y)[0] && Be32(x)[1] == Be32(y)[1];
      assert Be32(x)[2] == Be32(y)[2] && Be32(x)[3] == Be32(y)[3];
      assert Le32(x) == Le32(y);
    }
  }

  // No two movements share an encoding, so a decoder has no choice.
  lemma EncodeMovementInjective(m: Movement, n: Movement)
    requires EncodeMovement(m) == EncodeMovement(n)
    ensures m == n
  {
    assert Be32(m.time) == EncodeMovement(m)[0..4] == EncodeMovement(n)[0..4] == Be32(n.time);
    assert Be32(ToU32(m.angle)) == EncodeMovement(m)[4..8] == EncodeMovement(n)[4..8] == Be32(ToU32(n.angle));
    assert EncodeMovement(m)[8] == EncodeMovement(n)[8];
    Be32Injective(m.time, n.time);
    Be32Injective(ToU32(m.angle), ToU32(n.angle));
  }

  lemma EncodeLedInjective(l: Led, k: Led)
    requires EncodeLed(l) == EncodeLed(k)
    ensures l == k
  {
    var a, b := EncodeLed(l), EncodeLed(k);
    assert a[0] == b[0] && a[1] == b[1] && a[2] == b[2] && a[3] == b[3] && a[4] == b[4];
  }

  // `struct net_buf_simple`: fields are added at the tail and pulled off the head.
  class NetBuf {
    var data: seq<Byte>

    constructor ()
      ensures data == []
    {
      data := [];
    }

    method AddU8(v: Byte)
      modifies this
      ensures data == old(data) + [v]
    {
      data := data + [v];
    }

    method AddBe16(v: U16)
      modifies this
      ensures data == old(data) + Be16(v)
    {
      data := data + [v / 0x100, v % 0x100];
    }

    method AddBe32(v: U32)
      modifies this
      ensures data == old(data) + Be32(v)
    {
      data := data + [v / 0x100_0000, v / 0x1_0000 % 0x100, v / 0x100 % 0x100, v % 0x100];
    }

    method PullU8() returns (v: Byte)
      requires |data| >= 1
      modifies this
      ensures old(data) == [v] + data
    {
      v := data[0];
      data := data[1..];
    }

    method PullBe16() returns (v: U16)
      requires |data| >= 2
      modifies this
      ensures old(data) == Be16(v) + data
    {
      v := data[0] as int * 0x100 + data[1] as int;
      assert Be16(v) == data[..2];
      data := data[2..];
    }

    method PullBe32() returns (v: U32)
      requires |data| >= 4
      modifies this
      ensures old(data) == Be32(v) + data
    {
      ghost var le := [data[3], data[2], data[1], data[0]];
      v := data[0] as int * 0x100_0000 + data[1] as int * 0x1_0000 + data[2] as int * 0x100 + data[3] as int;
      assert v == FromLe32(le);
      Le32OfFromLe32(le);
      assert Le32(v)[0] == le[0] && Le32(v)[1] == le[1] && Le32(v)[2] == le[2] && Le32(v)[3] == le[3];
      assert Be32(v) == data[..4];
      data := data[4..];
    }
  }

  // bt_mesh_movement_cli_movement_set: the message it sends.
  method MovementCliSet(dst: U16, m: Movement) returns (p: Pdu)
    ensures p == Pdu(dst, OP_MOVEMENT_SET, EncodeMovement(m))
  {
    var buf := new NetBuf();
    buf.AddBe32(m.time);
    buf.AddBe32(ToU32(m.angle));
    buf.AddU8(m.speed);
    p := Pdu(dst, OP_MOVEMENT_SET, buf.data);
  }

  // bt_mesh_light_rgb_cli_rgb_set.
  method RgbCliSet(dst: U16, l: Led) returns (p: Pdu)
    ensures p == Pdu(dst, OP_RGB_SET, EncodeLed(l))
  {
    var buf := new NetBuf();
    buf.AddBe16(l.time);
    buf.AddU8(l.red);
    buf.AddU8(l.green);
    buf.AddU8(l.blue);
    assert buf.data == EncodeLed(l);
    p := Pdu(dst, OP_RGB_SET, buf.data);
  }

  // The movement consumed is the one whose encoding was at the head of the buffer.
  method ExtractMovement(buf: NetBuf) returns (m: Movement)
    requires |buf.data| >= 9
    modifies buf
    ensures old(buf.data) == EncodeMovement(m) + buf.data
  {
    var time := buf.PullBe32();
    var angle := buf.PullBe32();
    var speed := buf.PullU8();
    m := Movement(time, ToI32(angle), speed);
    assert ToU32(m.angle) == angle;
  }

  method ExtractRgb(buf: NetBuf) returns (l: Led)
    requires |buf.data| >= 5
    modifies buf
    ensures old(buf.data) == EncodeLed(l) + buf.data
  {
    var time := buf.PullBe16();
    var red := buf.PullU8();
    var green := buf.PullU8();
    var blue := buf.PullU8();
    l := Led(time, red, green, blue);
  }

  // What one message makes a robot do.
  datatype Reaction = Ignored | Acked | Moved(m: Movement) | Lit(l: Led)

  // The robot's server models: its stored movement and the opcode tables with
  // their exact-length checks.
  class RobotServer {
    var config: Movement

    constructor ()
      ensures config == Movement(0, 0, 0)
    {
      config := Movement(0, 0, 0);
    }

    // A SET is stored before it is acknowledged; READY hands out what is stored.
    method OnMessage(p: Pdu) returns (r: Reaction)
      modifies this
      ensures r == Acked <==> p.opcode == OP_MOVEMENT_SET && |p.payload| == 9
      ensures if r == Acked then EncodeMovement(config) == p.payload else config == old(config)
      ensures r.Moved? <==> p.opcode == OP_READY_SET && p.payload == []
      ensures r.Moved? ==> r.m == config
      ensures r.Lit? <==> p.opcode == OP_RGB_SET && |p.payload| == 5
      ensures r.Lit? ==> EncodeLed(r.l) == p.payload
    {
      r := Ignored;
      var buf := new NetBuf();
      buf.data := p.payload;
      if p.opcode == OP_MOVEMENT_SET && |p.payload| == 9 {
        config := ExtractMovement(buf);
        r := Acked;
      } else if p.opcode == OP_READY_SET && |p.payload| == 0 {
        r := Moved(config);
      } else if p.opcode == OP_RGB_SET && |p.payload| == 5 {
        var l := ExtractRgb(buf);
        r := Lit(l);
      }
    }
  }
}
