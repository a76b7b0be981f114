/** Fixed-width integers of the firmware and their byte orders. */
module Bytes {
  type Byte = x: int | 0 <= x < 0x100
  type U16 = x: int | 0 <= x < 0x1_0000
  type U32 = x: int | 0 <= x < 0x1_0000_0000
  type U64 = x: int | 0 <= x < 0x1_0000_0000_0000_0000
  type I32 = x: int | -0x8000_0000 <= x < 0x8000_0000

  datatype Option<+T> = None | Some(value: T)

  // A movement command: `struct codec_movement` on the gateway and
  // `struct bt_mesh_movement_set` on the bridge and the robot.
  datatype Movement = Movement(time: U32, angle: I32, speed: Byte)

  // An LED command: `struct codec_led` and `struct bt_mesh_light_rgb_set`.
  datatype Led = Led(time: U16, red: Byte, green: Byte, blue: Byte)

  // `struct mesh_module_event` on the gateway. The event type of a message the
  // receive thread does not recognise is never assigned.
  datatype MeshEvent =
    | RobotId(addr: U16, id: U64)
    | MovementConfigured(addr: U16)
    | TelemetryReported(addr: U16, revolutions: Byte)
    | Unassigned

  // Byte k of a number, counted from the low end.
  function ByteAt(x: nat, k: nat): Byte {
    if k == 0 then x % 0x100 else ByteAt(x / 0x100, k - 1)
  }

  // Little-endian, the memory order of both Cortex-M chips.
  function Le32(x: U32): (b: seq<Byte>)
    ensures |b| == 4
  {
    [x % 0x100, x / 0x100 % 0x100, x / 0x1_0000 % 0x100, x / 0x100_0000]
  }

  function FromLe32(b: seq<Byte>): U32
    requires |b| == 4
  {
    b[0] as int + 0x100 * b[1] as int + 0x1_0000 * b[2] as int + 0x100_0000 * b[3] as int
  }

  lemma FromLe32OfLe32(x: U32)
    ensures FromLe32(Le32(x)) == x
  {
    assert x / 0x1_0000 == x / 0x100 / 0x100;
    assert x / 0x100_0000 == x / 0x100 / 0x100 / 0x100;
  }

  lemma Le32OfFromLe32(b: seq<Byte>)
    requires |b| == 4
    ensures Le32(FromLe32(b)) == b
  {
    var x: int := FromLe32(b);
    assert x % 0x100 == b[0];
    assert x / 0x100 == b[1] as int + 0x100 * b[2] as int + 0x1_0000 * b[3] as int;
    assert x / 0x1_0000 == b[2] as int + 0x100 * b[3] as int;
    assert x / 0x100_0000 == b[3];
  }

  function Le16(x: U16): (b: seq<Byte>)
    ensures |b| == 2
  {
    [x % 0x100, x / 0x100]
  }

  function FromLe16(b: seq<Byte>): U16
    requires |b| == 2
  {
    b[0] as int + 0x100 * b[1] as int
  }

  // Big-endian, the order of the mesh payloads.
  function Be32(x: U32): (b: seq<Byte>)
    ensures |b| == 4
  {
    [x / 0x100_0000, x / 0x1_0000 % 0x100, x / 0x100 % 0x100, x % 0x100]
  }

  function Be16(x: U16): (b: seq<Byte>)
    ensures |b| == 2
  {
    [x / 0x100, x % 0x100]
  }

  // What the byte orders mean: low byte first, and high byte first.
  lemma ByteOrders(x: U32, y: U16)
    ensures forall k: nat | k < 4 :: Le32(x)[k] == ByteAt(x, k) && Be32(x)[k] == ByteAt(x, 3 - k)
    ensures forall k: nat | k < 2 :: Le16(y)[k] == ByteAt(y, k) && Be16(y)[k] == ByteAt(y, 1 - k)
  {
    assert ByteAt(x, 1) == ByteAt(x / 0x100, 0);
    assert ByteAt(x, 2) == ByteAt(x / 0x100, 1) == ByteAt(x / 0x100 / 0x100, 0);
    assert x / 0x1_0000 == x / 0x100 / 0x100;
    assert ByteAt(x, 3) == ByteAt(x / 0x100, 2) == ByteAt(x / 0x100 / 0x100, 1);
    assert ByteAt(x / 0x100 / 0x100, 1) == ByteAt(x / 0x100 / 0x100 / 0x100, 0);
    assert x / 0x100_0000 == x / 0x100 / 0x100 / 0x100;
    assert ByteAt(y, 1) == ByteAt(y / 0x100, 0);
  }

  lemma FromLe32Bytes(b: seq<Byte>)
    requires |b| == 4
    ensures forall k: nat | k < 4 :: ByteAt(FromLe32(b), k) == b[k]
  {
    Le32OfFromLe32(b);
    ByteOrders(FromLe32(b), 0);
  }

  // The conversions between int32_t and uint32_t.
  function ToU32(x: I32): U32 {
    if x < 0 then x + 0x1_0000_0000 else x
  }

  function ToI32(x: U32): I32 {
    if x < 0x8000_0000 then x else x - 0x1_0000_0000
  }

  // Both keep the value modulo 2^32, so each undoes the other.
  lemma SignedIsModular(x: I32, y: U32)
    ensures ToU32(x) == x % 0x1_0000_0000 && ToI32(ToU32(x)) == x
    ensures ToI32(y) % 0x1_0000_0000 == y && ToU32(ToI32(y)) == y
  {}
}
