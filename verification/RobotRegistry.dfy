/** The gateway's robot module as a function of the events it handles. */
module RobotRegistry {
  import opened Bytes
  import RobotNames

  datatype RobotState = Ready | Configuring | Configured

  datatype Robot = Robot(
    name: string,
    addr: U16,
    state: RobotState,
    movement: Movement,
    revolutions: Byte,
    led: Led)

  // A shadow delta, decoded: what it says about each robot it names.
  datatype Order = Order(time: U32, angle: I32)
  datatype Delta = Delta(version: int, moves: map<string, Order>, leds: map<string, Led>)

  datatype Event =
    | Mesh(m: MeshEvent)
    | CloudConnected
    | CloudDisconnected
    | UpdateDelta(d: Delta)
    | Other

  // Events submitted. The configure events point at the robot's own struct.
  datatype Out =
    | LedConfigure(addr: U16)
    | MovementConfigure(addr: U16)
    | ClearToMove
    | ReportRemoveAll
    | ReportMovement(name: string, m: Movement)
    | ReportRevolutions(name: string, n: Byte)

  datatype Gateway = Gateway(
    connected: bool,
    versionPrev: int,
    robots: seq<Robot>,
    out: seq<Out>,
    faulted: bool)  // an acknowledgement or report from an unknown address was dereferenced

  const SPEED: Byte := 100
  const READY_LED := Led(500, 0, 230, 10)
  const CONFIGURED_LED := Led(150, 230, 0, 10)
  const INIT := Gateway(false, 0, [], [], false)

  ghost predicate Has(robots: seq<Robot>, addr: U16) {
    exists i | 0 <= i < |robots| :: robots[i].addr == addr
  }

  ghost predicate AllIn(robots: seq<Robot>, state: RobotState) {
    forall i | 0 <= i < |robots| :: robots[i].state == state
  }

  function NewRobot(id: U64, addr: U16): Robot {
    Robot(RobotNames.Name(id), addr, Ready, Movement(0, 0, SPEED), 0, READY_LED)
  }

  function Acknowledged(r: Robot): Robot {
    r.(state := Configured, led := CONFIGURED_LED)
  }

  function Reported(r: Robot, n: Byte): Robot {
    r.(revolutions := n, state := Ready, led := READY_LED)
  }

  function Ordered(r: Robot, d: Delta): Robot {
    if r.name in d.moves then r.(movement := Movement(d.moves[r.name].time, d.moves[r.name].angle, SPEED)) else r
  }

  function Lit(r: Robot, d: Delta): Robot {
    if r.name in d.leds then r.(led := d.leds[r.name]) else r
  }

  // The robots, with f applied to those at addr.
  function At(robots: seq<Robot>, addr: U16, f: Robot -> Robot): (rs: seq<Robot>)
    ensures |rs| == |robots|
    ensures forall i | 0 <= i < |rs| :: rs[i] == if robots[i].addr == addr then f(robots[i]) else robots[i]
  {
    seq(|robots|, i requires 0 <= i < |robots| => if robots[i].addr == addr then f(robots[i]) else robots[i])
  }

  function Each(robots: seq<Robot>, f: Robot -> Robot): (rs: seq<Robot>)
    ensures |rs| == |robots|
    ensures forall i | 0 <= i < |rs| :: rs[i] == f(robots[i])
  {
    seq(|robots|, i requires 0 <= i < |robots| => f(robots[i]))
  }

  function Flat(robots: seq<Robot>, f: Robot -> seq<Out>): seq<Out> {
    if robots == [] then [] else Flat(robots[..|robots| - 1], f) + f(robots[|robots| - 1])
  }

  function MoveOut(r: Robot, d: Delta): seq<Out> {
    if r.name in d.moves then [MovementConfigure(r.addr)] else []
  }

  function LedOut(r: Robot, d: Delta): seq<Out> {
    if r.name in d.leds then [LedConfigure(r.addr)] else []
  }

  function ReportRobot(r: Robot): seq<Out> {
    [ReportMovement(r.name, r.movement), ReportRevolutions(r.name, r.revolutions)]
  }

  function ReportMove(robots: seq<Robot>, addr: U16): seq<Out> {
    Flat(robots, (r: Robot) => if r.addr == addr then [ReportMovement(r.name, r.movement)] else [])
  }

  ghost function OnAck(g: Gateway, addr: U16): Gateway {
    if !Has(g.robots, addr) then g.(faulted := true)
    else
      var rs := At(g.robots, addr, Acknowledged);
      g.(robots := rs,
         out := g.out + ReportMove(g.robots, addr) + [LedConfigure(addr)] +
                (if AllIn(rs, Configured) then [ClearToMove] else []))
  }

  ghost function OnTelemetry(g: Gateway, addr: U16, n: Byte): Gateway {
    if !Has(g.robots, addr) then g.(faulted := true)
    else
      var rs := At(g.robots, addr, (r: Robot) => Reported(r, n));
      g.(robots := rs,
         out := g.out + [LedConfigure(addr)] +
                (if AllIn(rs, Ready) then Flat(rs, (r: Robot) => [ReportRevolutions(r.name, r.revolutions)]) else []))
  }

  ghost function OnRobotId(g: Gateway, id: U64, addr: U16): Gateway {
    if Has(g.robots, addr) then g
    else
      var r := NewRobot(id, addr);
      g.(robots := g.robots + [r],
         out := g.out + (if g.connected then ReportRobot(r) else []) + [LedConfigure(addr)])
  }

  function OnDelta(g: Gateway, d: Delta): Gateway {
    if g.versionPrev >= d.version then g
    else
      var moved := Each(g.robots, (r: Robot) => Ordered(r, d));
      g.(versionPrev := d.version,
         robots := Each(moved, (r: Robot) => Lit(r, d)),
         out := g.out + Flat(g.robots, (r: Robot) => MoveOut(r, d)) + Flat(moved, (r: Robot) => LedOut(r, d)))
  }

  ghost function Next(g: Gateway, e: Event): Gateway {
    if g.faulted then g
    else if g.connected then
      match e
      case UpdateDelta(d) => OnDelta(g, d)
      case CloudDisconnected => g.(connected := false)
      case Mesh(RobotId(addr, id)) => OnRobotId(g, id, addr)
      case Mesh(MovementConfigured(addr)) => OnAck(g, addr)
      case Mesh(TelemetryReported(addr, n)) => OnTelemetry(g, addr, n)
      case _ => g
    else
      match e
      case Mesh(RobotId(addr, id)) => OnRobotId(g, id, addr)
      case CloudConnected =>
        g.(connected := true, out := g.out + [ReportRemoveAll] + Flat(g.robots, ReportRobot))
      case _ => g
  }

  ghost function Run(es: seq<Event>): Gateway {
    if es == [] then INIT else Next(Run(es[..|es| - 1]), es[|es| - 1])
  }

  // ---- What the history of events says, without running the module.

  predicate ConnectedAfter(es: seq<Event>) {
    if es == [] then false
    else
      match es[|es| - 1]
      case CloudConnected => true
      case CloudDisconnected => false
      case _ => ConnectedAfter(es[..|es| - 1])
  }

  predicate RegisteredIn(es: seq<Event>, addr: U16) {
    es != [] &&
    ((es[|es| - 1].Mesh? && es[|es| - 1].m.RobotId? && es[|es| - 1].m.addr == addr)
     || RegisteredIn(es[..|es| - 1], addr))
  }

  datatype Mark = Nothing | Joined | Acked | Told

  predicate IsAck(e: Event, addr: U16) { e.Mesh? && e.m == MovementConfigured(addr) }

  predicate IsTelemetry(e: Event, addr: U16) { e.Mesh? && e.m.TelemetryReported? && e.m.addr == addr }

  // The last of {registration, acknowledgement, telemetry} handled for an address.
  function LastMark(es: seq<Event>, addr: U16): Mark {
    if es == [] then Nothing
    else
      var before, e := es[..|es| - 1], es[|es| - 1];
      if e.Mesh? && e.m.RobotId? && e.m.addr == addr && !RegisteredIn(before, addr) then Joined
      else if ConnectedAfter(before) && IsAck(e, addr) then Acked
      else if ConnectedAfter(before) && IsTelemetry(e, addr) then Told
      else LastMark(before, addr)
  }

  predicate Distinct(robots: seq<Robot>) {
    forall i, j | 0 <= i < j < |robots| :: robots[i].addr != robots[j].addr
  }

  // The registry agrees with the history.
  ghost predicate Agrees(g: Gateway, es: seq<Event>) {
    && g.connected == ConnectedAfter(es)
    && Distinct(g.robots)
    && (forall a: U16 :: Has(g.robots, a) <==> RegisteredIn(es, a))
    && (forall i | 0 <= i < |g.robots| ::
          g.robots[i].state == if LastMark(es, g.robots[i].addr) == Acked then Configured else Ready)
  }
}
