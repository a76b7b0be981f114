/** The robot module as it runs: a list of robot records, walked and updated in place. */
module RobotModule {
  import opened Bytes
  import RobotHistory
  import RobotNames
  import opened RobotRegistry

  // `struct robot`; the name field is written once, before the robot is listed.
  class RobotNode {
    const id: seq<char>
    const addr: U16
    var state: RobotState
    var movement: Movement
    var revolutions: Byte
    var led: Led

    constructor (id: seq<char>, addr: U16)
      ensures Val() == Robot(RobotNames.CString(id), addr, Ready, Movement(0, 0, SPEED), 0, READY_LED)
    {
      this.id, this.addr := id, addr;
      state, movement, revolutions, led := Ready, Movement(0, 0, SPEED), 0, READY_LED;
    }

    // process_delta_movement.
    method ProcessMovement(d: Delta) returns (event: seq<Out>)
      modifies this
      ensures Val() == Ordered(old(Val()), d) && event == MoveOut(old(Val()), d)
    {
      event := [];
      var name := RobotNames.CString(id);
      if name in d.moves {
        movement := Movement(d.moves[name].time, d.moves[name].angle, movement.speed);
        movement := movement.(speed := SPEED);
        event := [MovementConfigure(addr)];
      }
    }

    // process_delta_led.
    method ProcessLed(d: Delta) returns (event: seq<Out>)
      modifies this
      ensures Val() == Lit(old(Val()), d) && event == LedOut(old(Val()), d)
    {
      event := [];
      var name := RobotNames.CString(id);
      if name in d.leds {
        led := d.leds[name];
        event := [LedConfigure(addr)];
      }
    }

    function Val(): Robot
      reads this
    {
      Robot(RobotNames.CString(id), addr, state, movement, revolutions, led)
    }
  }

  class Module {
    var connected: bool
    var versionPrev: int
    var robotList: seq<RobotNode>
    var out: seq<Out>
    ghost var robots: seq<Robot>

    ghost predicate Valid()
      reads this, robotList
    {
      && |robots| == |robotList|
      && (forall i | 0 <= i < |robotList| :: robotList[i].Val() == robots[i])
      && Distinct(robots)
    }

    ghost function Abs(): Gateway
      reads this
    {
      Gateway(connected, versionPrev, robots, out, false)
    }

    constructor ()
      ensures Valid() && Abs() == INIT
    {
      connected, versionPrev, robotList, out, robots := false, 0, [], [], [];
    }

    method GetRobotByAddr(addr: U16) returns (r: RobotNode?)
      requires Valid()
      ensures r == null <==> !Has(robots, addr)
      ensures r != null ==> r in robotList && r.addr == addr
    {
      for i := 0 to |robotList|
        invariant forall j | 0 <= j < i :: robots[j].addr != addr
      {
        if robotList[i].addr == addr {
          assert robots[i].addr == addr;
          return robotList[i];
        }
      }
      return null;
    }

    method AllRobotsAreInState(state: RobotState) returns (all: bool)
      requires Valid()
      ensures all <==> AllIn(robots, state)
    {
      for i := 0 to |robotList|
        invariant forall j | 0 <= j < i :: robots[j].state == state
      {
        if robotList[i].state != state {
          assert robots[i].state != state;
          return false;
        }
      }
      return true;
    }

    // add_robot, and the LED set-up both of its callers do.
    method AddRobot(id: U64, addr: U16) returns (r: RobotNode)
      requires Valid() && !Has(robots, addr)
      modifies this
      ensures Valid() && robots == old(robots) + [NewRobot(id, addr)] && r.Val() == NewRobot(id, addr)
      ensures unchanged(`connected) && unchanged(`versionPrev) && unchanged(`out)
    {
      var field := new char[RobotNames.FIELD](_ => '?');
      RobotNames.WriteName(field, id);
      r := new RobotNode(field[..], addr);
      robotList := robotList + [r];
      robots := robots + [r.Val()];
    }

    method OnRobotIdEvent(id: U64, addr: U16)
      requires Valid()
      modifies this
      ensures Valid() && Abs() == OnRobotId(old(Abs()), id, addr)
    {
      var known := GetRobotByAddr(addr);
      if known == null {
        var r := AddRobot(id, addr);
        if connected {
          out := out + [ReportMovement(RobotNames.CString(r.id), r.movement)];
          out := out + [ReportRevolutions(RobotNames.CString(r.id), r.revolutions)];
        }
        out := out + [LedConfigure(addr)];
      }
    }

    // What replacing the robot at one address means for the list.
    lemma OneReplaced(r: RobotNode, before: seq<Robot>, addr: U16, f: Robot -> Robot)
      requires |before| == |robotList| && Distinct(before)
      requires r in robotList && r.addr == addr
      requires forall i | 0 <= i < |robotList| :: robotList[i].addr == before[i].addr
      requires forall i | 0 <= i < |robotList| ::
                 robotList[i].Val() == if robotList[i] == r then f(before[i]) else before[i]
      ensures forall i | 0 <= i < |robotList| :: robotList[i].Val() == At(before, addr, f)[i]
    {
      var k :| 0 <= k < |robotList| && robotList[k] == r;
      forall i | 0 <= i < |robotList| ensures robotList[i].Val() == At(before, addr, f)[i] {
        if i != k {
          assert before[i].addr != before[k].addr;
        }
      }
    }

    lemma ReportOne(r: RobotNode, addr: U16)
      requires Valid() && r in robotList && r.addr == addr
      ensures ReportMove(robots, addr) == [ReportMovement(r.Val().name, r.movement)]
    {
      var k :| 0 <= k < |robotList| && robotList[k] == r;
      RobotHistory.FlatOne(robots, addr, k);
    }

    method MarkConfigured(r: RobotNode)
      requires Valid() && r in robotList
      modifies `robots, robotList
      ensures Valid() && robots == At(old(robots), r.addr, Acknowledged)
    {
      ghost var before := robots;
      r.state := Configured;
      r.led := CONFIGURED_LED;
      robots := At(before, r.addr, Acknowledged);
      OneReplaced(r, before, r.addr, Acknowledged);
    }

    method OnMovementConfigured(addr: U16)
      requires Valid() && Has(robots, addr)
      modifies this, robotList
      ensures Valid() && Abs() == OnAck(old(Abs()), addr)
    {
      hide Flat, Distinct, ReportMove, At;
      var r := GetRobotByAddr(addr);
      ReportOne(r, addr);
      out := out + [ReportMovement(RobotNames.CString(r.id), r.movement)];
      MarkConfigured(r);
      out := out + [LedConfigure(addr)];
      var all := AllRobotsAreInState(Configured);
      if all {
        out := out + [ClearToMove];
      }
    }

    method ReportRevolutionCounts()
      requires Valid()
      modifies `out
      ensures out == old(out) + Flat(robots, (r: Robot) => [ReportRevolutions(r.name, r.revolutions)])
    {
      ghost var f := (r: Robot) => [ReportRevolutions(r.name, r.revolutions)];
      for i := 0 to |robotList|
        invariant Valid()
        invariant out == old(out) + Flat(robots[..i], f)
      {
        var r := robotList[i];
        out := out + [ReportRevolutions(RobotNames.CString(r.id), r.revolutions)];
        assert robots[..i + 1][..i] == robots[..i];
      }
      assert robots[..|robotList|] == robots;
    }

    method MarkReported(addr: U16, n: Byte)
      requires Valid() && Has(robots, addr)
      modifies `robots, robotList
      ensures Valid() && robots == At(old(robots), addr, (r: Robot) => Reported(r, n))
    {
      ghost var before := robots;
      ghost var f := (r: Robot) => Reported(r, n);
      var r := GetRobotByAddr(addr);
      r.revolutions := n;
      r.state := Ready;
      r.led := READY_LED;
      robots := At(before, addr, f);
      OneReplaced(r, before, addr, f);
    }

    method OnTelemetryReported(addr: U16, n: Byte)
      requires Valid() && Has(robots, addr)
      modifies this, robotList
      ensures Valid() && Abs() == OnTelemetry(old(Abs()), addr, n)
    {
      hide Flat, Distinct, At;
      MarkReported(addr, n);
      out := out + [LedConfigure(addr)];
      var all := AllRobotsAreInState(Ready);
      if all {
        ReportRevolutionCounts();
      }
    }

    lemma NodesDistinct()
      requires Valid()
      ensures forall i, j | 0 <= i < j < |robotList| :: robotList[i] != robotList[j]
    {
      forall i, j | 0 <= i < j < |robotList| ensures robotList[i] != robotList[j] {
        assert robots[i].addr != robots[j].addr;
      }
    }

    method ProcessMovements(d: Delta)
      requires Valid()
      modifies `robots, `out, robotList
      ensures Valid() && robots == Each(old(robots), (r: Robot) => Ordered(r, d))
      ensures out == old(out) + Flat(old(robots), (r: Robot) => MoveOut(r, d))
    {
      NodesDistinct();
      SameAddresses(robots, Each(robots, (r: Robot) => Ordered(r, d)));
      hide Distinct;
      var events := MoveEach(robotList, robots, d);
      robots := Each(robots, (r: Robot) => Ordered(r, d));
      out := out + events;
    }

    method ProcessLeds(d: Delta)
      requires Valid()
      modifies `robots, `out, robotList
      ensures Valid() && robots == Each(old(robots), (r: Robot) => Lit(r, d))
      ensures out == old(out) + Flat(old(robots), (r: Robot) => LedOut(r, d))
    {
      NodesDistinct();
      SameAddresses(robots, Each(robots, (r: Robot) => Lit(r, d)));
      hide Distinct;
      var events := LightEach(robotList, robots, d);
      robots := Each(robots, (r: Robot) => Lit(r, d));
      out := out + events;
    }

    method OnUpdateDelta(d: Delta)
      requires Valid()
      modifies this, robotList
      ensures Valid() && Abs() == OnDelta(old(Abs()), d)
    {
      hide Distinct, Flat;
      if versionPrev >= d.version {
        return;
      }
      versionPrev := d.version;
      ProcessMovements(d);
      ProcessLeds(d);
    }

    method ReportRobots()
      requires Valid()
      modifies `out
      ensures out == old(out) + Flat(robots, ReportRobot)
    {
      for i := 0 to |robotList|
        invariant Valid()
        invariant out == old(out) + Flat(robots[..i], ReportRobot)
      {
        var r := robotList[i];
        out := out + [ReportMovement(RobotNames.CString(r.id), r.movement)];
        out := out + [ReportRevolutions(RobotNames.CString(r.id), r.revolutions)];
        assert robots[..i + 1][..i] == robots[..i];
      }
      assert robots[..|robotList|] == robots;
    }

    // One message: on_state_cloud_disconnected or on_state_cloud_connected.
    method HandleMessage(e: Event)
      requires Valid()
      requires connected && e.Mesh? && (e.m.MovementConfigured? || e.m.TelemetryReported?) ==> Has(robots, e.m.addr)
      modifies this, robotList
      ensures Valid() && Abs() == Next(old(Abs()), e)
    {
      if e.Mesh? {
        if e.m.RobotId? {
          OnRobotIdEvent(e.m.id, e.m.addr);
        } else if connected && e.m.MovementConfigured? {
          OnMovementConfigured(e.m.addr);
        } else if connected && e.m.TelemetryReported? {
          OnTelemetryReported(e.m.addr, e.m.revolutions);
        }
      } else if connected {
        if e.UpdateDelta? {
          OnUpdateDelta(e.d);
        } else if e.CloudDisconnected? {
          connected := false;
        }
      } else if e.CloudConnected? {
        out := out + [ReportRemoveAll];
        ReportRobots();
        connected := true;
      }
    }
  }

  // process_delta_for_each_robot(process_delta_movement, ...).
  method MoveEach(list: seq<RobotNode>, ghost robots: seq<Robot>, d: Delta) returns (events: seq<Out>)
    requires |robots| == |list| && forall i | 0 <= i < |list| :: list[i].Val() == robots[i]
    requires forall i, j | 0 <= i < j < |list| :: list[i] != list[j]
    modifies list
    ensures forall i | 0 <= i < |list| :: list[i].Val() == Ordered(robots[i], d)
    ensures events == Flat(robots, (r: Robot) => MoveOut(r, d))
  {
    hide Ordered, MoveOut, Flat, RobotNames.CString;
    ghost var o := (r: Robot) => MoveOut(r, d);
    events := [];
    FlatEmpty(robots, o);
    for i := 0 to |list|
      invariant forall j | 0 <= j < i :: list[j].Val() == Ordered(robots[j], d)
      invariant forall j | i <= j < |list| :: list[j].Val() == robots[j]
      invariant events == Flat(robots[..i], o)
    {
      var event := list[i].ProcessMovement(d);
      events := events + event;
      FlatSnoc(robots, i, o);
    }
    assert robots[..|list|] == robots;
  }

  // process_delta_for_each_robot(process_delta_led, ...).
  method LightEach(list: seq<RobotNode>, ghost robots: seq<Robot>, d: Delta) returns (events: seq<Out>)
    requires |robots| == |list| && forall i | 0 <= i < |list| :: list[i].Val() == robots[i]
    requires forall i, j | 0 <= i < j < |list| :: list[i] != list[j]
    modifies list
    ensures forall i | 0 <= i < |list| :: list[i].Val() == Lit(robots[i], d)
    ensures events == Flat(robots, (r: Robot) => LedOut(r, d))
  {
    hide Lit, LedOut, Flat, RobotNames.CString;
    ghost var o := (r: Robot) => LedOut(r, d);
    events := [];
    FlatEmpty(robots, o);
    for i := 0 to |list|
      invariant forall j | 0 <= j < i :: list[j].Val() == Lit(robots[j], d)
      invariant forall j | i <= j < |list| :: list[j].Val() == robots[j]
      invariant events == Flat(robots[..i], o)
    {
      var event := list[i].ProcessLed(d);
      events := events + event;
      FlatSnoc(robots, i, o);
    }
    assert robots[..|list|] == robots;
  }

  lemma FlatEmpty(robots: seq<Robot>, f: Robot -> seq<Out>)
    ensures Flat(robots[..0], f) == []
  {}

  lemma SameAddresses(before: seq<Robot>, after: seq<Robot>)
    requires Distinct(before) && |after| == |before|
    requires forall i | 0 <= i < |before| :: after[i].addr == before[i].addr
    ensures Distinct(after)
  {}

  lemma FlatSnoc(robots: seq<Robot>, i: nat, f: Robot -> seq<Out>)
    requires i < |robots|
    ensures Flat(robots[..i + 1], f) == Flat(robots[..i], f) + f(robots[i])
  {
    assert robots[..i + 1][..i] == robots[..i];
  }
}
