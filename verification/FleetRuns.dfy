/** Runs of the fleet that show what the barrier lets happen. */
module FleetRuns {
  import opened Bytes
  import opened RobotRegistry
  import opened Fleet
  import O = OnceDelivery
  import RobotHistory
  import RobotNames

  ghost predicate Reachable(addrs: set<U16>, w: World) {
    exists ss :: RunFleet(addrs, ss) == w
  }

  lemma ReachNext(addrs: set<U16>, w: World, s: Step)
    requires Reachable(addrs, w)
    ensures Reachable(addrs, StepWorld(w, s))
  {
    var ss :| RunFleet(addrs, ss) == w;
    FleetSnoc(addrs, ss, s);
  }

  lemma {:induction false} ReachWithout(addrs: set<U16>, w: World)
    requires Reachable(addrs, w)
    ensures Reachable(addrs, w.(commands := []))
    decreases |w.commands|
  {
    if w.commands != [] {
      ReachNext(addrs, w, CommandDropped(0));
      assert StepWorld(w, CommandDropped(0)) == w.(commands := w.commands[1..]);
      ReachWithout(addrs, w.(commands := w.commands[1..]));
    } else {
      assert w == w.(commands := []);
    }
  }

  const IDLE := Node(Movement(0, 0, 0), [], 0)
  const FIRST := Movement(1000, 90, SPEED)

  // The robot at address 1 has registered, with the cloud connected.
  ghost predicate Joined(addrs: set<U16>, w: World) {
    && Reachable(addrs, w)
    && w.gw.connected && !w.gw.faulted && w.gw.versionPrev == 0 && w.gw.robots == [NewRobot(0, 1)]
    && w.commands == [] && w.nodes == map a | a in addrs :: IDLE
  }

  lemma OneRobotJoins(addrs: set<U16>) returns (w: World)
    requires 1 in addrs
    ensures Joined(addrs, w)
  {
    w := CloudConnects(addrs);
    ReachNext(addrs, w, RobotAnnounces(1, 0));
    w := StepWorld(w, RobotAnnounces(1, 0));
    ReachNext(addrs, w, GatewayHears(IdStatus(1, 0)));
    w := StepWorld(w, GatewayHears(IdStatus(1, 0)));
    ReachWithout(addrs, w);
    w := w.(commands := []);
  }

  lemma CloudConnects(addrs: set<U16>) returns (w: World)
    ensures Reachable(addrs, w)
    ensures w.gw == INIT.(connected := true, out := [ReportRemoveAll])
    ensures w.nodes == map a | a in addrs :: IDLE
  {
    w := Fresh(addrs);
    assert RunFleet(addrs, []) == w;
    ReachNext(addrs, w, CloudEvent(CloudConnected));
    w := StepWorld(w, CloudEvent(CloudConnected));
  }

  // ... and has stored and acknowledged the movement of a first delta, which the
  // gateway has not heard yet.
  ghost predicate Stored(addrs: set<U16>, w: World, o: Order) {
    && Reachable(addrs, w) && w.gw.connected && !w.gw.faulted && w.gw.versionPrev == 1
    && w.gw.robots == [NewRobot(0, 1).(movement := Movement(o.time, o.angle, SPEED))]
    && w.commands == [] && Ack(1) in w.net
    && w.nodes.Keys == addrs && 1 in addrs
    && (forall a | a in addrs :: w.nodes[a].moves == [] && w.nodes[a].reports == 0)
    && w.nodes[1].config == Movement(o.time, o.angle, SPEED)
  }

  lemma FirstMovementStored(addrs: set<U16>, w0: World, o: Order) returns (w: World)
    requires Joined(addrs, w0) && 1 in addrs
    ensures Stored(addrs, w, o)
  {
    w := MovementStored(addrs, w0, NewRobot(0, 1), o);
  }

  // The only registered robot is sent a movement, stores it and acknowledges it.
  lemma MovementStored(addrs: set<U16>, w0: World, r: Robot, o: Order) returns (w: World)
    requires Reachable(addrs, w0) && w0.gw.connected && !w0.gw.faulted && w0.gw.versionPrev >= 0
    requires w0.gw.robots == [r] && w0.commands == [] && r.addr in w0.nodes
    ensures Reachable(addrs, w) && w.gw.connected && !w.gw.faulted && w.gw.versionPrev == w0.gw.versionPrev + 1
    ensures w.gw.robots == [r.(movement := Movement(o.time, o.angle, SPEED))]
    ensures w.commands == [] && Ack(r.addr) in w.net && w0.net <= w.net
    ensures w.nodes == w0.nodes[r.addr := w0.nodes[r.addr].(config := Movement(o.time, o.angle, SPEED))]
  {
    var d := Delta(w0.gw.versionPrev + 1, map[r.name := o], map[]);
    var moved := Ordered(r, d);
    var out := (q: Robot) => MoveOut(q, d);
    assert Each([r], (q: Robot) => Ordered(q, d)) == [moved];
    assert Each([moved], (q: Robot) => Lit(q, d)) == [moved];
    assert Flat([r], out) == Flat([], out) + [MovementConfigure(r.addr)];
    w := StepWorld(w0, CloudEvent(UpdateDelta(d)));
    ReachNext(addrs, w0, CloudEvent(UpdateDelta(d)));
    assert w.commands[0] == MovementConfigure(r.addr) && w.gw.robots == [moved];
    w := MovementDelivered(addrs, w, moved);
  }

  lemma MovementDelivered(addrs: set<U16>, w0: World, r: Robot) returns (w: World)
    requires Reachable(addrs, w0) && !w0.gw.faulted && w0.gw.robots == [r]
    requires w0.commands != [] && w0.commands[0] == MovementConfigure(r.addr) && r.addr in w0.nodes
    ensures Reachable(addrs, w) && w.gw == w0.gw && w.commands == [] && Ack(r.addr) in w.net && w0.net <= w.net
    ensures w.nodes == w0.nodes[r.addr := w0.nodes[r.addr].(config := r.movement)]
  {
    ReachNext(addrs, w0, GatewaySends);
    w := StepWorld(w0, GatewaySends);
    var p := Set(r.addr, r.movement);
    assert p in w.net;
    ReachNext(addrs, w, RobotHears(r.addr, p));
    w := StepWorld(w, RobotHears(r.addr, p));
    ReachWithout(addrs, w);
    w := w.(commands := []);
  }

  // A run in which the only robot is cleared to move with a movement that is no
  // longer the one on record.
  lemma StaleMovementIsCleared()
    ensures exists w, s ::
      && Reachable({1}, w) && Clears(w, s) && 1 in StepWorld(w, s).nodes && |StepWorld(w, s).gw.robots| == 1
      && StepWorld(w, s).nodes[1].config != StepWorld(w, s).gw.robots[0].movement
  {
    var name := NewRobot(0, 1).name;
    var left := Delta(2, map[name := Order(1000, -90)], map[]);
    var w := OneRobotJoins({1});
    w := FirstMovementStored({1}, w, Order(1000, 90));
    var ss :| RunFleet({1}, ss) == w;
    FleetInv({1}, ss);
    StaleMovementCanBeCleared(w, left, 0);
    ReachNext({1}, w, CloudEvent(UpdateDelta(left)));
    var v := StepWorld(w, CloudEvent(UpdateDelta(left)));
    assert Clears(v, GatewayHears(Ack(1)));
    assert |StepWorld(v, GatewayHears(Ack(1))).gw.robots| == 1;
  }

  // The robots cleared, READY is broadcast.
  lemma ReadyBroadcast(addrs: set<U16>, w0: World, o: Order) returns (w: World)
    requires Stored(addrs, w0, o)
    ensures Reachable(addrs, w) && w.gw.connected && !w.gw.faulted && ReadyAll in w.net
    ensures w.nodes == w0.nodes && w.gw.robots == [Acknowledged(w0.gw.robots[0])] && w.gw.versionPrev == 1
  {
    var hears := GatewayHears(Ack(1));
    assert w0.gw.robots[0].addr == 1;
    RobotHistory.ClearAck(w0.gw, 1);
    w := StepWorld(w0, hears);
    ReachNext(addrs, w0, hears);
    assert ClearToMove in w.commands;
    var i :| 0 <= i < |w.commands| && w.commands[i] == ClearToMove;
    w := SendAfter(addrs, w, i, ClearToMove);
  }

  // The mesh thread's events before the i-th are lost.
  lemma {:induction false} SendAfter(addrs: set<U16>, w0: World, i: nat, c: Out) returns (w: World)
    requires Reachable(addrs, w0) && i < |w0.commands| && w0.commands[i] == c && !w0.gw.faulted
    ensures Reachable(addrs, w) && w.gw == w0.gw && w.nodes == w0.nodes
    ensures w0.net + Sent(w0.gw.robots, c) <= w.net
    decreases i
  {
    if i == 0 {
      ReachNext(addrs, w0, GatewaySends);
      w := StepWorld(w0, GatewaySends);
    } else {
      ReachNext(addrs, w0, CommandDropped(0));
      w := StepWorld(w0, CommandDropped(0));
      assert w.commands == w0.commands[1..];
      w := SendAfter(addrs, w, i - 1, c);
    }
  }

  // A run in which a robot that never registered hears the broadcast, moves, reports,
  // and its report makes the gateway dereference a robot it does not have.
  lemma StrayReportFaults()
    ensures exists w, s ::
      && Reachable({1, 2}, w) && !w.gw.faulted && s == GatewayHears(Telemetry(2, 1))
      && StepWorld(w, s).gw.faulted
  {
    hide Next, StepWorld, RunFleet, Reachable;
    var addrs: set<U16> := {1, 2};
    var w := OneRobotJoins(addrs);
    w := FirstMovementStored(addrs, w, Order(1000, 90));
    w := ReadyBroadcast(addrs, w, Order(1000, 90));
    w := HearsAndReports(addrs, w, 2);
    StrayFaults(w);
  }

  lemma HearsAndReports(addrs: set<U16>, w0: World, a: U16) returns (w: World)
    requires Reachable(addrs, w0) && a in w0.nodes && w0.nodes[a].reports == 0 && ReadyAll in w0.net
    ensures Reachable(addrs, w) && w.gw == w0.gw && w.nodes.Keys == w0.nodes.Keys && Telemetry(a, 1) in w.net
    ensures w.nodes[a].moves == w0.nodes[a].moves + [w0.nodes[a].config]
  {
    hide Next, RunFleet, Reachable;
    ReachNext(addrs, w0, RobotHears(a, ReadyAll));
    w := StepWorld(w0, RobotHears(a, ReadyAll));
    ReachNext(addrs, w, RobotReports(a));
    w := StepWorld(w, RobotReports(a));
  }

  lemma StrayFaults(w: World)
    requires w.gw.connected && |w.gw.robots| == 1 && w.gw.robots[0].addr == 1 && Telemetry(2, 1) in w.net
    ensures StepWorld(w, GatewayHears(Telemetry(2, 1))).gw.faulted
  {
    assert !Has(w.gw.robots, 2);
  }

  // A second robot joins a fleet whose first has moved, and is sent a movement.
  lemma SecondRobotJoins(addrs: set<U16>, w0: World) returns (w: World)
    requires Reachable(addrs, w0) && w0.gw.connected && !w0.gw.faulted && 2 in w0.nodes
    requires |w0.gw.robots| == 1 && w0.gw.robots[0].addr == 1
    ensures Reachable(addrs, w) && w.gw == OnRobotId(w0.gw, 0x1_0000, 2) && w.nodes == w0.nodes && w0.net <= w.net
    ensures w.commands == [] && w.gw.robots == w0.gw.robots + [NewRobot(0x1_0000, 2)]
  {
    assert !Has(w0.gw.robots, 2);
    ReachNext(addrs, w0, RobotAnnounces(2, 0x1_0000));
    w := StepWorld(w0, RobotAnnounces(2, 0x1_0000));
    ReachNext(addrs, w, GatewayHears(IdStatus(2, 0x1_0000)));
    w := StepWorld(w, GatewayHears(IdStatus(2, 0x1_0000)));
    ReachWithout(addrs, w);
    w := w.(commands := []);
  }

  lemma SecondIsSent(addrs: set<U16>, w0: World, r: Robot) returns (w: World, m: Movement)
    requires Reachable(addrs, w0) && w0.gw.connected && !w0.gw.faulted && w0.gw.versionPrev == 2
    requires w0.gw.robots == [r, NewRobot(0x1_0000, 2)] && w0.commands == []
    requires r.addr == 1 && r.name == NewRobot(0, 1).name
    ensures Reachable(addrs, w) && w.gw.connected && !w.gw.faulted && w.nodes == w0.nodes && w0.net <= w.net
    ensures |w.gw.robots| == 2 && w.gw.robots[0] == r && w.gw.robots[1].addr == 2 && Set(2, m) in w.net
  {
    var two := NewRobot(0x1_0000, 2);
    var d := Delta(3, map[two.name := Order(1000, 90)], map[]);
    var e := UpdateDelta(d);
    ReachNext(addrs, w0, CloudEvent(e));
    w := StepWorld(w0, CloudEvent(e));
    DeltaOrders(w0.gw, d, 1);
    SecondIsOrdered(w0.gw, r, d);
    assert MovementConfigure(2) in w.commands;
    var i :| 0 <= i < |w.commands| && w.commands[i] == MovementConfigure(2);
    hide Next, StepWorld;
    HasMovement(w.gw.robots, 2);
    assert w.gw.robots[1].addr == 2;
    m := MovementOnRecord(w.gw.robots, 2).value;
    w := SendAfter(addrs, w, i, MovementConfigure(2));
  }

  lemma NamesDiffer()
    ensures NewRobot(0, 1).name != NewRobot(0x1_0000, 2).name
  {
    hide RobotNames.Name, RobotNames.Lead;
    RobotNames.NamesCollide(0, 0x1_0000);
  }

  lemma SecondIsOrdered(g: Gateway, r: Robot, d: Delta)
    requires g.robots == [r, NewRobot(0x1_0000, 2)] && r.name == NewRobot(0, 1).name
    requires d.moves.Keys == {NewRobot(0x1_0000, 2).name} && d.leds == map[]
    requires g.connected && !g.faulted && g.versionPrev < d.version
    ensures g.out <= Next(g, UpdateDelta(d)).out
    ensures MovementConfigure(2) in Next(g, UpdateDelta(d)).out[|g.out|..]
    ensures Next(g, UpdateDelta(d)).robots[0] == r
  {
    NamesDiffer();
    hide RobotNames.Name;
    var f := (q: Robot) => MoveOut(q, d);
    assert Flat(g.robots, f) == Flat(g.robots[..1], f) + [MovementConfigure(2)];
    var out := Next(g, UpdateDelta(d)).out;
    assert out[|g.out| + |Flat(g.robots[..1], f)|] == MovementConfigure(2);
  }

  // The first robot has moved, and has since stored and acknowledged its next movement.
  lemma MovedAndAcknowledged(addrs: set<U16>) returns (w: World, r: Robot)
    requires addrs == {1, 2}
    ensures Reachable(addrs, w) && w.gw.connected && !w.gw.faulted && w.gw.versionPrev == 2
    ensures w.gw.robots == [r] && r.addr == 1 && r.name == NewRobot(0, 1).name && r.state == Configured
    ensures w.nodes.Keys == addrs && w.nodes[1].config == r.movement
    ensures r.movement == Movement(1000, -90, SPEED) && Telemetry(1, 1) in w.net && w.nodes[1].moves == [FIRST]
  {
    hide Next, StepWorld, RunFleet, Sent;
    w := OneRobotJoins(addrs);
    w := FirstMovementStored(addrs, w, Order(1000, 90));
    w := ReadyBroadcast(addrs, w, Order(1000, 90));
    w := HearsAndReports(addrs, w, 1);
    ReachWithout(addrs, w);
    w := w.(commands := []);
    r := w.gw.robots[0];
    w := MovementStored(addrs, w, r, Order(1000, -90));
    r := w.gw.robots[0];
    w := SecondAck(addrs, w, r);
    r := Acknowledged(r);
  }

  lemma SecondAck(addrs: set<U16>, w0: World, r: Robot) returns (w: World)
    requires Reachable(addrs, w0) && w0.gw.connected && !w0.gw.faulted && w0.gw.robots == [r] && Ack(r.addr) in w0.net
    ensures Reachable(addrs, w) && w.gw.connected && !w.gw.faulted && w.gw.robots == [Acknowledged(r)]
    ensures w.nodes == w0.nodes && w.net == w0.net && w.gw.versionPrev == w0.gw.versionPrev
  {
    assert w0.gw.robots[0].addr == r.addr;
    ReachNext(addrs, w0, GatewayHears(Ack(r.addr)));
    w := StepWorld(w0, GatewayHears(Ack(r.addr)));
  }

  // A run in which a late report prevents the broadcast. The first robot has moved,
  // has stored and acknowledged its next movement, and is CONFIGURED; the report of
  // its first move is still in flight, as is the movement of a second robot. If that
  // is delivered and acknowledged first, CLEAR_TO_MOVE is submitted; if the report
  // comes first, nothing in flight can bring it about any more.
  lemma LateReportPreventsClear()
    ensures exists w, flight, h ::
      && Reachable({1, 2}, w) && w.gw.connected && !w.gw.faulted
      && |w.gw.robots| == 2 && w.gw.robots[0].addr == 1 && w.gw.robots[0].state == Configured
      && 1 in w.nodes && w.nodes[1].config == w.gw.robots[0].movement && w.nodes[1].moves == [FIRST]
      && w.gw.robots[0].movement != FIRST
      && O.InFlight(w, flight) && h in flight && h == GatewayHears(Telemetry(1, 1))
      && O.CanClear(w, flight) && !O.CanClear(StepWorld(w, h), O.Delivered(w, flight, h))
  {
    hide Next, StepWorld, RunFleet, Sent, O.CanClear;
    var addrs: set<U16> := {1, 2};
    var w, r := MovedAndAcknowledged(addrs);
    w := SecondRobotJoins(addrs, w);
    var m: Movement;
    w, m := SecondIsSent(addrs, w, r);
    var late, due := GatewayHears(Telemetry(1, 1)), RobotHears(2, Set(2, m));
    var flight := multiset{late, due};
    assert O.InFlight(w, flight);
    assert O.Live(flight, 2) && !O.Live(flight, 1);
    var ss :| RunFleet(addrs, ss) == w;
    O.ClearsExactlyWhenLive(addrs, ss, flight);
    assert O.SomeLive(w, flight) by { assert O.Live(flight, w.gw.robots[1].addr); }
    O.LateReportPrevents(addrs, ss, flight, 0, 1);
  }

  // Whatever robot announces whatever identity, the gateway can come to handle it.
  lemma AnnouncementArrives(addrs: set<U16>, ss: seq<Step>, a: U16, id: U64)
    requires a in RunFleet(addrs, ss).nodes
    ensures RunFleet(addrs, ss + [RobotAnnounces(a, id)] + [GatewayHears(IdStatus(a, id))]).gw ==
            Next(RunFleet(addrs, ss).gw, Mesh(RobotId(a, id)))
  {
    hide RunFleet, Next, Heard, Sent;
    FleetSnoc(addrs, ss, RobotAnnounces(a, id));
    FleetSnoc(addrs, ss + [RobotAnnounces(a, id)], GatewayHears(IdStatus(a, id)));
  }

  // A robot with a move not yet reported can report it, under the next number, and the
  // gateway can come to handle that.
  lemma ReportArrives(addrs: set<U16>, ss: seq<Step>, a: U16)
    requires var w := RunFleet(addrs, ss); a in w.nodes && w.nodes[a].reports < |w.nodes[a].moves|
    ensures var n := (RunFleet(addrs, ss).nodes[a].reports + 1) % 0x100;
            RunFleet(addrs, ss + [RobotReports(a)] + [GatewayHears(Telemetry(a, n))]).gw ==
            Next(RunFleet(addrs, ss).gw, Mesh(TelemetryReported(a, n)))
    ensures var node := RunFleet(addrs, ss).nodes[a];
            RunFleet(addrs, ss + [RobotReports(a)]).nodes ==
            RunFleet(addrs, ss).nodes[a := node.(reports := node.reports + 1)]
  {
    hide RunFleet, Next, Heard, Sent;
    var n := (RunFleet(addrs, ss).nodes[a].reports + 1) % 0x100;
    FleetSnoc(addrs, ss, RobotReports(a));
    FleetSnoc(addrs, ss + [RobotReports(a)], GatewayHears(Telemetry(a, n)));
  }
}
