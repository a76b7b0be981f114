/**
 The move barrier as a distributed system: the gateway, its mesh thread, any number
 of robots with distinct addresses, and a network that may lose, duplicate, delay
 and reorder whatever is sent.
 */
module Fleet {
  import opened Bytes
  import opened RobotRegistry
  import RobotHistory

  datatype Packet =
    | Set(dst: U16, m: Movement)
    | ReadyAll
    | Ack(src: U16)
    | Telemetry(src: U16, n: Byte)
    | IdStatus(src: U16, id: U64)

  // A robot: the movement stored by its server model, those handed to its motor, and
  // how many of them it has reported as done.
  datatype Node = Node(config: Movement, moves: seq<Movement>, reports: nat)

  datatype World = World(
    gw: Gateway,
    commands: seq<Out>,     // events on their way to the gateway's mesh thread
    net: set<Packet>,       // everything ever sent: any of it may arrive, at any time, any number of times
    nodes: map<U16, Node>)

  datatype Step =
    | CloudEvent(e: Event)
    | GatewayHears(p: Packet)
    | GatewaySends
    | CommandDropped(i: nat)
    | RobotHears(addr: U16, p: Packet)
    | RobotAnnounces(addr: U16, id: U64)
    | RobotReports(addr: U16)

  function Fresh(addrs: set<U16>): World {
    World(RobotRegistry.INIT, [], {}, map a | a in addrs :: Node(Movement(0, 0, 0), [], 0))
  }

  function MovementOnRecord(robots: seq<Robot>, addr: U16): Option<Movement> {
    if robots == [] then None
    else if robots[|robots| - 1].addr == addr then Some(robots[|robots| - 1].movement)
    else MovementOnRecord(robots[..|robots| - 1], addr)
  }

  // The robot module handles an event; what it submits queues up for the mesh thread.
  ghost function GatewayHandles(w: World, e: Event): World {
    var g := Next(w.gw, e);
    w.(gw := g, commands := w.commands + if |w.gw.out| <= |g.out| then g.out[|w.gw.out|..] else [])
  }

  function EventOf(p: Packet): Event {
    match p
    case Ack(src) => Mesh(MovementConfigured(src))
    case Telemetry(src, n) => Mesh(TelemetryReported(src, n))
    case IdStatus(src, id) => Mesh(RobotId(src, id))
    case _ => Other
  }

  // The mesh thread follows the event's pointer when it sends, not when it was queued.
  function Sent(robots: seq<Robot>, c: Out): set<Packet> {
    match c
    case MovementConfigure(addr) =>
      var m := MovementOnRecord(robots, addr);
      if m.Some? then {Set(addr, m.value)} else {}
    case ClearToMove => {ReadyAll}
    case _ => {}
  }

  // A robot stores a movement before it acknowledges it.
  function Heard(addr: U16, node: Node, p: Packet): (Node, set<Packet>) {
    match p
    case Set(dst, m) => if dst == addr then (node.(config := m), {Ack(addr)}) else (node, {})
    case ReadyAll => (node.(moves := node.moves + [node.config]), {})
    case _ => (node, {})
  }

  ghost function StepWorld(w: World, s: Step): World {
    match s
    case CloudEvent(e) => if e.Mesh? then w else GatewayHandles(w, e)
    case GatewayHears(p) => if p in w.net then GatewayHandles(w, EventOf(p)) else w
    case GatewaySends =>
      if w.commands == [] || w.gw.faulted then w
      else w.(commands := w.commands[1..], net := w.net + Sent(w.gw.robots, w.commands[0]))
    case CommandDropped(i) =>
      if i < |w.commands| then w.(commands := w.commands[..i] + w.commands[i + 1..]) else w
    case RobotHears(addr, p) =>
      if addr in w.nodes && p in w.net then
        var (node, sent) := Heard(addr, w.nodes[addr], p);
        w.(nodes := w.nodes[addr := node], net := w.net + sent)
      else w
    case RobotAnnounces(addr, id) => if addr in w.nodes then w.(net := w.net + {IdStatus(addr, id)}) else w
    case RobotReports(addr) =>
      // A motor reports a move at most once, and counts its reports modulo 256.
      if addr in w.nodes && w.nodes[addr].reports < |w.nodes[addr].moves| then
        var node := w.nodes[addr];
        w.(nodes := w.nodes[addr := node.(reports := node.reports + 1)],
           net := w.net + {Telemetry(addr, (node.reports + 1) % 0x100)})
      else w
  }

  ghost function RunFleet(addrs: set<U16>, ss: seq<Step>): World {
    if ss == [] then Fresh(addrs) else StepWorld(RunFleet(addrs, ss[..|ss| - 1]), ss[|ss| - 1])
  }

  // The robot holds a movement that was sent to its own address.
  ghost predicate HoldsSent(w: World, addr: U16) {
    addr in w.nodes && Set(addr, w.nodes[addr].config) in w.net
  }

  ghost predicate NetOk(w: World) {
    && (forall a: U16 | Ack(a) in w.net :: HoldsSent(w, a))
    && (forall a: U16, m | Set(a, m) in w.net :: Has(w.gw.robots, a))
    && (forall a: U16, id | IdStatus(a, id) in w.net :: a in w.nodes)
  }

  ghost predicate CommandsOk(w: World) {
    forall i, a: U16 | 0 <= i < |w.commands| && w.commands[i] == MovementConfigure(a) :: Has(w.gw.robots, a)
  }

  ghost predicate RobotsOk(w: World) {
    forall i | 0 <= i < |w.gw.robots| ::
      && w.gw.robots[i].addr in w.nodes
      && (w.gw.robots[i].state == Configured ==> Ack(w.gw.robots[i].addr) in w.net)
  }

  ghost predicate Inv(w: World) {
    NetOk(w) && CommandsOk(w) && RobotsOk(w)
  }

  lemma {:induction false} HasMovement(robots: seq<Robot>, addr: U16)
    ensures MovementOnRecord(robots, addr).Some? <==> Has(robots, addr)
    ensures MovementOnRecord(robots, addr).Some? ==>
              exists i | 0 <= i < |robots| ::
                robots[i].addr == addr && robots[i].movement == MovementOnRecord(robots, addr).value
  {
    if robots != [] {
      var n := |robots| - 1;
      HasMovement(robots[..n], addr);
      if robots[n].addr != addr && Has(robots[..n], addr) {
        var i :| 0 <= i < n && robots[..n][i].addr == addr
                 && robots[..n][i].movement == MovementOnRecord(robots[..n], addr).value;
        assert robots[i].addr == addr;
      }
    }
  }

  // What handling an event submits for the mesh thread concerns registered robots.
  lemma {:induction false} FlatConfigures(robots: seq<Robot>, f: Robot -> seq<Out>, a: U16)
    requires forall r: Robot :: MovementConfigure(a) in f(r) ==> r.addr == a
    requires MovementConfigure(a) in Flat(robots, f)
    ensures Has(robots, a)
  {
    var n := |robots| - 1;
    if MovementConfigure(a) in f(robots[n]) {
      assert robots[n].addr == a;
    } else {
      FlatConfigures(robots[..n], f, a);
      var i :| 0 <= i < n && robots[..n][i].addr == a;
      assert robots[i].addr == a;
    }
  }

  lemma {:induction false} FlatNoConfigure(robots: seq<Robot>, f: Robot -> seq<Out>, a: U16)
    requires forall r: Robot :: MovementConfigure(a) !in f(r)
    ensures MovementConfigure(a) !in Flat(robots, f)
  {
    if robots != [] {
      FlatNoConfigure(robots[..|robots| - 1], f, a);
    }
  }

  lemma DeltaConfigures(g: Gateway, d: Delta, a: U16)
    requires g.versionPrev < d.version && MovementConfigure(a) in OnDelta(g, d).out[|g.out|..]
    ensures Has(g.robots, a)
  {
    var moved := Each(g.robots, (r: Robot) => Ordered(r, d));
    FlatNoConfigure(moved, (r: Robot) => LedOut(r, d), a);
    FlatConfigures(g.robots, (r: Robot) => MoveOut(r, d), a);
  }

  lemma AckConfigures(g: Gateway, addr: U16, a: U16)
    requires Has(g.robots, addr)
    ensures MovementConfigure(a) !in OnAck(g, addr).out[|g.out|..]
  {
    FlatNoConfigure(g.robots, (r: Robot) => if r.addr == addr then [ReportMovement(r.name, r.movement)] else [], a);
  }

  lemma TelemetryConfigures(g: Gateway, addr: U16, n: Byte, a: U16)
    requires Has(g.robots, addr)
    ensures MovementConfigure(a) !in OnTelemetry(g, addr, n).out[|g.out|..]
  {
    FlatNoConfigure(OnTelemetry(g, addr, n).robots, (r: Robot) => [ReportRevolutions(r.name, r.revolutions)], a);
  }

  lemma NextConfigures(g: Gateway, e: Event, a: U16)
    requires |g.out| <= |Next(g, e).out| && MovementConfigure(a) in Next(g, e).out[|g.out|..]
    ensures Has(g.robots, a)
  {
    hide Flat, ReportMove;
    if g.connected && e.UpdateDelta? && g.versionPrev < e.d.version {
      DeltaConfigures(g, e.d, a);
    } else if !g.connected && e.CloudConnected? {
      FlatNoConfigure(g.robots, ReportRobot, a);
    } else if g.connected && e.Mesh? && e.m.MovementConfigured? && Has(g.robots, e.m.addr) {
      AckConfigures(g, e.m.addr, a);
    } else if g.connected && e.Mesh? && e.m.TelemetryReported? && Has(g.robots, e.m.addr) {
      TelemetryConfigures(g, e.m.addr, e.m.revolutions, a);
    }
  }

  // What one event does to addresses and states.
  lemma StatesNext(g: Gateway, e: Event, i: nat)
    requires i < |Next(g, e).robots|
    ensures var q := Next(g, e).robots[i];
            if i < |g.robots| then
              && q.addr == g.robots[i].addr
              && (q.state == Configured ==> g.robots[i].state == Configured || IsAck(e, q.addr))
            else
              e.Mesh? && e.m.RobotId? && e.m.addr == q.addr && q.state == Ready
  {}

  lemma HasKept(g: Gateway, e: Event, a: U16)
    requires Has(g.robots, a)
    ensures Has(Next(g, e).robots, a)
  {
    RobotHistory.ExtendsNext(g, e);
    var i :| 0 <= i < |g.robots| && g.robots[i].addr == a;
    assert Next(g, e).robots[i].addr == a;
  }

  lemma GatewayKeepsInv(w: World, e: Event)
    requires Inv(w)
    requires e.Mesh? && e.m.RobotId? ==> e.m.addr in w.nodes
    requires e.Mesh? && e.m.MovementConfigured? ==> Ack(e.m.addr) in w.net
    ensures Inv(GatewayHandles(w, e))
  {
    var v := GatewayHandles(w, e);
    hide Next;
    forall a: U16 | Has(w.gw.robots, a) ensures Has(v.gw.robots, a) {
      HasKept(w.gw, e, a);
    }
    forall i, a: U16 | 0 <= i < |v.commands| && v.commands[i] == MovementConfigure(a)
      ensures Has(v.gw.robots, a)
    {
      if i >= |w.commands| {
        assert v.commands[i] in v.gw.out[|w.gw.out|..];
        NextConfigures(w.gw, e, a);
      }
    }
    forall i | 0 <= i < |v.gw.robots|
      ensures v.gw.robots[i].addr in v.nodes
      ensures v.gw.robots[i].state == Configured ==> Ack(v.gw.robots[i].addr) in v.net
    {
      StatesNext(w.gw, e, i);
    }
  }

  lemma SendKeepsInv(w: World)
    requires Inv(w) && w.commands != []
    ensures Inv(w.(commands := w.commands[1..], net := w.net + Sent(w.gw.robots, w.commands[0])))
  {}

  lemma HearKeepsInv(w: World, addr: U16, p: Packet)
    requires Inv(w) && addr in w.nodes && p in w.net
    ensures Inv(StepWorld(w, RobotHears(addr, p)))
  {}

  lemma StepKeepsInv(w: World, s: Step)
    requires Inv(w)
    ensures Inv(StepWorld(w, s))
  {
    match s
    case CloudEvent(e) =>
      if !e.Mesh? { GatewayKeepsInv(w, e); }
    case GatewayHears(p) =>
      if p in w.net { GatewayKeepsInv(w, EventOf(p)); }
    case GatewaySends =>
      if w.commands != [] && !w.gw.faulted { SendKeepsInv(w); }
    case CommandDropped(i) =>
    case RobotHears(addr, p) =>
      if addr in w.nodes && p in w.net { HearKeepsInv(w, addr, p); }
    case RobotAnnounces(addr, id) =>
    case RobotReports(addr) =>
  }

  lemma {:induction false} FleetInv(addrs: set<U16>, ss: seq<Step>)
    ensures Inv(RunFleet(addrs, ss))
  {
    if ss != [] {
      FleetInv(addrs, ss[..|ss| - 1]);
      StepKeepsInv(RunFleet(addrs, ss[..|ss| - 1]), ss[|ss| - 1]);
    }
  }

  lemma FleetSnoc(addrs: set<U16>, ss: seq<Step>, s: Step)
    ensures RunFleet(addrs, ss + [s]) == StepWorld(RunFleet(addrs, ss), s)
  {}

  // The step submits CLEAR_TO_MOVE.
  ghost predicate Clears(w: World, s: Step) {
    var v := StepWorld(w, s);
    |w.gw.out| <= |v.gw.out| && ClearToMove in v.gw.out[|w.gw.out|..]
  }

  // Everything sent stays in the network, and a robot that has acknowledged once
  // holds a movement sent to it ever after.
  lemma {:induction false} NetGrows(addrs: set<U16>, ss: seq<Step>, more: seq<Step>)
    ensures RunFleet(addrs, ss).net <= RunFleet(addrs, ss + more).net
  {
    if more == [] {
      assert ss + more == ss;
    } else {
      var n := |more| - 1;
      assert ss + more == (ss + more[..n]) + [more[n]];
      NetGrows(addrs, ss, more[..n]);
      FleetSnoc(addrs, ss + more[..n], more[n]);
      NetStep(RunFleet(addrs, ss + more[..n]), more[n]);
    }
  }

  lemma NetStep(w: World, s: Step)
    ensures w.net <= StepWorld(w, s).net
  {}

  lemma ClearMeansAcked(w: World, s: Step)
    requires Inv(w) && Clears(w, s)
    ensures forall i | 0 <= i < |StepWorld(w, s).gw.robots| ::
              Ack(StepWorld(w, s).gw.robots[i].addr) in StepWorld(w, s).net
  {
    var v := StepWorld(w, s);
    StepKeepsInv(w, s);
    var e := if s.CloudEvent? then s.e else if s.GatewayHears? then EventOf(s.p) else Other;
    hide Next;
    assert v.gw == Next(w.gw, e);
    ClearOnlyConfigured(w.gw, e);
  }

  lemma ClearOnlyConfigured(g: Gateway, e: Event)
    requires |g.out| <= |Next(g, e).out| && ClearToMove in Next(g, e).out[|g.out|..]
    ensures AllIn(Next(g, e).robots, Configured)
  {
    if !Next(g, e).faulted {
      RobotHistory.ClearNext(g, e);
    }
  }

  // Barrier safety. Whatever was lost, duplicated or reordered: when the gateway
  // submits CLEAR_TO_MOVE, and at every moment after, every robot registered then
  // holds a movement the gateway had sent to that robot's address.
  lemma BarrierSafety(addrs: set<U16>, ss: seq<Step>, s: Step, more: seq<Step>, i: nat)
    requires Clears(RunFleet(addrs, ss), s)
    requires i < |RunFleet(addrs, ss + [s]).gw.robots|
    ensures HoldsSent(RunFleet(addrs, ss + [s] + more), RunFleet(addrs, ss + [s]).gw.robots[i].addr)
  {
    FleetInv(addrs, ss);
    FleetSnoc(addrs, ss, s);
    ClearMeansAcked(RunFleet(addrs, ss), s);
    NetGrows(addrs, ss + [s], more);
    FleetInv(addrs, ss + [s] + more);
  }

  // So the movement such a robot hands to its motor on the broadcast is one that
  // was sent to it.
  lemma ReadyMovesWhatWasSent(addrs: set<U16>, ss: seq<Step>, s: Step, more: seq<Step>, i: nat)
    requires Clears(RunFleet(addrs, ss), s)
    requires i < |RunFleet(addrs, ss + [s]).gw.robots|
    requires ReadyAll in RunFleet(addrs, ss + [s] + more).net
    ensures var w := RunFleet(addrs, ss + [s] + more);
            var a := RunFleet(addrs, ss + [s]).gw.robots[i].addr;
            var v := StepWorld(w, RobotHears(a, ReadyAll));
            && a in w.nodes
            && |v.nodes[a].moves| == |w.nodes[a].moves| + 1
            && Set(a, v.nodes[a].moves[|w.nodes[a].moves|]) in w.net
  {
    BarrierSafety(addrs, ss, s, more, i);
  }

  // ---- The gateway inside the system runs as the robot module does on its own.

  // The events the gateway has handled in a run.
  ghost function Handled(addrs: set<U16>, ss: seq<Step>): seq<Event> {
    if ss == [] then []
    else
      var before, s := Handled(addrs, ss[..|ss| - 1]), ss[|ss| - 1];
      if s.CloudEvent? && !s.e.Mesh? then before + [s.e]
      else if s.GatewayHears? && s.p in RunFleet(addrs, ss[..|ss| - 1]).net then before + [EventOf(s.p)]
      else before
  }

  lemma {:induction false} GatewayIsModuleRun(addrs: set<U16>, ss: seq<Step>)
    ensures RunFleet(addrs, ss).gw == Run(Handled(addrs, ss))
  {
    if ss != [] {
      var before, s := ss[..|ss| - 1], ss[|ss| - 1];
      GatewayIsModuleRun(addrs, before);
      if s.CloudEvent? {
        RobotHistory.RunSnoc(Handled(addrs, before), s.e);
      } else if s.GatewayHears? {
        RobotHistory.RunSnoc(Handled(addrs, before), EventOf(s.p));
      }
    }
  }

  // In the system an acknowledgement always finds its robot: the only event that
  // can fault the gateway is telemetry from an address it never registered.
  lemma OnlyStrayTelemetryFaults(addrs: set<U16>, ss: seq<Step>, s: Step)
    requires !RunFleet(addrs, ss).gw.faulted
    ensures RunFleet(addrs, ss + [s]).gw.faulted <==>
            && RunFleet(addrs, ss).gw.connected && s.GatewayHears? && s.p.Telemetry?
            && s.p in RunFleet(addrs, ss).net && !Has(RunFleet(addrs, ss).gw.robots, s.p.src)
  {
    FleetInv(addrs, ss);
    FleetSnoc(addrs, ss, s);
    var w := RunFleet(addrs, ss);
    if s.GatewayHears? && s.p.Ack? && s.p in w.net {
      assert HoldsSent(w, s.p.src);
    }
  }

  // Whatever was ever sent to an address was, at some moment of the run, the
  // movement the gateway had on record for the robot registered there.
  lemma {:induction false} SentWasOnRecord(addrs: set<U16>, ss: seq<Step>, a: U16, m: Movement)
    requires Set(a, m) in RunFleet(addrs, ss).net
    ensures exists k | 0 <= k <= |ss| ::
              exists i | 0 <= i < |RunFleet(addrs, ss[..k]).gw.robots| ::
                && RunFleet(addrs, ss[..k]).gw.robots[i].addr == a
                && RunFleet(addrs, ss[..k]).gw.robots[i].movement == m
  {
    if ss != [] {
      var n := |ss| - 1;
      var w := RunFleet(addrs, ss[..n]);
      if Set(a, m) in w.net {
        SentWasOnRecord(addrs, ss[..n], a, m);
        var k :| 0 <= k <= n && exists i | 0 <= i < |RunFleet(addrs, ss[..n][..k]).gw.robots| ::
                && RunFleet(addrs, ss[..n][..k]).gw.robots[i].addr == a
                && RunFleet(addrs, ss[..n][..k]).gw.robots[i].movement == m;
        assert ss[..n][..k] == ss[..k];
      } else {
        HasMovement(w.gw.robots, a);
        assert ss[n].GatewaySends?;
      }
    }
  }

  predicate Deliveries(hs: seq<Step>) {
    forall k | 0 <= k < |hs| :: hs[k].RobotHears?
  }

  lemma {:induction false} DeliveriesSetNothing(addrs: set<U16>, ss: seq<Step>, hs: seq<Step>, a: U16, m: Movement)
    requires Deliveries(hs) && Set(a, m) in RunFleet(addrs, ss + hs).net
    ensures Set(a, m) in RunFleet(addrs, ss).net
  {
    if hs == [] {
      assert ss + hs == ss;
    } else {
      var n := |hs| - 1;
      assert ss + hs == (ss + hs[..n]) + [hs[n]];
      FleetSnoc(addrs, ss + hs[..n], hs[n]);
      DeliveriesSetNothing(addrs, ss, hs[..n], a, m);
    }
  }

  // When the barrier can be trusted with one particular movement: an acknowledged
  // robot is bound to hold it, whatever the network delivers next, exactly when
  // no other movement was ever sent to its address.
  lemma HeldForCertain(addrs: set<U16>, ss: seq<Step>, a: U16, wanted: Movement)
    requires Ack(a) in RunFleet(addrs, ss).net
    ensures (forall hs | Deliveries(hs) ::
               a in RunFleet(addrs, ss + hs).nodes && RunFleet(addrs, ss + hs).nodes[a].config == wanted)
            <==> forall m | Set(a, m) in RunFleet(addrs, ss).net :: m == wanted
  {
    var w := RunFleet(addrs, ss);
    FleetInv(addrs, ss);
    assert HoldsSent(w, a);
    forall m | Set(a, m) in w.net
      ensures a in RunFleet(addrs, ss + [RobotHears(a, Set(a, m))]).nodes
      ensures RunFleet(addrs, ss + [RobotHears(a, Set(a, m))]).nodes[a].config == m
    {
      FleetSnoc(addrs, ss, RobotHears(a, Set(a, m)));
    }
    forall m | Set(a, m) in w.net ensures Deliveries([RobotHears(a, Set(a, m))]) {}
    forall hs | Deliveries(hs) ensures HoldsSent(RunFleet(addrs, ss + hs), a)
        && Set(a, RunFleet(addrs, ss + hs).nodes[a].config) in w.net
    {
      NetGrows(addrs, ss, hs);
      FleetInv(addrs, ss + hs);
      assert HoldsSent(RunFleet(addrs, ss + hs), a);
      DeliveriesSetNothing(addrs, ss, hs, a, RunFleet(addrs, ss + hs).nodes[a].config);
    }
  }

  // The broadcast and the movement on record: when CLEAR_TO_MOVE is submitted, a
  // robot registered then is bound to set off on the movement the gateway has on
  // record for it, whatever is delivered first, exactly when no other movement was
  // ever sent to its address.
  lemma ClearedMovementIsCertain(addrs: set<U16>, ss: seq<Step>, s: Step, i: nat)
    requires Clears(RunFleet(addrs, ss), s)
    requires i < |RunFleet(addrs, ss + [s]).gw.robots|
    ensures var all := ss + [s];
            var r := RunFleet(addrs, all).gw.robots[i];
            (forall hs | Deliveries(hs) ::
               var v := RunFleet(addrs, all + hs);
               r.addr in v.nodes && v.nodes[r.addr].config == r.movement)
            <==> forall m | Set(r.addr, m) in RunFleet(addrs, all).net :: m == r.movement
  {
    var r := RunFleet(addrs, ss + [s]).gw.robots[i];
    FleetInv(addrs, ss);
    FleetSnoc(addrs, ss, s);
    ClearMeansAcked(RunFleet(addrs, ss), s);
    hide RunFleet;
    HeldForCertain(addrs, ss + [s], r.addr, r.movement);
  }

  // Why the barrier does not promise the newest movement. A robot still CONFIGURED
  // from an earlier acknowledgement stays so when a newer delta changes its movement:
  // with the others CONFIGURED, a late or repeated acknowledgement then clears, and
  // the robot holds the movement ordered exactly if that is what it had stored before.
  lemma StaleMovementCanBeCleared(w: World, d: Delta, k: nat)
    requires Inv(w) && !w.gw.faulted && w.gw.connected && k < |w.gw.robots|
    requires forall i | 0 <= i < |w.gw.robots| && i != k :: w.gw.robots[i].state == Configured
    requires Ack(w.gw.robots[k].addr) in w.net && w.gw.versionPrev < d.version
    requires w.gw.robots[k].name in d.moves
    ensures var r := w.gw.robots[k];
            var v := StepWorld(w, CloudEvent(UpdateDelta(d)));
            var u := StepWorld(v, GatewayHears(Ack(r.addr)));
            && Clears(v, GatewayHears(Ack(r.addr))) && k < |u.gw.robots| && u.gw.robots[k].addr == r.addr
            && (u.nodes[r.addr].config == u.gw.robots[k].movement <==>
                w.nodes[r.addr].config == Movement(d.moves[r.name].time, d.moves[r.name].angle, SPEED))
  {
    var r := w.gw.robots[k];
    var v := StepWorld(w, CloudEvent(UpdateDelta(d)));
    DeltaOrders(w.gw, d, k);
    assert Has(v.gw.robots, r.addr);
    RobotHistory.ClearAck(v.gw, r.addr);
    var u := StepWorld(v, GatewayHears(Ack(r.addr)));
    assert u.gw == OnAck(v.gw, r.addr);
    hide Flat, OnDelta;
    assert u.gw.robots[k] == Acknowledged(v.gw.robots[k]);
  }

  lemma DeltaOrders(g: Gateway, d: Delta, k: nat)
    requires !g.faulted && g.connected && g.versionPrev < d.version && k < |g.robots| && g.robots[k].name in d.moves
    ensures var h := Next(g, UpdateDelta(d));
            && !h.faulted && h.connected && |h.robots| == |g.robots|
            && (forall i | 0 <= i < |g.robots| ::
                  h.robots[i].addr == g.robots[i].addr && h.robots[i].state == g.robots[i].state)
            && h.robots[k].movement == Movement(d.moves[g.robots[k].name].time, d.moves[g.robots[k].name].angle, SPEED)
  {}

  // ---- What makes a stray report possible.

  // Robots move, report and fault the gateway only once READY has been broadcast,
  // and that only once CLEAR_TO_MOVE was submitted.
  ghost predicate ReadyFirst(w: World) {
    && (ClearToMove in w.commands || ReadyAll in w.net ==> ClearToMove in w.gw.out)
    && (forall a | a in w.nodes && w.nodes[a].moves != [] :: ReadyAll in w.net)
    && (forall a: U16, n | Telemetry(a, n) in w.net :: ReadyAll in w.net)
    && (w.gw.faulted ==> ReadyAll in w.net)
  }

  lemma StepKeepsReadyFirst(w: World, s: Step)
    requires Inv(w) && ReadyFirst(w)
    ensures ReadyFirst(StepWorld(w, s))
  {}

  // The gateway cannot fault before it has submitted CLEAR_TO_MOVE and READY was
  // broadcast.
  lemma {:induction false} FaultNeedsReady(addrs: set<U16>, ss: seq<Step>)
    ensures ReadyFirst(RunFleet(addrs, ss))
    ensures RunFleet(addrs, ss).gw.faulted ==>
              ReadyAll in RunFleet(addrs, ss).net && ClearToMove in RunFleet(addrs, ss).gw.out
  {
    if ss != [] {
      FaultNeedsReady(addrs, ss[..|ss| - 1]);
      FleetInv(addrs, ss[..|ss| - 1]);
      StepKeepsReadyFirst(RunFleet(addrs, ss[..|ss| - 1]), ss[|ss| - 1]);
    }
  }
}
