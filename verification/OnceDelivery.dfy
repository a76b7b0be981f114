/**
 The barrier over a network that delivers what is still in flight at most once: what
 can bring the broadcast about, and the late report that prevents it.
 */
module OnceDelivery {
  import opened Bytes
  import opened RobotRegistry
  import opened Fleet
  import FleetLiveness
  import RobotHistory

  // What is in flight is a multiset of deliveries still to come, each of a packet sent.
  ghost predicate InFlight(w: World, flight: multiset<Step>) {
    forall h | h in flight ::
      && (h.GatewayHears? || h.RobotHears?) && h.p in w.net
      && (h.RobotHears? ==> h.addr in w.nodes)
  }

  // A robot answers a movement addressed to it.
  function Replies(w: World, h: Step): multiset<Step> {
    if h.RobotHears? && h.addr in w.nodes && Ack(h.addr) in Heard(h.addr, w.nodes[h.addr], h.p).1
    then multiset{GatewayHears(Ack(h.addr))} else multiset{}
  }

  function Delivered(w: World, flight: multiset<Step>, h: Step): multiset<Step> {
    flight - multiset{h} + Replies(w, h)
  }

  // The deliveries can happen in this order, each of them once.
  ghost predicate OnceEach(w: World, flight: multiset<Step>, hs: seq<Step>)
    decreases |hs|
  {
    hs == [] || (hs[0] in flight && OnceEach(StepWorld(w, hs[0]), Delivered(w, flight, hs[0]), hs[1..]))
  }

  ghost function WorldAfter(w: World, hs: seq<Step>): World
    decreases |hs|
  {
    if hs == [] then w else WorldAfter(StepWorld(w, hs[0]), hs[1..])
  }

  ghost predicate CanClear(w: World, flight: multiset<Step>) {
    exists hs, h :: OnceEach(w, flight, hs + [h]) && Clears(WorldAfter(w, hs), h)
  }

  // A movement for the address, or its acknowledgement, is still to be delivered.
  ghost predicate Live(flight: multiset<Step>, a: U16) {
    GatewayHears(Ack(a)) in flight || exists m :: RobotHears(a, Set(a, m)) in flight
  }

  ghost predicate Hopeful(w: World, flight: multiset<Step>) {
    forall i | 0 <= i < |w.gw.robots| ::
      w.gw.robots[i].state == Configured || Live(flight, w.gw.robots[i].addr)
  }

  ghost predicate SomeLive(w: World, flight: multiset<Step>) {
    exists i :: 0 <= i < |w.gw.robots| && Live(flight, w.gw.robots[i].addr)
  }

  // ---- One delivery.

  lemma FlightKept(w: World, flight: multiset<Step>, h: Step)
    requires InFlight(w, flight) && h in flight
    ensures InFlight(StepWorld(w, h), Delivered(w, flight, h))
  {
    NetStep(w, h);
  }

  lemma LiveBefore(w: World, flight: multiset<Step>, h: Step, a: U16)
    requires InFlight(w, flight) && h in flight && Live(Delivered(w, flight, h), a)
    ensures Live(flight, a)
  {
    var after := Delivered(w, flight, h);
    if GatewayHears(Ack(a)) in after {
      if GatewayHears(Ack(a)) !in flight {
        assert h.RobotHears? && h.addr == a && h.p.Set? && h.p.dst == a;
        assert RobotHears(a, Set(a, h.p.m)) in flight;
      }
    } else {
      var m :| RobotHears(a, Set(a, m)) in after;
      assert RobotHears(a, Set(a, m)) in flight;
    }
  }

  lemma LiveIsRegistered(w: World, flight: multiset<Step>, a: U16)
    requires Inv(w) && InFlight(w, flight) && Live(flight, a)
    ensures Has(w.gw.robots, a)
  {
    if GatewayHears(Ack(a)) in flight {
      assert HoldsSent(w, a);
    } else {
      var m :| RobotHears(a, Set(a, m)) in flight;
      assert Set(a, m) in w.net;
    }
  }

  // A robot is CONFIGURED after a delivery only if it was, or if its own
  // acknowledgement was delivered.
  lemma ConfiguredBefore(w: World, h: Step, i: nat)
    requires (h.GatewayHears? || h.RobotHears?) && i < |w.gw.robots|
    requires i < |StepWorld(w, h).gw.robots| && StepWorld(w, h).gw.robots[i].state == Configured
    ensures w.gw.robots[i].state == Configured || h == GatewayHears(Ack(w.gw.robots[i].addr))
  {
    if h.GatewayHears? && h.p in w.net {
      StatesNext(w.gw, EventOf(h.p), i);
    }
    hide Next;
  }

  lemma HopefulBefore(w: World, flight: multiset<Step>, h: Step)
    requires Inv(w) && InFlight(w, flight) && h in flight
    requires Hopeful(StepWorld(w, h), Delivered(w, flight, h))
    ensures Hopeful(w, flight)
  {
    var v := StepWorld(w, h);
    FleetLiveness.NetworkStep(w, h, 0, Movement(0, 0, 0));
    hide StepWorld, Delivered, Live;
    forall i | 0 <= i < |w.gw.robots| && w.gw.robots[i].state != Configured
      ensures Live(flight, w.gw.robots[i].addr)
    {
      var a := w.gw.robots[i].addr;
      assert v.gw.robots[i].addr == a;
      if v.gw.robots[i].state == Configured {
        ConfiguredBefore(w, h, i);
        AckIsLive(flight, a);
      } else {
        LiveBefore(w, flight, h, a);
      }
    }
  }

  lemma AckIsLive(flight: multiset<Step>, a: U16)
    requires GatewayHears(Ack(a)) in flight
    ensures Live(flight, a)
  {}

  // ---- What a broadcast takes.

  lemma {:induction false} ClearNeedsLive(w: World, flight: multiset<Step>, hs: seq<Step>, h: Step)
    requires Inv(w) && InFlight(w, flight)
    requires OnceEach(w, flight, hs + [h]) && Clears(WorldAfter(w, hs), h)
    ensures Hopeful(w, flight) && SomeLive(w, flight)
    decreases |hs|
  {
    if hs == [] {
      assert (hs + [h])[0] == h && WorldAfter(w, hs) == w;
      LastDelivery(w, flight, h);
    } else {
      var g := hs[0];
      assert (hs + [h])[0] == g && (hs + [h])[1..] == hs[1..] + [h];
      var v, after := StepWorld(w, g), Delivered(w, flight, g);
      FlightKept(w, flight, g);
      StepKeepsInv(w, g);
      ClearNeedsLive(v, after, hs[1..], h);
      hide StepWorld, Delivered, OnceEach, WorldAfter, Clears;
      HopefulBefore(w, flight, g);
      var i :| 0 <= i < |v.gw.robots| && Live(after, v.gw.robots[i].addr);
      LiveBefore(w, flight, g, v.gw.robots[i].addr);
      LiveIsRegistered(w, flight, v.gw.robots[i].addr);
    }
  }

  lemma LastDelivery(w: World, flight: multiset<Step>, h: Step)
    requires Inv(w) && InFlight(w, flight) && h in flight && Clears(w, h)
    ensures Hopeful(w, flight) && SomeLive(w, flight)
  {
    var v := StepWorld(w, h);
    FleetLiveness.ClearIsAck(w, h);
    var a := h.p.src;
    AckIsLive(flight, a);
    LiveIsRegistered(w, flight, a);
    assert v.gw == Next(w.gw, EventOf(h.p));
    ClearOnlyConfigured(w.gw, EventOf(h.p));
    FleetLiveness.NetworkStep(w, h, 0, Movement(0, 0, 0));
    hide StepWorld, Next, Live;
    forall i | 0 <= i < |w.gw.robots| && w.gw.robots[i].state != Configured
      ensures Live(flight, w.gw.robots[i].addr)
    {
      ConfiguredBefore(w, h, i);
    }
  }

  // ---- What is enough for one.

  lemma ClearLater(w: World, flight: multiset<Step>, h: Step)
    requires h in flight && CanClear(StepWorld(w, h), Delivered(w, flight, h))
    ensures CanClear(w, flight)
  {
    hide StepWorld, Delivered, Clears;
    var v, after := StepWorld(w, h), Delivered(w, flight, h);
    var hs, last :| OnceEach(v, after, hs + [last]) && Clears(WorldAfter(v, hs), last);
    assert ([h] + hs)[1..] == hs;
    assert ([h] + hs) + [last] == [h] + (hs + [last]);
    assert ([h] + (hs + [last]))[1..] == hs + [last];
    assert WorldAfter(w, [h] + hs) == WorldAfter(v, hs);
    assert OnceEach(w, flight, ([h] + hs) + [last]);
  }

  lemma ClearNow(w: World, flight: multiset<Step>, h: Step)
    requires h in flight && Clears(w, h)
    ensures CanClear(w, flight)
  {
    hide StepWorld, Delivered, Clears;
    assert ([] + [h])[1..] == [];
    assert OnceEach(w, flight, [] + [h]) && WorldAfter(w, []) == w;
  }

  ghost predicate Up(w: World, flight: multiset<Step>) {
    Inv(w) && InFlight(w, flight) && w.gw.connected && !w.gw.faulted && Distinct(w.gw.robots)
  }

  lemma SetDelivered(w: World, flight: multiset<Step>, a: U16, m: Movement)
    requires InFlight(w, flight) && RobotHears(a, Set(a, m)) in flight
    ensures var h := RobotHears(a, Set(a, m));
            StepWorld(w, h).gw == w.gw && GatewayHears(Ack(a)) in Delivered(w, flight, h)
  {}

  // If the acknowledgement is not in flight yet, the movement that causes it is.
  lemma AckOnItsWay(w: World, flight: multiset<Step>, a: U16) returns (v: World, after: multiset<Step>)
    requires Up(w, flight) && Live(flight, a)
    ensures Up(v, after) && v.gw == w.gw && GatewayHears(Ack(a)) in after
    ensures forall b | b != a && Live(flight, b) :: Live(after, b)
    ensures CanClear(v, after) ==> CanClear(w, flight)
  {
    if GatewayHears(Ack(a)) in flight {
      v, after := w, flight;
    } else {
      var m :| RobotHears(a, Set(a, m)) in flight;
      var h := RobotHears(a, Set(a, m));
      v, after := StepWorld(w, h), Delivered(w, flight, h);
      SetDelivered(w, flight, a, m);
      FlightKept(w, flight, h);
      StepKeepsInv(w, h);
      hide StepWorld, Delivered, Inv, InFlight, Live, CanClear;
      forall b | b != a && Live(flight, b) ensures Live(after, b) {
        OthersStayLive(w, flight, h, a, b);
      }
      if CanClear(v, after) {
        ClearLater(w, flight, h);
      }
    }
  }

  lemma OthersStayLive(w: World, flight: multiset<Step>, h: Step, a: U16, b: U16)
    requires h == GatewayHears(Ack(a)) || (h.RobotHears? && h.addr == a)
    requires a != b && Live(flight, b)
    ensures Live(Delivered(w, flight, h), b)
  {
    var after := Delivered(w, flight, h);
    if GatewayHears(Ack(b)) in flight {
      assert GatewayHears(Ack(b)) in after;
    } else {
      var m :| RobotHears(b, Set(b, m)) in flight;
      assert RobotHears(b, Set(b, m)) in after;
    }
  }

  // The acknowledgement of robot i delivered.
  lemma AckDelivered(w: World, flight: multiset<Step>, i: nat) returns (v: World, after: multiset<Step>)
    requires Up(w, flight) && i < |w.gw.robots| && GatewayHears(Ack(w.gw.robots[i].addr)) in flight
    ensures Up(v, after) && |v.gw.robots| == |w.gw.robots| && v.gw.robots[i].state == Configured
    ensures forall j | 0 <= j < |w.gw.robots| && j != i :: v.gw.robots[j] == w.gw.robots[j]
    ensures v.gw.robots[i].addr == w.gw.robots[i].addr
    ensures forall b | b != w.gw.robots[i].addr && Live(flight, b) :: Live(after, b)
    ensures CanClear(v, after) ==> CanClear(w, flight)
    ensures AllIn(v.gw.robots, Configured) ==> CanClear(w, flight)
  {
    var a := w.gw.robots[i].addr;
    var h := GatewayHears(Ack(a));
    v, after := StepWorld(w, h), Delivered(w, flight, h);
    AckConfigures(w, i);
    FlightKept(w, flight, h);
    StepKeepsInv(w, h);
    hide StepWorld, Delivered, Inv, InFlight, Live, CanClear, Clears;
    forall b | b != a && Live(flight, b) ensures Live(after, b) {
      OthersStayLive(w, flight, h, a, b);
    }
    if CanClear(v, after) {
      ClearLater(w, flight, h);
    }
    if AllIn(v.gw.robots, Configured) {
      ClearNow(w, flight, h);
    }
  }

  lemma AckConfigures(w: World, i: nat)
    requires w.gw.connected && !w.gw.faulted && Distinct(w.gw.robots) && i < |w.gw.robots|
    requires Ack(w.gw.robots[i].addr) in w.net
    ensures var h := GatewayHears(Ack(w.gw.robots[i].addr));
            var v := StepWorld(w, h);
            && v.gw.connected && !v.gw.faulted && Distinct(v.gw.robots)
            && v.gw.robots == w.gw.robots[i := Acknowledged(w.gw.robots[i])]
            && (Clears(w, h) <==> AllIn(v.gw.robots, Configured))
  {
    var a := w.gw.robots[i].addr;
    var v := StepWorld(w, GatewayHears(Ack(a)));
    assert Has(w.gw.robots, a);
    RobotHistory.ClearAck(w.gw, a);
    assert v.gw == OnAck(w.gw, a);
    hide ReportMove;
    assert forall j | 0 <= j < |w.gw.robots| :: j != i ==> w.gw.robots[j].addr != a;
  }

  // Robots up to n, but not k, are CONFIGURED; k comes last.
  lemma {:induction false} HopefulCanClear(w: World, flight: multiset<Step>, k: nat, n: nat)
    requires Up(w, flight) && k < |w.gw.robots| && n <= |w.gw.robots|
    requires Hopeful(w, flight) && Live(flight, w.gw.robots[k].addr)
    requires forall j | 0 <= j < n && j != k :: w.gw.robots[j].state == Configured
    ensures CanClear(w, flight)
    decreases |w.gw.robots| - n
  {
    hide Live, CanClear, Inv, InFlight;
    if n == |w.gw.robots| {
      var v, after := AckOnItsWay(w, flight, w.gw.robots[k].addr);
      var u, rest := AckDelivered(v, after, k);
    } else if n == k || w.gw.robots[n].state == Configured {
      HopefulCanClear(w, flight, k, n + 1);
    } else {
      var v, after := AckOnItsWay(w, flight, w.gw.robots[n].addr);
      var u, rest := AckDelivered(v, after, n);
      HopefulCanClear(u, rest, k, n + 1);
    }
  }

  lemma ReachedUp(addrs: set<U16>, ss: seq<Step>, flight: multiset<Step>)
    requires var w := RunFleet(addrs, ss); w.gw.connected && !w.gw.faulted && InFlight(w, flight)
    ensures Up(RunFleet(addrs, ss), flight)
  {
    FleetInv(addrs, ss);
    GatewayIsModuleRun(addrs, ss);
    RobotHistory.BarrierHistory(Handled(addrs, ss));
  }

  // Liveness, each packet delivered at most once. From any moment of a run, connected
  // and without fault, and whatever of what was sent is still in flight, deliveries
  // can bring about CLEAR_TO_MOVE exactly when every registered robot is CONFIGURED or
  // has a movement or an acknowledgement in flight, and some robot has one.
  lemma ClearsExactlyWhenLive(addrs: set<U16>, ss: seq<Step>, flight: multiset<Step>)
    requires RunFleet(addrs, ss).gw.connected && !RunFleet(addrs, ss).gw.faulted
    requires InFlight(RunFleet(addrs, ss), flight)
    ensures CanClear(RunFleet(addrs, ss), flight) <==>
            Hopeful(RunFleet(addrs, ss), flight) && SomeLive(RunFleet(addrs, ss), flight)
  {
    ReachedUp(addrs, ss, flight);
    hide RunFleet, StepWorld, Hopeful, Live, Clears, OnceEach, WorldAfter, InFlight;
    var w := RunFleet(addrs, ss);
    if CanClear(w, flight) {
      var hs, h :| OnceEach(w, flight, hs + [h]) && Clears(WorldAfter(w, hs), h);
      ClearNeedsLive(w, flight, hs, h);
    }
    if Hopeful(w, flight) && SomeLive(w, flight) {
      var k :| 0 <= k < |w.gw.robots| && Live(flight, w.gw.robots[k].addr);
      HopefulCanClear(w, flight, k, 0);
    }
  }

  // ---- What a late report does.

  // A report of an earlier move, handled when the broadcast can still come about,
  // prevents it exactly when nothing for its robot is in flight: the robot was counted
  // on as CONFIGURED, is READY again, and nothing is left to make it acknowledge once more.
  lemma LateReportPrevents(addrs: set<U16>, ss: seq<Step>, flight: multiset<Step>, i: nat, n: Byte)
    requires var w := RunFleet(addrs, ss);
             w.gw.connected && !w.gw.faulted && InFlight(w, flight) && i < |w.gw.robots|
    requires GatewayHears(Telemetry(RunFleet(addrs, ss).gw.robots[i].addr, n)) in flight
    requires CanClear(RunFleet(addrs, ss), flight)
    ensures var w := RunFleet(addrs, ss);
            var a := w.gw.robots[i].addr;
            var h := GatewayHears(Telemetry(a, n));
            CanClear(StepWorld(w, h), Delivered(w, flight, h)) <==> Live(flight, a)
  {
    var w := RunFleet(addrs, ss);
    var a := w.gw.robots[i].addr;
    var h := GatewayHears(Telemetry(a, n));
    var v, after := StepWorld(w, h), Delivered(w, flight, h);
    ReachedUp(addrs, ss, flight);
    FlightKept(w, flight, h);
    FleetSnoc(addrs, ss, h);
    ReportDelivered(w, i, n);
    hide RunFleet, StepWorld, CanClear, Live, InFlight, Inv, Delivered, Hopeful, SomeLive;
    forall b ensures Live(after, b) <==> Live(flight, b) {
      ReportsAreNotAwaited(w, flight, a, n, b);
    }
    ClearsExactlyWhenLive(addrs, ss, flight);
    ClearsExactlyWhenLive(addrs, ss + [h], after);
    HopeAfterReport(w, flight, v, after, i, n);
  }

  lemma HopeAfterReport(w: World, flight: multiset<Step>, v: World, after: multiset<Step>, i: nat, n: Byte)
    requires i < |w.gw.robots| && v.gw.robots == w.gw.robots[i := Reported(w.gw.robots[i], n)]
    requires forall b :: Live(after, b) <==> Live(flight, b)
    requires Hopeful(w, flight) && SomeLive(w, flight)
    ensures Hopeful(v, after) <==> Live(flight, w.gw.robots[i].addr)
    ensures SomeLive(v, after)
  {
    hide Live;
    assert forall j | 0 <= j < |v.gw.robots| :: v.gw.robots[j].addr == w.gw.robots[j].addr;
    assert v.gw.robots[i].state == Ready;
    var k :| 0 <= k < |w.gw.robots| && Live(flight, w.gw.robots[k].addr);
    assert Live(after, v.gw.robots[k].addr);
  }

  lemma ReportDelivered(w: World, i: nat, n: Byte)
    requires w.gw.connected && !w.gw.faulted && Distinct(w.gw.robots) && i < |w.gw.robots|
    requires Telemetry(w.gw.robots[i].addr, n) in w.net
    ensures var v := StepWorld(w, GatewayHears(Telemetry(w.gw.robots[i].addr, n)));
            && v.gw.connected && !v.gw.faulted
            && v.gw.robots == w.gw.robots[i := Reported(w.gw.robots[i], n)]
  {
    var a := w.gw.robots[i].addr;
    assert Has(w.gw.robots, a);
    assert forall j | 0 <= j < |w.gw.robots| :: j != i ==> w.gw.robots[j].addr != a;
  }

  lemma ReportsAreNotAwaited(w: World, flight: multiset<Step>, a: U16, n: Byte, b: U16)
    ensures Live(Delivered(w, flight, GatewayHears(Telemetry(a, n))), b) <==> Live(flight, b)
  {
    var after := Delivered(w, flight, GatewayHears(Telemetry(a, n)));
    assert GatewayHears(Ack(b)) in after <==> GatewayHears(Ack(b)) in flight;
    forall m ensures RobotHears(b, Set(b, m)) in after <==> RobotHears(b, Set(b, m)) in flight {}
  }
}
