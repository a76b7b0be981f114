/** When the network alone can still bring the fleet to a broadcast. */
module FleetLiveness {
  import opened Bytes
  import opened RobotRegistry
  import opened Fleet
  import RobotHistory
  import RobotRecords

  // Only packets already sent, and the acknowledgements they cause, are delivered.
  predicate NetworkOnly(hs: seq<Step>) {
    forall k | 0 <= k < |hs| :: hs[k].RobotHears? || hs[k].GatewayHears?
  }

  ghost predicate SentSome(w: World, a: U16) {
    exists m :: Set(a, m) in w.net
  }

  ghost predicate AllSentSome(w: World) {
    forall i | 0 <= i < |w.gw.robots| :: SentSome(w, w.gw.robots[i].addr)
  }

  ghost predicate CanClear(addrs: set<U16>, ss: seq<Step>) {
    exists hs, h :: NetworkOnly(hs + [h]) && Clears(RunFleet(addrs, ss + hs), h)
  }

  lemma NetworkStep(w: World, h: Step, a: U16, m: Movement)
    requires h.RobotHears? || h.GatewayHears?
    ensures Set(a, m) in StepWorld(w, h).net <==> Set(a, m) in w.net
    ensures RobotHistory.Extends(w.gw.robots, StepWorld(w, h).gw.robots)
  {
    if h.GatewayHears? {
      RobotHistory.ExtendsNext(w.gw, EventOf(h.p));
    }
    hide Next;
  }

  lemma {:induction false} NetworkRun(addrs: set<U16>, ss: seq<Step>, hs: seq<Step>, a: U16, m: Movement)
    requires NetworkOnly(hs)
    ensures Set(a, m) in RunFleet(addrs, ss + hs).net <==> Set(a, m) in RunFleet(addrs, ss).net
    ensures RobotHistory.Extends(RunFleet(addrs, ss).gw.robots, RunFleet(addrs, ss + hs).gw.robots)
  {
    if hs == [] {
      assert ss + hs == ss;
    } else {
      var n := |hs| - 1;
      assert ss + hs == (ss + hs[..n]) + [hs[n]];
      FleetSnoc(addrs, ss + hs[..n], hs[n]);
      hide RunFleet, StepWorld;
      NetworkRun(addrs, ss, hs[..n], a, m);
      NetworkStep(RunFleet(addrs, ss + hs[..n]), hs[n], a, m);
    }
  }

  // A clear is caused by an acknowledgement.
  lemma ClearIsAck(w: World, h: Step)
    requires Clears(w, h) && (h.RobotHears? || h.GatewayHears?)
    ensures h.GatewayHears? && h.p.Ack? && h.p in w.net
  {
    if h.GatewayHears? && h.p in w.net {
      var e := EventOf(h.p);
      if !Next(w.gw, e).faulted {
        RobotHistory.ClearNext(w.gw, e);
      }
    }
  }

  // What a broadcast takes.
  lemma ClearNeedsSets(addrs: set<U16>, ss: seq<Step>, hs: seq<Step>, h: Step)
    requires NetworkOnly(hs + [h]) && Clears(RunFleet(addrs, ss + hs), h)
    ensures RunFleet(addrs, ss).gw.robots != [] && AllSentSome(RunFleet(addrs, ss))
  {
    var w, v := RunFleet(addrs, ss), RunFleet(addrs, ss + hs);
    var u := StepWorld(v, h);
    assert h == (hs + [h])[|hs|] && forall k | 0 <= k < |hs| :: hs[k] == (hs + [h])[k];
    assert NetworkOnly(hs) && (h.RobotHears? || h.GatewayHears?);
    FleetInv(addrs, ss);
    FleetInv(addrs, ss + hs);
    StepKeepsInv(v, h);
    ClearMeansAcked(v, h);
    ClearIsAck(v, h);
    hide RunFleet, StepWorld, Clears;
    assert HoldsSent(v, h.p.src);
    NetworkRun(addrs, ss, hs, h.p.src, v.nodes[h.p.src].config);
    assert Has(w.gw.robots, h.p.src);
    forall i | 0 <= i < |w.gw.robots| ensures SentSome(w, w.gw.robots[i].addr) {
      AckedWasSent(addrs, ss, hs, h, i);
    }
  }

  lemma AckedWasSent(addrs: set<U16>, ss: seq<Step>, hs: seq<Step>, h: Step, i: nat)
    requires NetworkOnly(hs) && (h.RobotHears? || h.GatewayHears?)
    requires i < |RunFleet(addrs, ss).gw.robots|
    requires Inv(StepWorld(RunFleet(addrs, ss + hs), h))
    requires var u := StepWorld(RunFleet(addrs, ss + hs), h);
             forall j | 0 <= j < |u.gw.robots| :: Ack(u.gw.robots[j].addr) in u.net
    ensures SentSome(RunFleet(addrs, ss), RunFleet(addrs, ss).gw.robots[i].addr)
  {
    hide RunFleet, StepWorld;
    var w, v := RunFleet(addrs, ss), RunFleet(addrs, ss + hs);
    var u := StepWorld(v, h);
    var a := w.gw.robots[i].addr;
    NetworkRun(addrs, ss, hs, a, Movement(0, 0, 0));
    NetworkStep(v, h, a, Movement(0, 0, 0));
    assert u.gw.robots[i].addr == a;
    assert HoldsSent(u, a);
    var m := u.nodes[a].config;
    NetworkStep(v, h, a, m);
    NetworkRun(addrs, ss, hs, a, m);
  }

  // Delivering a movement and then its acknowledgement.
  lemma Acknowledges(w: World, i: nat, m: Movement)
    requires Inv(w) && w.gw.connected && !w.gw.faulted && i < |w.gw.robots| && Set(w.gw.robots[i].addr, m) in w.net
    ensures var a := w.gw.robots[i].addr;
            var v := StepWorld(w, RobotHears(a, Set(a, m)));
            var u := StepWorld(v, GatewayHears(Ack(a)));
            && u.gw.connected && !u.gw.faulted && |u.gw.robots| == |w.gw.robots|
            && (forall j | 0 <= j < |w.gw.robots| :: u.gw.robots[j].addr == w.gw.robots[j].addr)
            && (forall j | 0 <= j < |w.gw.robots| ::
                  w.gw.robots[j].state == Configured ==> u.gw.robots[j].state == Configured)
            && u.gw.robots[i].state == Configured
            && (Clears(v, GatewayHears(Ack(a))) <==> AllIn(u.gw.robots, Configured))
  {
    var a := w.gw.robots[i].addr;
    var v := StepWorld(w, RobotHears(a, Set(a, m)));
    var u := StepWorld(v, GatewayHears(Ack(a)));
    assert Has(v.gw.robots, a) && v.gw == w.gw && Ack(a) in v.net;
    RobotHistory.ClearAck(v.gw, a);
    assert u.gw == OnAck(v.gw, a);
    hide ReportMove;
  }

  // Nobody joined, nobody lost an acknowledgement, and the gateway is still up.
  ghost predicate Onwards(w: World, u: World) {
    && u.gw.connected && !u.gw.faulted && |u.gw.robots| == |w.gw.robots| && AllSentSome(u)
    && forall j | 0 <= j < |w.gw.robots| ::
         w.gw.robots[j].state == Configured ==> u.gw.robots[j].state == Configured
  }

  lemma OneAcknowledges(addrs: set<U16>, ss: seq<Step>, i: nat) returns (hs: seq<Step>)
    requires var w := RunFleet(addrs, ss);
             w.gw.connected && !w.gw.faulted && AllSentSome(w) && i < |w.gw.robots|
    ensures |hs| == 2 && NetworkOnly(hs) && Onwards(RunFleet(addrs, ss), RunFleet(addrs, ss + hs))
    ensures var u := RunFleet(addrs, ss + hs);
            && i < |u.gw.robots| && u.gw.robots[i].state == Configured
            && (Clears(RunFleet(addrs, ss + [hs[0]]), hs[1]) <==> AllIn(u.gw.robots, Configured))
  {
    hide RunFleet, StepWorld, Clears;
    var w := RunFleet(addrs, ss);
    FleetInv(addrs, ss);
    var a := w.gw.robots[i].addr;
    assert SentSome(w, a);
    var m :| Set(a, m) in w.net;
    hs := [RobotHears(a, Set(a, m)), GatewayHears(Ack(a))];
    FleetSnoc(addrs, ss, hs[0]);
    FleetSnoc(addrs, ss + [hs[0]], hs[1]);
    assert ss + hs == (ss + [hs[0]]) + [hs[1]];
    Acknowledges(w, i, m);
    NetGrows(addrs, ss, hs);
    var u := RunFleet(addrs, ss + hs);
    forall j | 0 <= j < |u.gw.robots| ensures SentSome(u, u.gw.robots[j].addr) {
      assert SentSome(w, w.gw.robots[j].addr);
    }
  }

  lemma NetworkAppend(hs: seq<Step>, more: seq<Step>)
    requires NetworkOnly(hs) && NetworkOnly(more)
    ensures NetworkOnly(hs + more)
  {}

  // The first n robots brought to CONFIGURED.
  lemma {:induction false} FirstAcknowledge(addrs: set<U16>, ss: seq<Step>, n: nat) returns (hs: seq<Step>)
    requires var w := RunFleet(addrs, ss);
             w.gw.connected && !w.gw.faulted && AllSentSome(w) && n <= |w.gw.robots|
    ensures NetworkOnly(hs) && Onwards(RunFleet(addrs, ss), RunFleet(addrs, ss + hs))
    ensures var v := RunFleet(addrs, ss + hs);
            forall j | 0 <= j < n && j < |v.gw.robots| :: v.gw.robots[j].state == Configured
  {
    hide RunFleet, StepWorld, Clears, AllSentSome;
    if n == 0 {
      hs := [];
      assert ss + hs == ss;
    } else {
      var early := FirstAcknowledge(addrs, ss, n - 1);
      var more := OneAcknowledges(addrs, ss + early, n - 1);
      NetworkAppend(early, more);
      hs := early + more;
      assert ss + hs == (ss + early) + more;
    }
  }

  lemma SentCanClear(addrs: set<U16>, ss: seq<Step>)
    requires var w := RunFleet(addrs, ss);
             w.gw.connected && !w.gw.faulted && w.gw.robots != [] && AllSentSome(w)
    ensures CanClear(addrs, ss)
  {
    hide RunFleet, StepWorld, Clears, AllSentSome;
    var n := |RunFleet(addrs, ss).gw.robots| - 1;
    var hs := FirstAcknowledge(addrs, ss, n);
    var last := OneAcknowledges(addrs, ss + hs, n);
    assert (ss + hs) + [last[0]] == ss + (hs + [last[0]]);
    assert (hs + [last[0]]) + [last[1]] == hs + last;
    NetworkAppend(hs, last);
  }

  // Liveness. From any moment of a run at which the cloud is connected and the gateway
  // has not faulted, deliveries alone can bring about CLEAR_TO_MOVE exactly when a
  // robot is registered and every registered robot has been sent a movement.
  lemma ClearsExactlyWhenSent(addrs: set<U16>, ss: seq<Step>)
    requires RunFleet(addrs, ss).gw.connected && !RunFleet(addrs, ss).gw.faulted
    ensures CanClear(addrs, ss) <==> RunFleet(addrs, ss).gw.robots != [] && AllSentSome(RunFleet(addrs, ss))
  {
    hide RunFleet, StepWorld, Clears, AllSentSome;
    var w := RunFleet(addrs, ss);
    if CanClear(addrs, ss) {
      var hs, h :| NetworkOnly(hs + [h]) && Clears(RunFleet(addrs, ss + hs), h);
      ClearNeedsSets(addrs, ss, hs, h);
    }
    if w.gw.robots != [] && AllSentSome(w) {
      SentCanClear(addrs, ss);
    }
  }

  // ---- From a delta to the broadcast.

  // The mesh thread sends the next n events queued for it.
  function Sends(n: nat): seq<Step> {
    seq(n, _ => GatewaySends)
  }

  lemma {:induction false} SendsAll(addrs: set<U16>, ss: seq<Step>, n: nat)
    requires !RunFleet(addrs, ss).gw.faulted && n <= |RunFleet(addrs, ss).commands|
    ensures var w, u := RunFleet(addrs, ss), RunFleet(addrs, ss + Sends(n));
            && u.gw == w.gw && u.nodes == w.nodes && u.commands == w.commands[n..] && w.net <= u.net
            && forall j | 0 <= j < n :: Sent(w.gw.robots, w.commands[j]) <= u.net
  {
    hide RunFleet, Sent;
    if n == 0 {
      assert ss + Sends(n) == ss;
    } else {
      SendsAll(addrs, ss, n - 1);
      assert ss + Sends(n) == (ss + Sends(n - 1)) + [GatewaySends];
      FleetSnoc(addrs, ss + Sends(n - 1), GatewaySends);
    }
  }

  lemma {:induction false} RecordOf(robots: seq<Robot>, i: nat)
    requires Distinct(robots) && i < |robots|
    ensures MovementOnRecord(robots, robots[i].addr) == Some(robots[i].movement)
  {
    var n := |robots| - 1;
    if i < n {
      assert robots[i].addr != robots[n].addr;
      RecordOf(robots[..n], i);
    }
  }

  // What the gateway does with an accepted delta, at robot i.
  lemma DeltaQueues(g: Gateway, d: Delta, i: nat)
    requires !g.faulted && g.connected && d.version > g.versionPrev && i < |g.robots| && g.robots[i].name in d.moves
    ensures var h := Next(g, UpdateDelta(d));
            && g.out <= h.out && MovementConfigure(g.robots[i].addr) in h.out[|g.out|..]
  {
    RobotRecords.NextTells(g, d);
    hide Next, RobotRecords.TellsNamed;
    RobotRecords.NamedAreTold(Next(g, UpdateDelta(d)).out[|g.out|..], g.robots, d, g.robots[i].addr);
    assert RobotRecords.NamedAt(g.robots, d.moves.Keys, g.robots[i].addr);
  }

  lemma DeltaHandled(addrs: set<U16>, ss: seq<Step>, d: Delta, i: nat)
    requires var g := RunFleet(addrs, ss).gw;
             !g.faulted && g.connected && d.version > g.versionPrev && i < |g.robots| && g.robots[i].name in d.moves
    ensures var r, v := RunFleet(addrs, ss).gw.robots[i], RunFleet(addrs, ss + [CloudEvent(UpdateDelta(d))]);
            && !v.gw.faulted && Distinct(v.gw.robots) && i < |v.gw.robots| && v.gw.robots[i].addr == r.addr
            && v.gw.robots[i].movement == Movement(d.moves[r.name].time, d.moves[r.name].angle, 100)
            && MovementConfigure(r.addr) in v.commands
  {
    var g := RunFleet(addrs, ss).gw;
    FleetSnoc(addrs, ss, CloudEvent(UpdateDelta(d)));
    hide RunFleet, Next;
    DeltaOrders(g, d, i);
    DeltaQueues(g, d, i);
    DistinctRobots(addrs, ss + [CloudEvent(UpdateDelta(d))]);
  }

  lemma DistinctRobots(addrs: set<U16>, ss: seq<Step>)
    requires !RunFleet(addrs, ss).gw.faulted
    ensures Distinct(RunFleet(addrs, ss).gw.robots)
  {
    hide RunFleet, Next, RobotRegistry.Run, Handled;
    GatewayIsModuleRun(addrs, ss);
    RobotHistory.BarrierHistory(Handled(addrs, ss));
  }

  lemma SetIsSent(robots: seq<Robot>, i: nat)
    requires Distinct(robots) && i < |robots|
    ensures Set(robots[i].addr, robots[i].movement) in Sent(robots, MovementConfigure(robots[i].addr))
  {
    RecordOf(robots, i);
  }

  // The steps of a delta: it is handled, and everything queued then is sent.
  ghost function DeltaSteps(addrs: set<U16>, ss: seq<Step>, d: Delta): seq<Step> {
    var handled := ss + [CloudEvent(UpdateDelta(d))];
    handled + Sends(|RunFleet(addrs, handled).commands|)
  }

  // An accepted delta reaches the network: once what is queued has been sent, every
  // registered robot it names has been sent the movement ordered, at speed 100.
  lemma DeltaIsSent(addrs: set<U16>, ss: seq<Step>, d: Delta, i: nat)
    requires var g := RunFleet(addrs, ss).gw;
             !g.faulted && g.connected && d.version > g.versionPrev && i < |g.robots| && g.robots[i].name in d.moves
    ensures var r := RunFleet(addrs, ss).gw.robots[i];
            var u := RunFleet(addrs, DeltaSteps(addrs, ss, d));
            Set(r.addr, Movement(d.moves[r.name].time, d.moves[r.name].angle, 100)) in u.net
  {
    hide RunFleet, StepWorld, Next, Sent, MovementOnRecord;
    var handled := ss + [CloudEvent(UpdateDelta(d))];
    var g := RunFleet(addrs, ss).gw;
    DeltaHandled(addrs, ss, d, i);
    var v := RunFleet(addrs, handled);
    SendsAll(addrs, handled, |v.commands|);
    var j :| 0 <= j < |v.commands| && v.commands[j] == MovementConfigure(g.robots[i].addr);
    SetIsSent(v.gw.robots, i);
    assert Sent(v.gw.robots, v.commands[j]) <= RunFleet(addrs, DeltaSteps(addrs, ss, d)).net;
  }

  // So a delta that names every registered robot can bring about CLEAR_TO_MOVE.
  lemma DeltaCanClear(addrs: set<U16>, ss: seq<Step>, d: Delta)
    requires var g := RunFleet(addrs, ss).gw;
             && !g.faulted && g.connected && d.version > g.versionPrev && g.robots != []
             && forall i | 0 <= i < |g.robots| :: g.robots[i].name in d.moves
    ensures CanClear(addrs, DeltaSteps(addrs, ss, d))
  {
    var handled := ss + [CloudEvent(UpdateDelta(d))];
    var g := RunFleet(addrs, ss).gw;
    FleetSnoc(addrs, ss, CloudEvent(UpdateDelta(d)));
    DeltaOrders(g, d, 0);
    hide RunFleet, Next;
    var v := RunFleet(addrs, handled);
    SendsAll(addrs, handled, |v.commands|);
    var u := RunFleet(addrs, DeltaSteps(addrs, ss, d));
    forall i | 0 <= i < |u.gw.robots| ensures SentSome(u, u.gw.robots[i].addr) {
      DeltaIsSent(addrs, ss, d, i);
      assert u.gw.robots[i].addr == g.robots[i].addr;
    }
    SentCanClear(addrs, DeltaSteps(addrs, ss, d));
  }
}
