/**
 What the robot module keeps and submits, read off the events it handled: every field
 of every record over every run, and the exact output of every event.
 */
module RobotRecords {
  import opened Bytes
  import opened RobotRegistry
  import opened RobotHistory
  import RobotDeltas
  import RobotNames

  // ---- The records.

  // The identity a robot first announced from the address.
  function FirstId(es: seq<Event>, addr: U16): U64 {
    if es == [] then 0
    else
      var before, e := es[..|es| - 1], es[|es| - 1];
      if e.Mesh? && e.m.RobotId? && e.m.addr == addr && !RegisteredIn(before, addr) then e.m.id
      else FirstId(before, addr)
  }

  // The count of the last telemetry handled for the address while connected.
  function LastCount(es: seq<Event>, addr: U16): Byte {
    if es == [] then 0
    else
      var before, e := es[..|es| - 1], es[|es| - 1];
      if ConnectedAfter(before) && IsTelemetry(e, addr) then e.m.revolutions else LastCount(before, addr)
  }

  // The LED setting of the last registration, acknowledgement, telemetry or accepted
  // delta for a robot: green when it waits, red when it is configured.
  ghost function LastLed(es: seq<Event>, addr: U16, name: string): Led {
    if es == [] then Led(0, 0, 0, 0)
    else
      var before, e := es[..|es| - 1], es[|es| - 1];
      if e.Mesh? && e.m.RobotId? && e.m.addr == addr && !RegisteredIn(before, addr) then Led(500, 0, 230, 10)
      else if ConnectedAfter(before) && IsAck(e, addr) then Led(150, 230, 0, 10)
      else if ConnectedAfter(before) && IsTelemetry(e, addr) then Led(500, 0, 230, 10)
      else if e.UpdateDelta? && RobotDeltas.Accepted(es, |es| - 1) && name in e.d.leds then e.d.leds[name]
      else LastLed(before, addr, name)
  }

  ghost predicate Recorded(es: seq<Event>, r: Robot) {
    && r.name == RobotNames.Name(FirstId(es, r.addr))
    && r.revolutions == LastCount(es, r.addr)
    && r.led == LastLed(es, r.addr, r.name)
  }

  // What one event does to a record, and what a new record is.
  lemma RecordNext(g: Gateway, e: Event, i: nat)
    requires !Next(g, e).faulted && i < |Next(g, e).robots|
    ensures var q := Next(g, e).robots[i];
            if i >= |g.robots| then
              && e.Mesh? && e.m.RobotId? && !Has(g.robots, e.m.addr)
              && q == Robot(RobotNames.Name(e.m.id), e.m.addr, Ready, Movement(0, 0, 100), 0, Led(500, 0, 230, 10))
            else
              var r := g.robots[i];
              && q.name == r.name && q.addr == r.addr
              && q.revolutions == (if g.connected && IsTelemetry(e, r.addr) then e.m.revolutions else r.revolutions)
              && q.led ==
                 if g.connected && IsAck(e, r.addr) then Led(150, 230, 0, 10)
                 else if g.connected && IsTelemetry(e, r.addr) then Led(500, 0, 230, 10)
                 else if g.connected && e.UpdateDelta? && e.d.version > g.versionPrev && r.name in e.d.leds
                 then e.d.leds[r.name] else r.led
  {}

  // Count, identity and LED setting of an address that has not registered.
  lemma {:induction false} NothingRecorded(es: seq<Event>, addr: U16)
    requires !Run(es).faulted && !RegisteredIn(es, addr)
    ensures LastCount(es, addr) == 0
  {
    if es != [] {
      var before, e := es[..|es| - 1], es[|es| - 1];
      assert es == before + [e];
      MarkSnoc(before, e, addr);
      NothingRecorded(before, addr);
      BarrierHistory(before);
      FaultNext(Run(before), before, e);
    }
  }

  // Over every unfaulted run: a robot's name is that of the identity it first
  // announced, its count that of the last telemetry handled for it while connected,
  // or 0, and its LED setting that of the last event that gave it one.
  lemma {:induction false} RecordsFollowHistory(es: seq<Event>)
    requires !Run(es).faulted
    ensures forall i | 0 <= i < |Run(es).robots| :: Recorded(es, Run(es).robots[i])
  {
    if es != [] {
      var before, e := es[..|es| - 1], es[|es| - 1];
      assert es == before + [e];
      RecordsFollowHistory(before);
      BarrierHistory(before);
      RobotDeltas.VersionKept(before);
      forall i | 0 <= i < |Run(es).robots| ensures Recorded(es, Run(es).robots[i]) {
        RecordedNext(Run(before), before, e, i);
      }
    }
  }

  lemma RecordedNext(g: Gateway, es: seq<Event>, e: Event, i: nat)
    requires g == Run(es) && Agrees(g, es) && !Next(g, e).faulted && RobotDeltas.VersionIsMax(es, g.versionPrev)
    requires forall j | 0 <= j < |g.robots| :: Recorded(es, g.robots[j])
    requires i < |Next(g, e).robots|
    ensures Recorded(es + [e], Next(g, e).robots[i])
  {
    RecordNext(g, e, i);
    var q := Next(g, e).robots[i];
    assert (es + [e])[..|es|] == es;
    if e.UpdateDelta? {
      RobotDeltas.AcceptedIsNewMax(es, e.d, g.versionPrev);
    }
    if i < |g.robots| {
      assert Has(g.robots, g.robots[i].addr);
    } else {
      NothingRecorded(es, q.addr);
    }
    hide RobotDeltas.Accepted, RobotDeltas.VersionIsMax, Next, Run, RobotNames.Name;
  }

  // ---- The output.

  // What the event adds.
  ghost function Submitted(es: seq<Event>, e: Event): seq<Out>
    requires Run(es).out <= Run(es + [e]).out
  {
    Run(es + [e]).out[|Run(es).out|..]
  }

  // The places of the robots named, in list order.
  ghost predicate Lists(ks: seq<nat>, robots: seq<Robot>, names: set<string>) {
    && (forall j, k | 0 <= j < k < |ks| :: ks[j] < ks[k])
    && (forall i: nat :: i in ks <==> i < |robots| && robots[i].name in names)
  }

  ghost predicate MovesTold(out: seq<Out>, ks: seq<nat>, robots: seq<Robot>) {
    |out| == |ks| && forall j | 0 <= j < |ks| :: ks[j] < |robots| && out[j] == MovementConfigure(robots[ks[j]].addr)
  }

  ghost predicate LedsTold(out: seq<Out>, ks: seq<nat>, robots: seq<Robot>) {
    |out| == |ks| && forall j | 0 <= j < |ks| :: ks[j] < |robots| && out[j] == LedConfigure(robots[ks[j]].addr)
  }

  lemma ListsSnoc(ks: seq<nat>, robots: seq<Robot>, names: set<string>)
    requires robots != [] && Lists(ks, robots[..|robots| - 1], names)
    ensures Lists(if robots[|robots| - 1].name in names then ks + [|robots| - 1] else ks, robots, names)
  {
    var n := |robots| - 1;
    var all := if robots[n].name in names then ks + [n] else ks;
    forall i: nat ensures i in all <==> i < |robots| && robots[i].name in names {
      assert i in all <==> i in ks || (robots[n].name in names && i == n);
      assert i < n ==> robots[..n][i] == robots[i];
    }
    forall j | 0 <= j < |ks| ensures ks[j] < n {
      assert ks[j] in ks;
    }
  }

  lemma NothingTold(robots: seq<Robot>, names: set<string>)
    requires robots == []
    ensures Lists([], robots, names) && MovesTold([], [], robots) && LedsTold([], [], robots)
  {}

  lemma FlatNothing(robots: seq<Robot>, f: Robot -> seq<Out>)
    requires robots == []
    ensures Flat(robots, f) == []
  {}

  lemma FlatLast(robots: seq<Robot>, f: Robot -> seq<Out>)
    requires robots != []
    ensures Flat(robots, f) == Flat(robots[..|robots| - 1], f) + f(robots[|robots| - 1])
  {}

  lemma MovesToldSnoc(out: seq<Out>, ks: seq<nat>, robots: seq<Robot>, d: Delta)
    requires robots != [] && MovesTold(out, ks, robots[..|robots| - 1])
    ensures MovesTold(out + MoveOut(robots[|robots| - 1], d),
                      if robots[|robots| - 1].name in d.moves then ks + [|robots| - 1] else ks, robots)
  {}

  lemma {:induction false} FlatMoves(robots: seq<Robot>, d: Delta, f: Robot -> seq<Out>) returns (ks: seq<nat>)
    requires forall i | 0 <= i < |robots| :: f(robots[i]) == MoveOut(robots[i], d)
    ensures Lists(ks, robots, d.moves.Keys) && MovesTold(Flat(robots, f), ks, robots)
  {
    hide Lists, MovesTold, MoveOut, Flat;
    if robots == [] {
      ks := [];
      NothingTold(robots, d.moves.Keys);
      FlatNothing(robots, f);
    } else {
      var n := |robots| - 1;
      var early := FlatMoves(robots[..n], d, f);
      ListsSnoc(early, robots, d.moves.Keys);
      MovesToldSnoc(Flat(robots[..n], f), early, robots, d);
      FlatLast(robots, f);
      ks := if robots[n].name in d.moves then early + [n] else early;
    }
  }

  lemma LedsToldSnoc(out: seq<Out>, ks: seq<nat>, robots: seq<Robot>, d: Delta)
    requires robots != [] && LedsTold(out, ks, robots[..|robots| - 1])
    ensures LedsTold(out + LedOut(robots[|robots| - 1], d),
                      if robots[|robots| - 1].name in d.leds then ks + [|robots| - 1] else ks, robots)
  {}

  lemma {:induction false} FlatLeds(robots: seq<Robot>, d: Delta, f: Robot -> seq<Out>) returns (ks: seq<nat>)
    requires forall i | 0 <= i < |robots| :: f(robots[i]) == LedOut(robots[i], d)
    ensures Lists(ks, robots, d.leds.Keys) && LedsTold(Flat(robots, f), ks, robots)
  {
    hide Lists, LedsTold, LedOut, Flat;
    if robots == [] {
      ks := [];
      NothingTold(robots, d.leds.Keys);
      FlatNothing(robots, f);
    } else {
      var n := |robots| - 1;
      var early := FlatLeds(robots[..n], d, f);
      ListsSnoc(early, robots, d.leds.Keys);
      LedsToldSnoc(Flat(robots[..n], f), early, robots, d);
      FlatLast(robots, f);
      ks := if robots[n].name in d.leds then early + [n] else early;
    }
  }

  lemma SameNames(ks: seq<nat>, before: seq<Robot>, after: seq<Robot>, names: set<string>, out: seq<Out>)
    requires |before| == |after|
    requires forall i | 0 <= i < |before| :: after[i].name == before[i].name && after[i].addr == before[i].addr
    requires Lists(ks, after, names) && LedsTold(out, ks, after)
    ensures Lists(ks, before, names) && LedsTold(out, ks, before)
  {}

  lemma DeltaOutput(g: Gateway, d: Delta) returns (moves: seq<Out>, leds: seq<Out>, ks: seq<nat>, ls: seq<nat>)
    requires d.version > g.versionPrev
    ensures OnDelta(g, d).out == g.out + moves + leds
    ensures Lists(ks, g.robots, d.moves.Keys) && Lists(ls, g.robots, d.leds.Keys)
    ensures MovesTold(moves, ks, g.robots) && LedsTold(leds, ls, g.robots)
  {
    hide Flat, MoveOut, LedOut, Lists, MovesTold, LedsTold;
    var moved := Each(g.robots, (r: Robot) => Ordered(r, d));
    var m := (r: Robot) => MoveOut(r, d);
    var l := (r: Robot) => LedOut(r, d);
    moves, leds := Flat(g.robots, m), Flat(moved, l);
    ks := FlatMoves(g.robots, d, m);
    ls := FlatLeds(moved, d, l);
    SameNames(ls, g.robots, moved, d.leds.Keys, leds);
  }

  // A registered robot at the address has one of the names.
  ghost predicate NamedAt(robots: seq<Robot>, names: set<string>, a: U16) {
    exists i :: 0 <= i < |robots| && robots[i].addr == a && robots[i].name in names
  }

  // MOVEMENT_CONFIGURE for exactly the robots whose movement the delta names, once
  // each and in list order, and then LED_CONFIGURE for exactly those whose LED it names.
  ghost predicate TellsNamed(out: seq<Out>, robots: seq<Robot>, d: Delta) {
    exists ks, ls :: Lists(ks, robots, d.moves.Keys) && Lists(ls, robots, d.leds.Keys) &&
      |out| == |ks| + |ls| && MovesTold(out[..|ks|], ks, robots) && LedsTold(out[|ks|..], ls, robots)
  }

  lemma MovesToldLength(moves: seq<Out>, leds: seq<Out>, ks: seq<nat>, ls: seq<nat>, robots: seq<Robot>)
    requires MovesTold(moves, ks, robots) && LedsTold(leds, ls, robots)
    ensures |moves| == |ks| && |leds| == |ls|
  {}

  lemma DeltaTells(g: Gateway, d: Delta)
    requires d.version > g.versionPrev
    ensures g.out <= OnDelta(g, d).out && TellsNamed(OnDelta(g, d).out[|g.out|..], g.robots, d)
  {
    hide OnDelta, Lists, MovesTold, LedsTold, Flat;
    var moves, leds, ks, ls := DeltaOutput(g, d);
    MovesToldLength(moves, leds, ks, ls, g.robots);
    var out := OnDelta(g, d).out[|g.out|..];
    assert out == moves + leds;
    assert out[..|ks|] == moves && out[|ks|..] == leds;
  }

  lemma NextTells(g: Gateway, d: Delta)
    requires g.connected && !g.faulted && d.version > g.versionPrev
    ensures g.out <= Next(g, UpdateDelta(d)).out
    ensures TellsNamed(Next(g, UpdateDelta(d)).out[|g.out|..], g.robots, d)
  {
    hide TellsNamed, OnDelta;
    DeltaTells(g, d);
  }

  // Over every unfaulted run, what a delta has submitted: for an accepted one exactly
  // what concerns the registered robots it names, and otherwise nothing.
  lemma DeltaSubmits(es: seq<Event>, d: Delta)
    requires !Run(es).faulted
    ensures Run(es).out <= Run(es + [UpdateDelta(d)]).out
    ensures RobotDeltas.Accepted(es + [UpdateDelta(d)], |es|) ==>
              TellsNamed(Submitted(es, UpdateDelta(d)), Run(es).robots, d)
    ensures !RobotDeltas.Accepted(es + [UpdateDelta(d)], |es|) ==> Submitted(es, UpdateDelta(d)) == []
  {
    hide *;
    RobotDeltas.AcceptedExactly(es, d);
    DeltaStep(es, d);
  }

  lemma DeltaStep(es: seq<Event>, d: Delta)
    requires !Run(es).faulted
    ensures var g, h := Run(es), Run(es + [UpdateDelta(d)]);
            && g.out <= h.out
            && (g.connected && d.version > g.versionPrev ==> TellsNamed(Submitted(es, UpdateDelta(d)), g.robots, d))
            && (!(g.connected && d.version > g.versionPrev) ==> Submitted(es, UpdateDelta(d)) == [])
  {
    hide Run, TellsNamed, OnDelta, Next;
    var g := Run(es);
    RunSnoc(es, UpdateDelta(d));
    if g.connected && d.version > g.versionPrev {
      NextTells(g, d);
    } else {
      NextIgnores(g, d);
    }
  }

  lemma NextIgnores(g: Gateway, d: Delta)
    requires !g.faulted && !(g.connected && d.version > g.versionPrev)
    ensures Next(g, UpdateDelta(d)) == g
  {}

  // In particular a robot is told exactly when it is registered and named.
  lemma DeltaReaches(es: seq<Event>, d: Delta, a: U16)
    requires !Run(es).faulted && RobotDeltas.Accepted(es + [UpdateDelta(d)], |es|)
    ensures Run(es).out <= Run(es + [UpdateDelta(d)]).out
    ensures MovementConfigure(a) in Submitted(es, UpdateDelta(d)) <==>
            NamedAt(Run(es).robots, d.moves.Keys, a)
    ensures LedConfigure(a) in Submitted(es, UpdateDelta(d)) <==>
            NamedAt(Run(es).robots, d.leds.Keys, a)
  {
    hide *;
    DeltaSubmits(es, d);
    NamedAreTold(Submitted(es, UpdateDelta(d)), Run(es).robots, d, a);
  }

  lemma NamedAreTold(out: seq<Out>, robots: seq<Robot>, d: Delta, a: U16)
    requires TellsNamed(out, robots, d)
    ensures MovementConfigure(a) in out <==> NamedAt(robots, d.moves.Keys, a)
    ensures LedConfigure(a) in out <==> NamedAt(robots, d.leds.Keys, a)
  {
    hide Lists, MovesTold, LedsTold, NamedAt;
    var ks, ls :| Lists(ks, robots, d.moves.Keys) && Lists(ls, robots, d.leds.Keys) &&
      |out| == |ks| + |ls| && MovesTold(out[..|ks|], ks, robots) && LedsTold(out[|ks|..], ls, robots);
    var moves, leds := out[..|ks|], out[|ks|..];
    assert out == moves + leds;
    MovesToldIn(moves, ks, robots, d.moves.Keys, a);
    LedsToldIn(leds, ls, robots, d.leds.Keys, a);
  }

  lemma MovesToldIn(out: seq<Out>, ks: seq<nat>, robots: seq<Robot>, names: set<string>, a: U16)
    requires Lists(ks, robots, names) && MovesTold(out, ks, robots)
    ensures MovementConfigure(a) in out <==> NamedAt(robots, names, a)
    ensures LedConfigure(a) !in out
  {
    if i :| 0 <= i < |robots| && robots[i].addr == a && robots[i].name in names {
      var j :| 0 <= j < |ks| && ks[j] == i;
      assert out[j] == MovementConfigure(a);
    }
  }

  lemma LedsToldIn(out: seq<Out>, ks: seq<nat>, robots: seq<Robot>, names: set<string>, a: U16)
    requires Lists(ks, robots, names) && LedsTold(out, ks, robots)
    ensures LedConfigure(a) in out <==> NamedAt(robots, names, a)
    ensures MovementConfigure(a) !in out
  {
    if i :| 0 <= i < |robots| && robots[i].addr == a && robots[i].name in names {
      var j :| 0 <= j < |ks| && ks[j] == i;
      assert out[j] == LedConfigure(a);
    }
  }

  // What an acknowledgement has submitted: the report of the robot's movement, its new
  // LED setting, and CLEAR_TO_MOVE exactly if every robot is CONFIGURED then.
  lemma AckSubmits(es: seq<Event>, a: U16)
    requires ConnectedAfter(es) && !Run(es + [Mesh(MovementConfigured(a))]).faulted
    ensures var e := Mesh(MovementConfigured(a));
            && Run(es).out <= Run(es + [e]).out
            && exists i :: 0 <= i < |Run(es).robots| && Run(es).robots[i].addr == a &&
                 Submitted(es, e) ==
                 [ReportMovement(Run(es).robots[i].name, Run(es).robots[i].movement), LedConfigure(a)] +
                 if (forall r | r in Run(es + [e]).robots :: r.state == Configured) then [ClearToMove] else []
  {
    var e := Mesh(MovementConfigured(a));
    RunSnoc(es, e);
    BarrierHistory(es);
    assert Has(Run(es).robots, a);
    var i :| 0 <= i < |Run(es).robots| && Run(es).robots[i].addr == a;
    hide Run, Agrees;
    AckOutput(Run(es), i);
  }

  lemma AckOutput(g: Gateway, i: nat)
    requires i < |g.robots| && Distinct(g.robots)
    ensures var r := g.robots[i];
            var h := OnAck(g, r.addr);
            h.out == g.out + ([ReportMovement(r.name, r.movement), LedConfigure(r.addr)] +
                     if (forall q | q in h.robots :: q.state == Configured) then [ClearToMove] else [])
  {
    FlatOne(g.robots, g.robots[i].addr, i);
    hide ReportMove;
  }

  // What telemetry has submitted: the robot's new LED setting and, exactly when every
  // robot is READY then, the count of each robot, in list order.
  lemma TelemetrySubmits(es: seq<Event>, a: U16, n: Byte)
    requires ConnectedAfter(es) && !Run(es + [Mesh(TelemetryReported(a, n))]).faulted
    ensures var e := Mesh(TelemetryReported(a, n));
            && Run(es).out <= Run(es + [e]).out
            && var out, rs := Submitted(es, e), Run(es + [e]).robots;
               && |out| == 1 + (if forall r | r in rs :: r.state == Ready then |rs| else 0)
               && out[0] == LedConfigure(a)
               && forall i | 0 <= i < |out| - 1 ::
                    out[1 + i] == ReportRevolutions(rs[i].name, LastCount(es + [e], rs[i].addr))
  {
    var e := Mesh(TelemetryReported(a, n));
    RunSnoc(es, e);
    BarrierHistory(es);
    RecordsFollowHistory(es + [e]);
    assert Has(Run(es).robots, a);
    hide Run, Agrees, LastCount;
    var g, h := Run(es), OnTelemetry(Run(es), a, n);
    TelemetryOutput(g, a, n);
    assert Submitted(es, e) == h.out[|g.out|..];
    forall i | 0 <= i < |h.robots| ensures h.robots[i].revolutions == LastCount(es + [e], h.robots[i].addr) {
      assert Recorded(es + [e], h.robots[i]);
    }
  }

  lemma TelemetryOutput(g: Gateway, a: U16, n: Byte)
    requires Has(g.robots, a)
    ensures var h := OnTelemetry(g, a, n);
            && g.out <= h.out
            && var out := h.out[|g.out|..];
               && |out| == 1 + (if forall r | r in h.robots :: r.state == Ready then |h.robots| else 0)
               && out[0] == LedConfigure(a)
               && forall i | 0 <= i < |out| - 1 ::
                    out[1 + i] == ReportRevolutions(h.robots[i].name, h.robots[i].revolutions)
  {
    var h := OnTelemetry(g, a, n);
    FlatCounts(h.robots, (r: Robot) => [ReportRevolutions(r.name, r.revolutions)]);
    hide Flat;
  }

  lemma {:induction false} FlatCounts(robots: seq<Robot>, f: Robot -> seq<Out>)
    requires forall r: Robot :: f(r) == [ReportRevolutions(r.name, r.revolutions)]
    ensures |Flat(robots, f)| == |robots|
    ensures forall i | 0 <= i < |robots| ::
              Flat(robots, f)[i] == ReportRevolutions(robots[i].name, robots[i].revolutions)
  {
    if robots != [] {
      FlatCounts(robots[..|robots| - 1], f);
    }
  }

  // What a robot announcing itself has submitted: nothing if it is known; else, while
  // connected, the reports of a robot at rest, and its LED setting.
  lemma JoinSubmits(es: seq<Event>, id: U64, a: U16)
    requires !Run(es).faulted
    ensures var e := Mesh(RobotId(a, id));
            && Run(es).out <= Run(es + [e]).out
            && Submitted(es, e) ==
               if RegisteredIn(es, a) then []
               else (if ConnectedAfter(es)
                     then [ReportMovement(RobotNames.Name(id), Movement(0, 0, 100)),
                           ReportRevolutions(RobotNames.Name(id), 0)]
                     else []) + [LedConfigure(a)]
  {
    RunSnoc(es, Mesh(RobotId(a, id)));
    BarrierHistory(es);
    assert Has(Run(es).robots, a) <==> RegisteredIn(es, a);
    hide Run, RobotNames.Name, Next, Agrees, Has, RegisteredIn;
    JoinOutput(Run(es), id, a);
  }

  lemma JoinOutput(g: Gateway, id: U64, a: U16)
    requires !g.faulted
    ensures g.out <= Next(g, Mesh(RobotId(a, id))).out
    ensures Next(g, Mesh(RobotId(a, id))).out[|g.out|..] ==
            if Has(g.robots, a) then []
            else (if g.connected
                  then [ReportMovement(RobotNames.Name(id), Movement(0, 0, 100)),
                        ReportRevolutions(RobotNames.Name(id), 0)]
                  else []) + [LedConfigure(a)]
  {
    hide RobotNames.Name;
  }

  // What the cloud connection has submitted: the order to forget all robots, then each
  // robot's movement and count, in list order.
  lemma ConnectSubmits(es: seq<Event>)
    requires !Run(es).faulted
    ensures Run(es).out <= Run(es + [CloudConnected]).out
    ensures ConnectedAfter(es) ==> Submitted(es, CloudConnected) == []
    ensures !ConnectedAfter(es) ==>
              var out, rs := Submitted(es, CloudConnected), Run(es).robots;
              && |out| == 1 + 2 * |rs| && out[0] == ReportRemoveAll
              && forall i | 0 <= i < |rs| ::
                   && out[1 + 2 * i] == ReportMovement(rs[i].name, rs[i].movement)
                   && out[2 + 2 * i] == ReportRevolutions(rs[i].name, LastCount(es, rs[i].addr))
  {
    RunSnoc(es, CloudConnected);
    BarrierHistory(es);
    RecordsFollowHistory(es);
    hide Run, LastCount, Flat;
    var g := Run(es);
    assert g.connected == ConnectedAfter(es);
    hide Agrees, ConnectedAfter;
    forall i | 0 <= i < |g.robots| ensures g.robots[i].revolutions == LastCount(es, g.robots[i].addr) {
      assert Recorded(es, g.robots[i]);
    }
    ConnectOutput(g);
  }

  lemma ConnectOutput(g: Gateway)
    requires !g.faulted
    ensures g.out <= Next(g, CloudConnected).out
    ensures var out, rs := Next(g, CloudConnected).out[|g.out|..], g.robots;
            if g.connected then out == []
            else
              && |out| == 1 + 2 * |rs| && out[0] == ReportRemoveAll
              && forall i | 0 <= i < |rs| ::
                   && out[1 + 2 * i] == ReportMovement(rs[i].name, rs[i].movement)
                   && out[2 + 2 * i] == ReportRevolutions(rs[i].name, rs[i].revolutions)
  {
    FlatReports(g.robots);
    hide Flat;
    if !g.connected {
      assert Next(g, CloudConnected).out[|g.out|..] == [ReportRemoveAll] + Flat(g.robots, ReportRobot);
    }
  }

  lemma {:induction false} FlatReports(robots: seq<Robot>)
    ensures |Flat(robots, ReportRobot)| == 2 * |robots|
    ensures forall i | 0 <= i < |robots| ::
              && Flat(robots, ReportRobot)[2 * i] == ReportMovement(robots[i].name, robots[i].movement)
              && Flat(robots, ReportRobot)[2 * i + 1] == ReportRevolutions(robots[i].name, robots[i].revolutions)
  {
    if robots != [] {
      FlatReports(robots[..|robots| - 1]);
    }
  }

  // Everything else has nothing submitted, and changes no record.
  lemma NothingElseSubmits(es: seq<Event>, e: Event)
    requires !Run(es).faulted
    requires e.CloudDisconnected? || e.Other? || (e.Mesh? && e.m.Unassigned?)
             || (!ConnectedAfter(es) && !e.CloudConnected? && !(e.Mesh? && e.m.RobotId?))
    ensures Run(es + [e]) == Run(es).(connected := ConnectedAfter(es) && !e.CloudDisconnected?)
  {
    RunSnoc(es, e);
    BarrierHistory(es);
    hide Run;
  }
}
