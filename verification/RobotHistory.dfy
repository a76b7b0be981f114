/** Theorems about every run of the robot module. */
module RobotHistory {
  import opened Bytes
  import opened RobotRegistry

  lemma RunSnoc(es: seq<Event>, e: Event)
    ensures Run(es + [e]) == Next(Run(es), e)
  {
    assert (es + [e])[..|es|] == es;
  }

  lemma MarkSnoc(es: seq<Event>, e: Event, a: U16)
    ensures ConnectedAfter(es + [e]) == (e.CloudConnected? || (!e.CloudDisconnected? && ConnectedAfter(es)))
    ensures RegisteredIn(es + [e], a) == ((e.Mesh? && e.m.RobotId? && e.m.addr == a) || RegisteredIn(es, a))
    ensures LastMark(es + [e], a) ==
            if e.Mesh? && e.m.RobotId? && e.m.addr == a && !RegisteredIn(es, a) then Joined
            else if ConnectedAfter(es) && IsAck(e, a) then Acked
            else if ConnectedAfter(es) && IsTelemetry(e, a) then Told
            else LastMark(es, a)
  {
    assert (es + [e])[..|es|] == es;
  }

  // A robot joins: one new entry, in its initial state.
  lemma AgreesRobotId(g: Gateway, es: seq<Event>, id: U64, addr: U16)
    requires Agrees(g, es)
    ensures Agrees(OnRobotId(g, id, addr), es + [Mesh(RobotId(addr, id))])
  {
    var e := Mesh(RobotId(addr, id));
    var h := OnRobotId(g, id, addr);
    forall a: U16
      ensures Has(h.robots, a) <==> RegisteredIn(es + [e], a)
    {
      MarkSnoc(es, e, a);
      if !Has(g.robots, addr) {
        assert h.robots[|g.robots|].addr == addr;
        assert forall i | 0 <= i < |g.robots| :: h.robots[i] == g.robots[i];
      }
    }
    forall i | 0 <= i < |h.robots|
      ensures h.robots[i].state == if LastMark(es + [e], h.robots[i].addr) == Acked then Configured else Ready
    {
      MarkSnoc(es, e, h.robots[i].addr);
      if i < |g.robots| {
        assert Has(g.robots, g.robots[i].addr);
      }
    }
    MarkSnoc(es, e, addr);
  }

  // The robots keep their addresses, and their states but for one address's mark.
  lemma AgreesKept(g: Gateway, h: Gateway, es: seq<Event>, e: Event)
    requires Agrees(g, es)
    requires !(e.Mesh? && e.m.RobotId?)
    requires |h.robots| == |g.robots| && forall i | 0 <= i < |g.robots| :: h.robots[i].addr == g.robots[i].addr
    requires h.connected == (e.CloudConnected? || (!e.CloudDisconnected? && g.connected))
    requires forall i | 0 <= i < |g.robots| ::
               h.robots[i].state ==
               if g.connected && IsAck(e, g.robots[i].addr) then Configured
               else if g.connected && IsTelemetry(e, g.robots[i].addr) then Ready
               else g.robots[i].state
    ensures Agrees(h, es + [e])
  {
    forall a: U16
      ensures Has(h.robots, a) <==> RegisteredIn(es + [e], a)
    {
      MarkSnoc(es, e, a);
      assert Has(h.robots, a) <==> Has(g.robots, a) by {
        if i :| 0 <= i < |g.robots| && g.robots[i].addr == a {
          assert h.robots[i].addr == a;
        }
      }
    }
    forall i | 0 <= i < |h.robots|
      ensures h.robots[i].state == if LastMark(es + [e], h.robots[i].addr) == Acked then Configured else Ready
    {
      MarkSnoc(es, e, h.robots[i].addr);
    }
    MarkSnoc(es, e, 0);
  }

  lemma AgreesNext(g: Gateway, es: seq<Event>, e: Event)
    requires Agrees(g, es) && !Next(g, e).faulted
    ensures Agrees(Next(g, e), es + [e])
  {
    if e.Mesh? && e.m.RobotId? {
      AgreesRobotId(g, es, e.m.id, e.m.addr);
    } else {
      hide Agrees;
      AgreesKept(g, Next(g, e), es, e);
    }
  }

  // Over every run that has not faulted: the list is the map from registered
  // addresses to robots; a robot is CONFIGURED exactly when the last mark of its
  // address is an acknowledgement, and READY otherwise, so never CONFIGURING; and
  // this holds across cloud disconnects and whatever events were dropped before
  // they could be handled.
  lemma {:induction false} BarrierHistory(es: seq<Event>)
    requires !Run(es).faulted
    ensures Agrees(Run(es), es)
  {
    if es != [] {
      BarrierHistory(es[..|es| - 1]);
      AgreesNext(Run(es[..|es| - 1]), es[..|es| - 1], es[|es| - 1]);
      assert es[..|es| - 1] + [es[|es| - 1]] == es;
    }
  }

  lemma {:induction false} FlatNoClear(robots: seq<Robot>, f: Robot -> seq<Out>)
    requires forall r: Robot :: ClearToMove !in f(r)
    ensures ClearToMove !in Flat(robots, f)
  {
    if robots != [] {
      FlatNoClear(robots[..|robots| - 1], f);
    }
  }

  // What one handled event adds to the output: CLEAR_TO_MOVE only on an
  // acknowledgement that leaves every robot CONFIGURED.
  lemma ClearNext(g: Gateway, e: Event)
    requires !Next(g, e).faulted
    ensures var h := Next(g, e);
            && g.out <= h.out
            && (ClearToMove in h.out[|g.out|..] <==>
                g.connected && e.Mesh? && e.m.MovementConfigured? && AllIn(h.robots, Configured))
  {
    var h := Next(g, e);
    if g.connected && e.UpdateDelta? && g.versionPrev < e.d.version {
      ClearDelta(g, e.d);
    } else if !g.connected && e.CloudConnected? {
      FlatNoClear(g.robots, ReportRobot);
    } else if e.Mesh? && e.m.RobotId? {
    } else if g.connected && e.Mesh? && e.m.MovementConfigured? {
      ClearAck(g, e.m.addr);
    } else if g.connected && e.Mesh? && e.m.TelemetryReported? {
      ClearTelemetry(g, e.m.addr, e.m.revolutions);
    } else {
      assert h.out[|g.out|..] == [];
    }
  }

  lemma ClearDelta(g: Gateway, d: Delta)
    requires g.versionPrev < d.version
    ensures g.out <= OnDelta(g, d).out && ClearToMove !in OnDelta(g, d).out[|g.out|..]
  {
    FlatNoClear(g.robots, (r: Robot) => MoveOut(r, d));
    FlatNoClear(Each(g.robots, (r: Robot) => Ordered(r, d)), (r: Robot) => LedOut(r, d));
  }

  lemma ClearAck(g: Gateway, addr: U16)
    requires Has(g.robots, addr)
    ensures var h := OnAck(g, addr);
            g.out <= h.out && (ClearToMove in h.out[|g.out|..] <==> AllIn(h.robots, Configured))
  {
    FlatNoClear(g.robots, (r: Robot) => if r.addr == addr then [ReportMovement(r.name, r.movement)] else []);
    var h := OnAck(g, addr);
    var tail := ReportMove(g.robots, addr) + [LedConfigure(addr)] +
                (if AllIn(h.robots, Configured) then [ClearToMove] else []);
    assert h.out == g.out + tail;
    if AllIn(h.robots, Configured) {
      assert tail[|tail| - 1] == ClearToMove;
    }
  }

  lemma ClearTelemetry(g: Gateway, addr: U16, n: Byte)
    requires Has(g.robots, addr)
    ensures g.out <= OnTelemetry(g, addr, n).out && ClearToMove !in OnTelemetry(g, addr, n).out[|g.out|..]
  {
    FlatNoClear(OnTelemetry(g, addr, n).robots, (r: Robot) => [ReportRevolutions(r.name, r.revolutions)]);
  }

  // CLEAR_TO_MOVE is submitted at exactly the acknowledgements, handled while
  // connected, after which every registered address was last marked by an
  // acknowledgement.
  lemma ClearExactly(es: seq<Event>, e: Event)
    requires !Run(es + [e]).faulted
    ensures Run(es).out <= Run(es + [e]).out
    ensures ClearToMove in Run(es + [e]).out[|Run(es).out|..] <==>
            ConnectedAfter(es) && e.Mesh? && e.m.MovementConfigured?
            && forall a: U16 | RegisteredIn(es, a) :: LastMark(es + [e], a) == Acked
  {
    RunSnoc(es, e);
    BarrierHistory(es);
    BarrierHistory(es + [e]);
    ClearNext(Run(es), e);
    if e.Mesh? && e.m.MovementConfigured? {
      AllConfigured(Run(es + [e]), es, e);
    }
  }

  lemma AllConfigured(h: Gateway, es: seq<Event>, e: Event)
    requires Agrees(h, es + [e]) && !(e.Mesh? && e.m.RobotId?)
    ensures AllIn(h.robots, Configured) <==> forall a: U16 | RegisteredIn(es, a) :: LastMark(es + [e], a) == Acked
  {
    forall a: U16 ensures Has(h.robots, a) <==> RegisteredIn(es, a) {
      MarkSnoc(es, e, a);
    }
    if AllIn(h.robots, Configured) {
      forall a: U16 | RegisteredIn(es, a) ensures LastMark(es + [e], a) == Acked {
        var i :| 0 <= i < |h.robots| && h.robots[i].addr == a;
      }
    } else {
      var i :| 0 <= i < |h.robots| && h.robots[i].state != Configured;
      var a := h.robots[i].addr;
      assert Has(h.robots, a) && RegisteredIn(es, a);
      assert LastMark(es + [e], a) != Acked;
    }
  }

  // An acknowledgement or report, handled while connected, from an address that
  // has not registered.
  predicate Stray(es: seq<Event>, e: Event) {
    ConnectedAfter(es) && e.Mesh? && (e.m.MovementConfigured? || e.m.TelemetryReported?) && !RegisteredIn(es, e.m.addr)
  }

  // The unchecked lookups go wrong exactly when a stray event has been handled.
  lemma {:induction false} FaultExactly(es: seq<Event>)
    ensures Run(es).faulted <==> exists k | 0 <= k < |es| :: Stray(es[..k], es[k])
  {
    if es != [] {
      var n := |es| - 1;
      var before, e := es[..n], es[n];
      FaultExactly(before);
      forall k | 0 <= k < n ensures before[..k] == es[..k] && before[k] == es[k] {}
      if Run(before).faulted {
        var k :| 0 <= k < n && Stray(before[..k], before[k]);
        assert Stray(es[..k], es[k]);
      } else {
        BarrierHistory(before);
        FaultNext(Run(before), before, e);
        assert Run(es).faulted <==> Stray(es[..n], es[n]);
        assert forall k | 0 <= k < n :: !Stray(before[..k], before[k]);
        forall k | 0 <= k < n ensures !Stray(es[..k], es[k]) {}
      }
    }
  }

  lemma FaultNext(g: Gateway, es: seq<Event>, e: Event)
    requires Agrees(g, es) && !g.faulted
    ensures Next(g, e).faulted <==> Stray(es, e)
  {}

  // The registry only grows, and nobody in it changes name or address.
  ghost predicate Extends(old_: seq<Robot>, new_: seq<Robot>) {
    |old_| <= |new_| && forall i | 0 <= i < |old_| :: new_[i].addr == old_[i].addr && new_[i].name == old_[i].name
  }

  lemma {:induction false} RegistryGrows(es: seq<Event>, more: seq<Event>)
    ensures Extends(Run(es).robots, Run(es + more).robots)
  {
    if more == [] {
      assert es + more == es;
    } else {
      var n := |more| - 1;
      assert es + more == (es + more[..n]) + [more[n]];
      RegistryGrows(es, more[..n]);
      RunSnoc(es + more[..n], more[n]);
      ExtendsNext(Run(es + more[..n]), more[n]);
    }
  }

  lemma ExtendsNext(g: Gateway, e: Event)
    ensures Extends(g.robots, Next(g, e).robots)
  {}

  // The report about one address is about the one robot that has it.
  lemma {:induction false} FlatOne(robots: seq<Robot>, addr: U16, k: nat)
    requires Distinct(robots) && k < |robots| && robots[k].addr == addr
    ensures ReportMove(robots, addr) == [ReportMovement(robots[k].name, robots[k].movement)]
  {
    var n := |robots| - 1;
    var f := (r: Robot) => if r.addr == addr then [ReportMovement(r.name, r.movement)] else [];
    if k == n {
      FlatNone(robots[..n], addr);
    } else {
      FlatOne(robots[..n], addr, k);
    }
  }

  lemma {:induction false} FlatNone(robots: seq<Robot>, addr: U16)
    requires forall i | 0 <= i < |robots| :: robots[i].addr != addr
    ensures ReportMove(robots, addr) == []
  {
    if robots != [] {
      FlatNone(robots[..|robots| - 1], addr);
    }
  }

  // Handling an acknowledgement or a report touches one robot and no other.
  lemma OneRobotTouched(es: seq<Event>, e: Event, addr: U16)
    requires !Run(es + [e]).faulted && ConnectedAfter(es) && (IsAck(e, addr) || IsTelemetry(e, addr))
    ensures var rs, qs := Run(es).robots, Run(es + [e]).robots;
            |qs| == |rs| && exists k ::
              && 0 <= k < |rs| && rs[k].addr == addr
              && qs[k] == (if IsAck(e, addr) then rs[k].(state := Configured, led := Led(150, 230, 0, 10))
                           else rs[k].(state := Ready, revolutions := e.m.revolutions, led := Led(500, 0, 230, 10)))
              && forall i | 0 <= i < |rs| && i != k :: qs[i] == rs[i]
  {
    RunSnoc(es, e);
    BarrierHistory(es);
    FaultNext(Run(es), es, e);
    hide Run, Next;
    var rs := Run(es).robots;
    assert Has(rs, addr);
    var k :| 0 <= k < |rs| && rs[k].addr == addr;
    TouchStep(Run(es), e, addr, k);
  }

  lemma TouchStep(g: Gateway, e: Event, addr: U16, k: nat)
    requires g.connected && !g.faulted && Distinct(g.robots) && k < |g.robots| && g.robots[k].addr == addr
    requires IsAck(e, addr) || IsTelemetry(e, addr)
    ensures Next(g, e).robots ==
            g.robots[k := if IsAck(e, addr) then g.robots[k].(state := Configured, led := Led(150, 230, 0, 10))
                          else g.robots[k].(state := Ready, revolutions := e.m.revolutions,
                                            led := Led(500, 0, 230, 10))]
  {
    assert Has(g.robots, addr);
    assert forall i | 0 <= i < |g.robots| && i != k :: g.robots[i].addr != addr;
    hide ReportMove, Flat;
  }
}
