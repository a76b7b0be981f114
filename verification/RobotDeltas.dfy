/** Versioned shadow deltas: which are accepted, and what each robot is told to do. */
module RobotDeltas {
  import opened Bytes
  import opened RobotRegistry
  import opened RobotHistory

  // A delta handled while the gateway was connected.
  predicate HandledDelta(es: seq<Event>, k: nat)
    requires k < |es|
  {
    es[k].UpdateDelta? && ConnectedAfter(es[..k])
  }

  // A strict left-to-right maximum, above zero, of the versions handled while connected.
  predicate Accepted(es: seq<Event>, k: nat)
    requires k < |es|
  {
    && HandledDelta(es, k) && es[k].d.version > 0
    && forall j | 0 <= j < k && HandledDelta(es, j) :: es[j].d.version < es[k].d.version
  }

  // An accepted delta that names r's movement, handled since r registered.
  predicate Commands(es: seq<Event>, k: nat, r: Robot)
    requires k < |es|
  {
    Accepted(es, k) && r.name in es[k].d.moves && RegisteredIn(es[..k], r.addr)
  }

  function Commanded(o: Order): Movement {
    Movement(o.time, o.angle, SPEED)
  }

  // The initial zeros if no delta has commanded r; else the order of the commanding
  // delta with the highest version.
  ghost predicate FollowsHighest(es: seq<Event>, r: Robot) {
    if forall k | 0 <= k < |es| :: !Commands(es, k, r) then r.movement == Movement(0, 0, SPEED)
    else exists k | 0 <= k < |es| ::
        && Commands(es, k, r)
        && (forall j | 0 <= j < |es| && Commands(es, j, r) :: es[j].d.version <= es[k].d.version)
        && r.movement == Commanded(es[k].d.moves[r.name])
  }

  lemma PrefixSame(es: seq<Event>, e: Event, k: nat)
    requires k < |es|
    ensures (es + [e])[k] == es[k] && (es + [e])[..k] == es[..k]
    ensures HandledDelta(es + [e], k) == HandledDelta(es, k)
  {
    assert (es + [e])[..k] == es[..k];
  }

  lemma AcceptedSame(es: seq<Event>, e: Event, k: nat)
    requires k < |es|
    ensures Accepted(es + [e], k) == Accepted(es, k)
    ensures forall r :: Commands(es + [e], k, r) == Commands(es, k, r)
  {
    PrefixSame(es, e, k);
    forall j | 0 <= j < k ensures HandledDelta(es + [e], j) == HandledDelta(es, j) && (es + [e])[j] == es[j] {
      PrefixSame(es, e, j);
    }
  }

  // The version kept is the highest handled while connected, or zero.
  ghost predicate VersionIsMax(es: seq<Event>, v: int) {
    && (forall j | 0 <= j < |es| && HandledDelta(es, j) :: es[j].d.version <= v)
    && v >= 0
    && (v > 0 ==> exists j | 0 <= j < |es| && HandledDelta(es, j) :: es[j].d.version == v)
  }

  lemma {:induction false} VersionKept(es: seq<Event>)
    requires !Run(es).faulted
    ensures VersionIsMax(es, Run(es).versionPrev)
  {
    if es != [] {
      var n := |es| - 1;
      var before, e := es[..n], es[n];
      assert es == before + [e];
      VersionKept(before);
      BarrierHistory(before);
      VersionNext(Run(before), before, e);
    }
  }

  lemma VersionNext(g: Gateway, es: seq<Event>, e: Event)
    requires VersionIsMax(es, g.versionPrev) && g.connected == ConnectedAfter(es) && !g.faulted
    ensures VersionIsMax(es + [e], Next(g, e).versionPrev)
  {
    var all, v := es + [e], Next(g, e).versionPrev;
    forall j | 0 <= j < |es| ensures HandledDelta(all, j) == HandledDelta(es, j) && all[j] == es[j] {
      PrefixSame(es, e, j);
    }
    assert all[..|es|] == es;
    assert v == if HandledDelta(all, |es|) && e.d.version > g.versionPrev then e.d.version else g.versionPrev;
    if v > 0 && v == g.versionPrev {
      var j :| 0 <= j < |es| && HandledDelta(es, j) && es[j].d.version == v;
      assert HandledDelta(all, j) && all[j].d.version == v;
    }
  }

  // Being such a maximum is exceeding the version kept.
  lemma AcceptedIsNewMax(es: seq<Event>, d: Delta, v: int)
    requires VersionIsMax(es, v)
    ensures Accepted(es + [UpdateDelta(d)], |es|) <==> ConnectedAfter(es) && d.version > v
  {
    var all := es + [UpdateDelta(d)];
    assert all[..|es|] == es;
    forall j | 0 <= j < |es| ensures HandledDelta(all, j) == HandledDelta(es, j) && all[j] == es[j] {
      PrefixSame(es, UpdateDelta(d), j);
    }
  }

  // A delta is acted on exactly when it is such a maximum; any other leaves the
  // gateway as it was.
  lemma AcceptedExactly(es: seq<Event>, d: Delta)
    requires !Run(es).faulted
    ensures Accepted(es + [UpdateDelta(d)], |es|) <==>
            Run(es).connected && d.version > Run(es).versionPrev
    ensures !Accepted(es + [UpdateDelta(d)], |es|) ==> Run(es + [UpdateDelta(d)]) == Run(es)
    ensures Accepted(es + [UpdateDelta(d)], |es|) ==> Run(es + [UpdateDelta(d)]).versionPrev == d.version
  {
    RunSnoc(es, UpdateDelta(d));
    VersionKept(es);
    BarrierHistory(es);
    hide Accepted, Run, VersionIsMax;
    AcceptedIsNewMax(es, d, Run(es).versionPrev);
  }

  // A robot the event does not command follows what it followed before.
  lemma FollowsKept(es: seq<Event>, e: Event, r: Robot, q: Robot)
    requires FollowsHighest(es, r)
    requires q.name == r.name && q.addr == r.addr && q.movement == r.movement
    requires !Commands(es + [e], |es|, q)
    ensures FollowsHighest(es + [e], q)
  {
    var all := es + [e];
    forall k | 0 <= k < |es| ensures Commands(all, k, q) == Commands(es, k, r) && all[k] == es[k] {
      AcceptedSame(es, e, k);
    }
    if k :| 0 <= k < |es| && Commands(es, k, r) && r.movement == Commanded(es[k].d.moves[r.name])
            && (forall j | 0 <= j < |es| && Commands(es, j, r) :: es[j].d.version <= es[k].d.version) {
      assert Commands(all, k, q);
    }
  }

  // A robot the event commands follows the event.
  lemma FollowsNew(es: seq<Event>, e: Event, q: Robot)
    requires Commands(es + [e], |es|, q) && q.movement == Commanded(e.d.moves[q.name])
    ensures FollowsHighest(es + [e], q)
  {
    var all := es + [e];
    forall j | 0 <= j < |all| && Commands(all, j, q) ensures all[j].d.version <= e.d.version {
      if j < |es| {
        assert all[..|es|][..j] == all[..j];
        assert HandledDelta(all, j);
      }
    }
    assert all[|es|] == e;
  }

  lemma {:induction false} RegisteredMonotone(es: seq<Event>, k: nat, a: U16)
    requires k <= |es| && RegisteredIn(es[..k], a)
    ensures RegisteredIn(es, a)
  {
    if k == |es| {
      assert es[..k] == es;
    } else {
      var n := |es| - 1;
      assert es[..n][..k] == es[..k];
      RegisteredMonotone(es[..n], k, a);
    }
  }

  // A robot that joins follows nothing yet.
  lemma FollowsNothing(es: seq<Event>, e: Event, q: Robot)
    requires !RegisteredIn(es, q.addr) && !e.UpdateDelta? && q.movement == Movement(0, 0, SPEED)
    ensures FollowsHighest(es + [e], q)
  {
    var all := es + [e];
    forall k | 0 <= k < |all| ensures !Commands(all, k, q) {
      if Commands(all, k, q) && k < |es| {
        PrefixSame(es, e, k);
        RegisteredMonotone(es, k, q.addr);
      }
    }
  }

  // Every robot's movement is that of the highest-version accepted delta that names
  // it and was handled since it registered, or the initial zeros; always at speed 100.
  lemma {:induction false} MovementsFollowDeltas(es: seq<Event>)
    requires !Run(es).faulted
    ensures forall i | 0 <= i < |Run(es).robots| :: FollowsHighest(es, Run(es).robots[i])
    ensures forall i | 0 <= i < |Run(es).robots| :: Run(es).robots[i].movement.speed == SPEED
  {
    if es != [] {
      var n := |es| - 1;
      var before, e := es[..n], es[n];
      assert es == before + [e];
      MovementsFollowDeltas(before);
      BarrierHistory(before);
      BarrierHistory(es);
      VersionKept(before);
      forall i | 0 <= i < |Run(es).robots|
        ensures FollowsHighest(es, Run(es).robots[i]) && Run(es).robots[i].movement.speed == SPEED
      {
        FollowsNext(Run(before), before, e, i);
      }
    }
  }

  // What one event does to names, addresses and movements.
  lemma MovementNext(g: Gateway, e: Event, i: nat)
    requires !g.faulted && i < |Next(g, e).robots|
    ensures var q := Next(g, e).robots[i];
            if i >= |g.robots| then
              !e.UpdateDelta? && !Has(g.robots, q.addr) && q.movement == Movement(0, 0, SPEED)
            else
              && q.name == g.robots[i].name && q.addr == g.robots[i].addr
              && q.movement ==
                 if e.UpdateDelta? && g.connected && e.d.version > g.versionPrev && q.name in e.d.moves
                 then Commanded(e.d.moves[q.name]) else g.robots[i].movement
  {}

  lemma FollowsNext(g: Gateway, es: seq<Event>, e: Event, i: nat)
    requires Agrees(g, es) && !g.faulted && VersionIsMax(es, g.versionPrev)
    requires forall j | 0 <= j < |g.robots| :: FollowsHighest(es, g.robots[j]) && g.robots[j].movement.speed == SPEED
    requires i < |Next(g, e).robots|
    ensures FollowsHighest(es + [e], Next(g, e).robots[i])
    ensures Next(g, e).robots[i].movement.speed == SPEED
  {
    MovementNext(g, e, i);
    var q := Next(g, e).robots[i];
    assert (es + [e])[..|es|] == es;
    if e.UpdateDelta? {
      AcceptedIsNewMax(es, e.d, g.versionPrev);
      assert Has(g.robots, g.robots[i].addr);
    }
    hide Accepted, FollowsHighest, VersionIsMax, RegisteredIn, Next;
    if i >= |g.robots| {
      FollowsNothing(es, e, q);
    } else if Commands(es + [e], |es|, q) {
      FollowsNew(es, e, q);
    } else {
      FollowsKept(es, e, g.robots[i], q);
    }
  }
}
