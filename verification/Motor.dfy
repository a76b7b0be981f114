/** The robot's motor machine: message handler, stop work item and event queue. */
module Motor {
  import opened Bytes

  datatype Mode = Standby | Turning | Moving

  datatype Delay = Usec(us: int) | Msec(ms: U32)

  datatype Drive = Drive(speed: Byte, forward: bool)

  datatype Input = Move(m: Movement) | Button(num: nat, press: bool) | Other

  datatype Event = External(i: Input) | MovementDone | MovementReport(revolutions: Byte)

  datatype State = State(
    mode: Mode,
    stored: Movement,
    revolutions: Byte,       // the static revolution_report
    work: Option<Delay>,     // stop_motor_work, when scheduled
    queue: seq<Event>,       // event manager and message queue together
    a: Drive,
    b: Drive,
    accepted: seq<Movement>, // history: moves taken in STANDBY,
    schedules: seq<Delay>,   // work items actually scheduled,
    reports: seq<Byte>       // and reports emitted
  )

  datatype Step = Arrive(i: Input) | Fire | Process

  const STOPPED := Drive(0, true)
  const INIT := State(Standby, Movement(0, 0, 0), 1, None, [], STOPPED, STOPPED, [], [], [])

  // int32_t arithmetic, overflow wrapping.
  function Wrap(x: int): I32 {
    (x + 0x8000_0000) % 0x1_0000_0000 - 0x8000_0000
  }

  function CAbs(x: I32): I32 {
    if x < 0 then Wrap(-(x as int)) else x
  }

  function Clamp(angle: I32): I32 {
    if CAbs(angle) > 179 then 180 else angle
  }

  function TurnDelay(angle: I32): Delay {
    if angle == 0 then Usec(1000) else Usec(Wrap(CAbs(Clamp(angle)) * 3000))
  }

  // How long a turn takes: the schedule is in bounds for every angle but -2^31,
  // the one whose absolute value does not fit.
  lemma TurnDelayBounds(angle: I32)
    ensures 1000 <= TurnDelay(angle).us <= 540_000 <==> angle != -0x8000_0000
    ensures TurnDelay(0) == Usec(1000)
    ensures angle != -0x8000_0000 && angle != 0 ==>
              TurnDelay(angle).us ==
              3000 * (if -180 < angle < 0 then -angle else if 0 < angle < 180 then angle else 180)
  {
    var d := CAbs(Clamp(angle)) as int;
    if angle != -0x8000_0000 {
      assert Wrap(d * 3000) == d * 3000;
    }
  }

  // k_work_schedule: nothing happens when the item is already pending.
  function Schedule(s: State, d: Delay): State {
    if s.work.Some? then s else s.(work := Some(d), schedules := s.schedules + [d])
  }

  function Turn(s: State, angle: I32): State {
    if angle == 0 then Schedule(s, TurnDelay(angle))
    else
      var left := Clamp(angle) < 0;
      Schedule(s.(a := Drive(100, left), b := Drive(100, !left)), TurnDelay(angle))
  }

  function DriveForward(s: State, time: U32, speed: Byte): State {
    Schedule(s.(a := Drive(speed, true), b := Drive(speed, true)), Msec(time))
  }

  function OnState(s: State, e: Event): State {
    match s.mode
    case Standby =>
      if e.External? && e.i.Move? then
        Turn(s.(stored := e.i.m, mode := Turning, accepted := s.accepted + [e.i.m]), e.i.m.angle)
      else s
    case Turning =>
      if e.MovementDone? then DriveForward(s.(mode := Moving), s.stored.time, s.stored.speed) else s
    case Moving =>
      if e.MovementDone? then
        s.(mode := Standby, revolutions := (s.revolutions + 1) % 0x100,
           queue := s.queue + [MovementReport(s.revolutions)], reports := s.reports + [s.revolutions])
      else s
  }

  function OnAllStates(s: State, e: Event): State {
    if !(e.External? && e.i.Button? && e.i.press) then s
    else if e.i.num == 1 then s.(a := Drive(100, true), b := Drive(100, true))
    else if e.i.num == 2 then s.(a := STOPPED, b := STOPPED)
    else if e.i.num == 3 then s.(a := Drive(100, false), b := Drive(100, false))
    else s
  }

  function Next(s: State, step: Step): State {
    match step
    case Arrive(i) => s.(queue := s.queue + [External(i)])
    case Fire =>
      if s.work.None? then s
      else s.(work := None, a := STOPPED, b := STOPPED, queue := s.queue + [MovementDone])
    case Process =>
      if s.queue == [] then s
      else OnAllStates(OnState(s.(queue := s.queue[1..]), s.queue[0]), s.queue[0])
  }

  function Run(steps: seq<Step>): State {
    if steps == [] then INIT else Next(Run(steps[..|steps| - 1]), steps[|steps| - 1])
  }

  function Dones(q: seq<Event>): nat {
    if q == [] then 0 else (if q[0].MovementDone? then 1 else 0) + Dones(q[1..])
  }

  lemma {:induction false} DonesSnoc(q: seq<Event>, e: Event)
    ensures Dones(q + [e]) == Dones(q) + (if e.MovementDone? then 1 else 0)
  {
    if q == [] {
      assert q + [e] == [e];
    } else {
      assert (q + [e])[1..] == q[1..] + [e];
      DonesSnoc(q[1..], e);
    }
  }

  // Exactly one stop is on its way, as a pending work item or as a queued event,
  // while a move is running, and none otherwise.
  predicate OneToken(s: State) {
    (if s.work.Some? then 1 else 0) + Dones(s.queue) == (if s.mode == Standby then 0 else 1)
  }

  lemma NextKeepsToken(s: State, step: Step)
    requires OneToken(s)
    ensures OneToken(Next(s, step))
  {
    match step
    case Arrive(i) => DonesSnoc(s.queue, External(i));
    case Fire => DonesSnoc(s.queue, MovementDone);
    case Process => DonesSnoc(s.queue[if s.queue == [] then 0 else 1..], MovementReport(s.revolutions));
  }

  lemma {:induction false} TokenInvariant(steps: seq<Step>)
    ensures OneToken(Run(steps))
  {
    if steps != [] {
      TokenInvariant(steps[..|steps| - 1]);
      NextKeepsToken(Run(steps[..|steps| - 1]), steps[|steps| - 1]);
    }
  }

  // The two delays of each move, in the order the moves were accepted.
  function Plan(ms: seq<Movement>): seq<Delay> {
    if ms == [] then []
    else Plan(ms[..|ms| - 1]) + [TurnDelay(ms[|ms| - 1].angle), Msec(ms[|ms| - 1].time)]
  }

  predicate Conserved(s: State) {
    && |s.accepted| == |s.reports| + (if s.mode == Standby then 0 else 1)
    && s.revolutions == (|s.reports| + 1) % 0x100
    && (forall k | 0 <= k < |s.reports| :: s.reports[k] == (k + 1) % 0x100)
    && (s.mode != Standby ==> s.stored == s.accepted[|s.accepted| - 1])
  }

  // Every delay planned was scheduled, none was swallowed by a pending item, and
  // while turning the drive of the last move is still to come.
  predicate OnPlan(s: State) {
    s.schedules + (if s.mode == Turning && s.accepted != [] then [Msec(s.stored.time)] else []) == Plan(s.accepted)
  }

  lemma OnlyWheels(s: State, e: Event)
    ensures var t := OnAllStates(s, e); t == s.(a := t.a, b := t.b)
  {}

  // A step is its mode's handler, as far as anything but the wheels goes.
  lemma ProcessStep(s: State)
    requires s.queue != []
    ensures var t := OnState(s.(queue := s.queue[1..]), s.queue[0]);
            var u := Next(s, Process);
            u == t.(a := u.a, b := u.b)
  {
    hide OnState;
    OnlyWheels(OnState(s.(queue := s.queue[1..]), s.queue[0]), s.queue[0]);
  }

  lemma NextConserves(s: State, step: Step)
    requires OneToken(s) && Conserved(s)
    ensures Conserved(Next(s, step))
  {
    if step.Process? && s.queue != [] {
      ProcessStep(s);
    }
    hide TurnDelay, Clamp, OnAllStates;
  }

  lemma NextKeepsPlan(s: State, step: Step)
    requires OneToken(s) && Conserved(s) && OnPlan(s)
    ensures OnPlan(Next(s, step))
  {
    if step.Process? && s.queue != [] {
      ProcessStep(s);
    }
    hide TurnDelay, Clamp, OnAllStates;
  }

  // What every reachable state satisfies.
  predicate Good(s: State) { OneToken(s) && Conserved(s) && OnPlan(s) }

  lemma NextKeepsGood(s: State, step: Step)
    requires Good(s)
    ensures Good(Next(s, step))
  {
    hide Next, OneToken, Conserved, OnPlan;
    NextKeepsToken(s, step);
    NextConserves(s, step);
    NextKeepsPlan(s, step);
  }

  lemma WheelsDoNotMatter(s: State, a: Drive, b: Drive)
    requires Good(s)
    ensures Good(s.(a := a, b := b))
  {}

  // The handler of the current mode, on its own.
  lemma OnStateKeepsGood(s: State, e: Event)
    requires Good(s.(queue := [e] + s.queue))
    ensures Good(OnState(s, e))
  {
    var before := s.(queue := [e] + s.queue);
    assert before.queue[1..] == s.queue && before.(queue := s.queue) == s;
    NextKeepsGood(before, Process);
    var t := OnState(s, e);
    WheelsDoNotMatter(OnAllStates(t, e), t.a, t.b);
    hide Good, OnState;
  }

  // Conservation over every run: accepted moves are reported or running, the k-th
  // report carries k mod 256, and each move got its own turn and its own drive.
  lemma {:induction false} Conservation(steps: seq<Step>)
    ensures Conserved(Run(steps)) && OnPlan(Run(steps))
  {
    if steps != [] {
      TokenInvariant(steps[..|steps| - 1]);
      Conservation(steps[..|steps| - 1]);
      NextKeepsGood(Run(steps[..|steps| - 1]), steps[|steps| - 1]);
    }
  }

  // ---- What the steps say about wheels, work item and reports.

  // The event the step takes off the queue.
  function Head(s: State, step: Step): Option<Event> {
    if step.Process? && s.queue != [] then Some(s.queue[0]) else None
  }

  // The last thing that touched the wheels: the stop, a turn, a drive, or a button.
  function Wheels(steps: seq<Step>): (Drive, Drive) {
    if steps == [] then (Drive(0, true), Drive(0, true))
    else
      var s, step := Run(steps[..|steps| - 1]), steps[|steps| - 1];
      var e := Head(s, step);
      if step.Fire? && s.work.Some? then (Drive(0, true), Drive(0, true))
      else if e.None? then Wheels(steps[..|steps| - 1])
      else
        match e.value
        case External(Button(num, press)) =>
          if press && num == 1 then (Drive(100, true), Drive(100, true))
          else if press && num == 2 then (Drive(0, true), Drive(0, true))
          else if press && num == 3 then (Drive(100, false), Drive(100, false))
          else Wheels(steps[..|steps| - 1])
        case External(Move(m)) =>
          if s.mode != Standby || m.angle == 0 then Wheels(steps[..|steps| - 1])
          else
            var left := -180 < m.angle < 0 || m.angle == -0x8000_0000;
            (Drive(100, left), Drive(100, !left))
        case MovementDone =>
          if s.mode == Turning then (Drive(s.stored.speed, true), Drive(s.stored.speed, true))
          else Wheels(steps[..|steps| - 1])
        case _ => Wheels(steps[..|steps| - 1])
  }

  lemma WheelsStep(s: State, step: Step)
    ensures var t, e := Next(s, step), Head(s, step);
            (t.a, t.b) ==
            if step.Fire? && s.work.Some? then (Drive(0, true), Drive(0, true))
            else if e.Some? && e.value.External? && e.value.i.Button? && e.value.i.press && e.value.i.num == 1
            then (Drive(100, true), Drive(100, true))
            else if e.Some? && e.value.External? && e.value.i.Button? && e.value.i.press && e.value.i.num == 2
            then (Drive(0, true), Drive(0, true))
            else if e.Some? && e.value.External? && e.value.i.Button? && e.value.i.press && e.value.i.num == 3
            then (Drive(100, false), Drive(100, false))
            else if e.Some? && IsMove(e.value) && s.mode == Standby && e.value.i.m.angle != 0
            then (Drive(100, Clamp(e.value.i.m.angle) < 0), Drive(100, !(Clamp(e.value.i.m.angle) < 0)))
            else if e.Some? && e.value.MovementDone? && s.mode == Turning
            then (Drive(s.stored.speed, true), Drive(s.stored.speed, true))
            else (s.a, s.b)
  {
    hide TurnDelay, Clamp;
  }

  // Over every run, buttons or not, the wheels do what last touched them.
  lemma {:induction false} WheelsFollowSteps(steps: seq<Step>)
    ensures (Run(steps).a, Run(steps).b) == Wheels(steps)
  {
    if steps != [] {
      var s, step := Run(steps[..|steps| - 1]), steps[|steps| - 1];
      WheelsFollowSteps(steps[..|steps| - 1]);
      WheelsStep(s, step);
      if Head(s, step).Some? && IsMove(s.queue[0]) {
        ClampSign(s.queue[0].i.m.angle);
      }
      assert Run(steps) == Next(s, step);
      hide Next, Run, Clamp;
    }
  }

  function ReportOf(e: Event): seq<Byte> {
    if e.MovementReport? then [e.revolutions] else []
  }

  function ReportsIn(q: seq<Event>): seq<Byte> {
    if q == [] then [] else ReportOf(q[0]) + ReportsIn(q[1..])
  }

  lemma {:induction false} ReportsSnoc(q: seq<Event>, e: Event)
    ensures ReportsIn(q + [e]) == ReportsIn(q) + ReportOf(e)
  {
    hide ReportOf;
    if q == [] {
      assert q + [e] == [e];
      assert ReportsIn([e]) == ReportOf(e) + ReportsIn([]);
    } else {
      assert (q + [e])[1..] == q[1..] + [e];
      ReportsSnoc(q[1..], e);
      assert ReportOf(q[0]) + (ReportsIn(q[1..]) + ReportOf(e)) == ReportOf(q[0]) + ReportsIn(q[1..]) + ReportOf(e);
    }
  }

  // The reports that have left the queue for the mesh module.
  function ReportsOut(steps: seq<Step>): seq<Byte> {
    if steps == [] then []
    else
      var e := Head(Run(steps[..|steps| - 1]), steps[|steps| - 1]);
      if e.Some? then ReportsOut(steps[..|steps| - 1]) + ReportOf(e.value) else ReportsOut(steps[..|steps| - 1])
  }

  lemma ReportsStep(s: State, step: Step)
    ensures var t, e := Next(s, step), Head(s, step);
            if e.Some? && e.value.MovementDone? && s.mode == Moving then
              t.queue == s.queue[1..] + [MovementReport(s.revolutions)] && t.reports == s.reports + [s.revolutions]
            else
              && t.reports == s.reports
              && (if e.Some? then t.queue == s.queue[1..]
                  else if step.Arrive? then t.queue == s.queue + [External(step.i)]
                  else if step.Fire? && s.work.Some? then t.queue == s.queue + [MovementDone]
                  else t.queue == s.queue)
  {
    hide TurnDelay, Clamp;
  }

  // The work item pending is the last one scheduled.
  predicate PendingIsLast(s: State) {
    s.work.Some? ==> s.schedules != [] && s.work.value == s.schedules[|s.schedules| - 1]
  }

  lemma OutStep(s: State, step: Step, out: seq<Byte>)
    requires out + ReportsIn(s.queue) == s.reports
    ensures var t, e := Next(s, step), Head(s, step);
            (if e.Some? then out + ReportOf(e.value) else out) + ReportsIn(t.queue) == t.reports
  {
    ReportsStep(s, step);
    hide Next, ReportOf;
    var t := Next(s, step);
    if Head(s, step).Some? {
      var e, rest := s.queue[0], s.queue[1..];
      assert out + (ReportOf(e) + ReportsIn(rest)) == (out + ReportOf(e)) + ReportsIn(rest);
      if e.MovementDone? && s.mode == Moving {
        ReportsSnoc(rest, MovementReport(s.revolutions));
        ReportsAreReported(s.revolutions);
        hide ReportsIn;
        assert (out + ReportOf(e)) + (ReportsIn(rest) + [s.revolutions]) == s.reports + [s.revolutions];
      }
    } else if step.Arrive? {
      ReportsSnoc(s.queue, External(step.i));
      OthersAreNot(External(step.i));
    } else {
      ReportsSnoc(s.queue, MovementDone);
      OthersAreNot(MovementDone);
    }
  }

  lemma ReportsAreReported(n: Byte)
    ensures ReportOf(MovementReport(n)) == [n]
  {}

  lemma OthersAreNot(e: Event)
    requires !e.MovementReport?
    ensures ReportOf(e) == [] && forall q: seq<Byte> :: q + ReportOf(e) == q
  {}

  // Over every run the reports sent out and queued are those counted, in order, and
  // the stop pending is the last one scheduled.
  lemma {:induction false} ReportsGoOut(steps: seq<Step>)
    ensures ReportsOut(steps) + ReportsIn(Run(steps).queue) == Run(steps).reports
    ensures PendingIsLast(Run(steps))
  {
    if steps != [] {
      var early, step := steps[..|steps| - 1], steps[|steps| - 1];
      ReportsGoOut(early);
      OutStep(Run(early), step, ReportsOut(early));
      PendingStep(Run(early), step);
      assert Run(steps) == Next(Run(early), step);
      hide Next, Run, PendingIsLast, ReportsIn, ReportOf, Head;
    }
  }

  lemma PendingStep(s: State, step: Step)
    requires PendingIsLast(s)
    ensures PendingIsLast(Next(s, step))
  {
    hide TurnDelay, Clamp;
  }

  predicate IsMove(e: Event) { e.External? && e.i.Move? }

  // The moves waiting in a queue.
  function Waiting(q: seq<Event>): nat {
    if q == [] then 0 else (if IsMove(q[0]) then 1 else 0) + Waiting(q[1..])
  }

  // The moves a run brought in.
  function Arrived(steps: seq<Step>): nat {
    if steps == [] then 0
    else Arrived(steps[..|steps| - 1]) + if steps[|steps| - 1].Arrive? && steps[|steps| - 1].i.Move? then 1 else 0
  }

  // The moves taken off the queue in STANDBY.
  function AcceptedIn(steps: seq<Step>): seq<Movement> {
    if steps == [] then []
    else
      var s, step := Run(steps[..|steps| - 1]), steps[|steps| - 1];
      var e := Head(s, step);
      if e.Some? && IsMove(e.value) && s.mode == Standby then AcceptedIn(steps[..|steps| - 1]) + [e.value.i.m]
      else AcceptedIn(steps[..|steps| - 1])
  }

  lemma AcceptStep(s: State, step: Step)
    ensures var t, e := Next(s, step), Head(s, step);
            t.accepted ==
            if e.Some? && IsMove(e.value) && s.mode == Standby then s.accepted + [e.value.i.m] else s.accepted
  {
    hide TurnDelay, Clamp;
  }

  // Over every run the moves carried out are exactly those taken off the queue in
  // STANDBY, as they came.
  lemma {:induction false} AcceptedAsCame(steps: seq<Step>)
    ensures Run(steps).accepted == AcceptedIn(steps)
  {
    if steps != [] {
      var s, step := Run(steps[..|steps| - 1]), steps[|steps| - 1];
      AcceptedAsCame(steps[..|steps| - 1]);
      AcceptStep(s, step);
      assert Run(steps) == Next(s, step);
      hide Next, Run, Head;
    }
  }

  // The step takes a move off the queue while another is running.
  predicate Drops(s: State, step: Step) {
    step.Process? && s.queue != [] && IsMove(s.queue[0]) && s.mode != Standby
  }

  function Dropped(steps: seq<Step>): nat {
    if steps == [] then 0
    else Dropped(steps[..|steps| - 1]) + if Drops(Run(steps[..|steps| - 1]), steps[|steps| - 1]) then 1 else 0
  }

  lemma {:induction false} WaitingSnoc(q: seq<Event>, e: Event)
    ensures Waiting(q + [e]) == Waiting(q) + (if IsMove(e) then 1 else 0)
  {
    if q == [] {
      assert q + [e] == [e];
    } else {
      assert (q + [e])[1..] == q[1..] + [e];
      WaitingSnoc(q[1..], e);
    }
  }

  lemma Accepts(s: State, e: Event)
    ensures var t := OnAllStates(OnState(s, e), e);
            && |t.accepted| == |s.accepted| + (if s.mode == Standby && IsMove(e) then 1 else 0)
            && (t.queue == s.queue || t.queue == s.queue + [MovementReport(s.revolutions)])
  {
    hide TurnDelay, Clamp;
  }

  lemma MovesStep(s: State, step: Step)
    ensures var t := Next(s, step);
            |t.accepted| + Waiting(t.queue) + (if Drops(s, step) then 1 else 0) ==
            |s.accepted| + Waiting(s.queue) + (if step.Arrive? && step.i.Move? then 1 else 0)
  {
    hide OnState, OnAllStates;
    match step
    case Arrive(i) => WaitingSnoc(s.queue, External(i));
    case Fire => WaitingSnoc(s.queue, MovementDone);
    case Process =>
      if s.queue != [] {
        WaitingSnoc(s.queue[1..], MovementReport(s.revolutions));
        Accepts(s.(queue := s.queue[1..]), s.queue[0]);
      }
  }

  // Over every run each move that arrived is queued, accepted, or was dropped because
  // it was handled outside STANDBY; so at most as many are reported as arrived, and
  // the moves missing are exactly those queued, dropped or still running.
  lemma {:induction false} MovesAccountedFor(steps: seq<Step>)
    ensures var s := Run(steps);
            && Arrived(steps) == |s.accepted| + Waiting(s.queue) + Dropped(steps)
            && Arrived(steps) - |s.reports| ==
               Waiting(s.queue) + Dropped(steps) + (if s.mode == Standby then 0 else 1)
  {
    Conservation(steps);
    if steps != [] {
      MovesAccountedFor(steps[..|steps| - 1]);
      MovesStep(Run(steps[..|steps| - 1]), steps[|steps| - 1]);
    }
    hide Next, Waiting, Drops;
  }

  predicate Drives(i: Input) {
    i.Button? && i.press && (i.num == 1 || i.num == 3)
  }

  // Nobody has pressed a button that drives the motors by hand.
  predicate HandsOff(steps: seq<Step>) {
    forall k | 0 <= k < |steps| :: steps[k].Arrive? ==> !Drives(steps[k].i)
  }

  predicate QueueHandsOff(s: State) {
    forall k | 0 <= k < |s.queue| :: s.queue[k].External? ==> !Drives(s.queue[k].i)
  }

  predicate MotorsRest(s: State) {
    s.work.None? ==> s.a == STOPPED && s.b == STOPPED
  }

  // Stopped whenever no stop is scheduled, in particular in STANDBY.
  lemma {:induction false} StoppedAtRest(steps: seq<Step>)
    requires HandsOff(steps)
    ensures QueueHandsOff(Run(steps)) && MotorsRest(Run(steps))
    ensures Run(steps).mode == Standby ==> Run(steps).a == STOPPED && Run(steps).b == STOPPED
  {
    if steps != [] {
      StoppedAtRest(steps[..|steps| - 1]);
    }
    TokenInvariant(steps);
  }

  // Nobody has pressed a button that touches the motors at all.
  predicate NoPresses(steps: seq<Step>) {
    forall k | 0 <= k < |steps| :: steps[k].Arrive? ==> !(steps[k].i.Button? && steps[k].i.press)
  }

  predicate QueueNoPresses(s: State) {
    forall k | 0 <= k < |s.queue| ::
      s.queue[k].External? ==> !(s.queue[k].i.Button? && s.queue[k].i.press)
  }

  // What the wheels do while the stop of the current phase is pending: turn in
  // place, left only for angles in -179..-1, then both forward at the stored speed.
  predicate MotorsFollow(s: State) {
    if s.work.None? then s.a == STOPPED && s.b == STOPPED
    else if s.mode == Moving then s.a == s.b == Drive(s.stored.speed, true)
    else if s.stored.angle == 0 then s.a == STOPPED && s.b == STOPPED
    else
      var left := -180 < s.stored.angle < 0 || s.stored.angle == -0x8000_0000;
      s.a == Drive(100, left) && s.b == Drive(100, !left)
  }

  lemma ClampSign(angle: I32)
    ensures Clamp(angle) < 0 <==> -180 < angle < 0 || angle == -0x8000_0000
  {}

  lemma {:induction false} MotorsFollowMove(steps: seq<Step>)
    requires NoPresses(steps)
    ensures QueueNoPresses(Run(steps)) && MotorsFollow(Run(steps))
  {
    if steps != [] {
      var before := steps[..|steps| - 1];
      TokenInvariant(before);
      TokenInvariant(steps);
      MotorsFollowMove(before);
      ClampSign(Run(steps).stored.angle);
      hide Clamp, TurnDelay, Dones;
    }
  }

  // The module's globals, work item and queue.
  class MotorModule {
    var mode: Mode
    var movement: Movement
    var revolutionReport: Byte
    var stopWork: Option<Delay>
    var msgq: seq<Event>
    var motorA: Drive
    var motorB: Drive

    ghost var accepted: seq<Movement>
    ghost var schedules: seq<Delay>
    ghost var reports: seq<Byte>

    ghost function Abs(): State
      reads this
    {
      State(mode, movement, revolutionReport, stopWork, msgq, motorA, motorB, accepted, schedules, reports)
    }

    ghost predicate Valid()
      reads this
    {
      Good(Abs())
    }

    // In the middle of a turn: valid again if e went back to the head of the queue.
    ghost predicate Taken(e: Event)
      reads this
    {
      Good(Abs().(queue := [e] + msgq))
    }

    constructor ()
      ensures Valid() && Abs() == INIT
    {
      mode, movement, revolutionReport := Standby, Movement(0, 0, 0), 1;
      stopWork, msgq, motorA, motorB := None, [], STOPPED, STOPPED;
      accepted, schedules, reports := [], [], [];
    }

    // k_work_schedule; the item is free whenever this module asks.
    method ScheduleStop(d: Delay)
      requires stopWork.None?
      modifies this
      ensures Abs() == Schedule(old(Abs()), d)
      ensures stopWork == Some(d)
    {
      if stopWork.None? {
        stopWork := Some(d);
        schedules := schedules + [d];
      }
    }

    // stop_motor_work_fn.
    method StopMotorWork()
      requires Valid() && stopWork.Some?
      modifies this
      ensures Valid() && Abs() == Next(old(Abs()), Fire)
    {
      NextKeepsGood(Abs(), Fire);
      stopWork := None;
      motorA, motorB := STOPPED, STOPPED;
      msgq := msgq + [MovementDone];
    }

    method TurnDegrees(degrees: I32)
      requires stopWork.None?
      modifies this
      ensures Abs() == Turn(old(Abs()), degrees)
      ensures stopWork == Some(TurnDelay(degrees))
    {
      if degrees == 0 {
        ScheduleStop(Usec(1000));
        return;
      }
      var angle := degrees;
      if CAbs(angle) > 179 {
        angle := 180;
      }
      if angle < 0 {
        motorA, motorB := Drive(100, true), Drive(100, false);
      } else {
        motorA, motorB := Drive(100, false), Drive(100, true);
      }
      ScheduleStop(Usec(Wrap(CAbs(angle) * 3000)));
    }

    method OnModeStandby(e: Event)
      requires Taken(e) && mode == Standby
      modifies this
      ensures Valid() && Abs() == OnState(old(Abs()), e)
    {
      OnStateKeepsGood(Abs(), e);
      if e.External? && e.i.Move? {
        movement, mode := e.i.m, Turning;
        accepted := accepted + [e.i.m];
        TurnDegrees(e.i.m.angle);
      }
    }

    method OnModeTurning(e: Event)
      requires Taken(e) && mode == Turning
      modifies this
      ensures Valid() && Abs() == OnState(old(Abs()), e)
    {
      OnStateKeepsGood(Abs(), e);
      if e.MovementDone? {
        mode := Moving;
        motorA, motorB := Drive(movement.speed, true), Drive(movement.speed, true);
        ScheduleStop(Msec(movement.time));
      }
    }

    method OnModeMoving(e: Event)
      requires Taken(e) && mode == Moving
      modifies this
      ensures Valid() && Abs() == OnState(old(Abs()), e)
    {
      OnStateKeepsGood(Abs(), e);
      if e.MovementDone? {
        mode := Standby;
        msgq := msgq + [MovementReport(revolutionReport)];
        reports := reports + [revolutionReport];
        revolutionReport := (revolutionReport + 1) as int % 0x100;
      }
    }

    method OnEveryMode(e: Event)
      requires Valid()
      modifies this
      ensures Valid() && Abs() == OnAllStates(old(Abs()), e)
    {
      ghost var t := OnAllStates(Abs(), e);
      WheelsDoNotMatter(Abs(), t.a, t.b);
      if e.External? && e.i.Button? && e.i.press {
        if e.i.num == 1 {
          motorA, motorB := Drive(100, true), Drive(100, true);
        } else if e.i.num == 2 {
          motorA, motorB := STOPPED, STOPPED;
        } else if e.i.num == 3 {
          motorA, motorB := Drive(100, false), Drive(100, false);
        }
      }
    }

    // One turn of module_thread_fn.
    method ThreadStep()
      requires Valid() && msgq != []
      modifies this
      ensures Valid() && Abs() == Next(old(Abs()), Process)
    {
      var e := msgq[0];
      msgq := msgq[1..];
      assert [e] + msgq == old(msgq);
      match mode {
        case Standby => OnModeStandby(e);
        case Turning => OnModeTurning(e);
        case Moving => OnModeMoving(e);
      }
      OnEveryMode(e);
    }

    // app_event_handler.
    method AppEvent(i: Input)
      requires Valid()
      modifies this
      ensures Valid() && Abs() == Next(old(Abs()), Arrive(i))
    {
      NextKeepsGood(Abs(), Arrive(i));
      msgq := msgq + [External(i)];
    }
  }
}
