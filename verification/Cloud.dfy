/** The gateway's cloud connection machine: retries, backoff and stale timeouts. */
module Cloud {
  import opened Bytes

  const CONNECT_RETRIES := 10
  const QUEUE_ENTRIES := 20
  const BACKOFF: seq<int> := [
    32, 64, 128, 256, 512, 2048, 4096, 8192, 16384, 32768,
    65536, 131072, 262144, 524288, 1048576]

  datatype Event = LteConnected | LteDisconnected | CloudConnected | CloudDisconnected | Timeout | Other

  datatype State = State(
    lte: bool,
    cloud: bool,           // the sub-state
    retries: int,
    timer: Option<int>,    // connect_check_work, when pending, and its delay in seconds
    queue: seq<Event>,
    attempts: seq<int>,    // delays of the attempts since the counter was last reset
    lost: bool             // a timeout found the queue full since the last attempt
  )

  datatype Step =
    | Arrive(e: Event)           // anything but a timeout, from the modem or the cloud library
    | TimerFires
    | Process(disconnectFails: bool)

  const INIT := State(false, false, 0, None, [], [], false)

  // k_msgq_put without waiting: a full queue drops the event.
  function Put(s: State, e: Event): State {
    if |s.queue| < QUEUE_ENTRIES then s.(queue := s.queue + [e])
    else if e == Timeout then s.(lost := true) else s
  }

  // The table is read before the retry guard.
  function ConnectCloud(s: State): State
    requires 0 <= s.retries < |BACKOFF|
  {
    var backoff := BACKOFF[s.retries];
    if s.retries > CONNECT_RETRIES then s
    else s.(retries := s.retries + 1, timer := Some(backoff), attempts := s.attempts + [backoff], lost := false)
  }

  function DisconnectCloud(s: State, fails: bool): State {
    if fails then s else s.(retries := 0, timer := None, attempts := [])
  }

  // One message: the sub-state handler, then the LTE handler.
  function Handle(s: State, e: Event, disconnectFails: bool): State
    requires 0 <= s.retries < |BACKOFF|
  {
    if !s.lte then
      if e == LteConnected then ConnectCloud(s.(lte := true)) else s
    else
      var t :=
        if s.cloud then s
        else if e == CloudConnected then s.(cloud := true, retries := 0, timer := None, attempts := [])
        else if e == Timeout then ConnectCloud(s)
        else s;
      if e == LteDisconnected then DisconnectCloud(t.(cloud := false, lte := false), disconnectFails) else t
  }

  predicate Bounded(s: State) {
    && 0 <= s.retries <= CONNECT_RETRIES + 1
    && s.attempts == BACKOFF[..s.retries]
  }

  function Next(s: State, step: Step): (t: State)
    requires Bounded(s)
    ensures Bounded(t)
  {
    match step
    case Arrive(e) => if e == Timeout then s else Put(s, e)
    case TimerFires =>
      if s.timer.None? then s
      else
        var t := s.(timer := None);
        if (s.lte && s.cloud) || !s.lte then t else Put(t, Timeout)
    case Process(disconnectFails) =>
      if s.queue == [] then s else Handle(s.(queue := s.queue[1..]), s.queue[0], disconnectFails)
  }

  function Run(steps: seq<Step>): (s: State)
    ensures Bounded(s)
  {
    if steps == [] then INIT else Next(Run(steps[..|steps| - 1]), steps[|steps| - 1])
  }

  // Bounded attempts: whatever happens, failed disconnects and stale timeouts
  // included, the counter and the table index stay in range, and between two
  // resets there are at most eleven attempts, each waiting longer than the last.
  lemma BoundedAttempts(steps: seq<Step>)
    ensures var s := Run(steps);
            && 0 <= s.retries <= 11 && s.retries < |BACKOFF|
            && |s.attempts| == s.retries
            && forall i, j | 0 <= i < j < |s.attempts| :: s.attempts[i] < s.attempts[j]
  {
    hide Next, Run;
    forall i, j | 0 <= i < j < |BACKOFF| ensures BACKOFF[i] < BACKOFF[j] {
      BackoffRises(i, j);
    }
  }

  lemma BackoffRises(i: nat, j: nat)
    requires i < j < |BACKOFF|
    ensures BACKOFF[i] < BACKOFF[j]
  {}

  // While LTE is up, the cloud is not and attempts are left, a machine with nothing
  // pending has lost a timeout to a full queue since its last attempt.
  predicate NotStuck(s: State) {
    && (s.cloud ==> s.lte)
    && (s.lost ==> s.timer.None?)
    && (s.lte && !s.cloud && s.timer.None? && Timeout !in s.queue && s.retries <= CONNECT_RETRIES ==> s.lost)
  }

  predicate Healthy(s: State) { Bounded(s) && NotStuck(s) }

  // Nothing on its way that would start another attempt.
  predicate Stranded(s: State) {
    s.lte && !s.cloud && s.retries <= CONNECT_RETRIES && s.timer.None? && Timeout !in s.queue
  }

  lemma NextNotStuck(s: State, step: Step)
    requires Healthy(s)
    ensures NotStuck(Next(s, step))
  {}

  lemma {:induction false} AlwaysHealthy(steps: seq<Step>)
    ensures Healthy(Run(steps))
  {
    if steps != [] {
      AlwaysHealthy(steps[..|steps| - 1]);
      NextNotStuck(Run(steps[..|steps| - 1]), steps[|steps| - 1]);
    }
  }

  // The timeout of the latest attempt finds the queue full.
  predicate LosesTimeout(s: State, step: Step) {
    step.TimerFires? && s.timer.Some? && s.lte && !s.cloud && |s.queue| == QUEUE_ENTRIES
  }

  predicate MakesAttempt(s: State, step: Step)
    requires Bounded(s)
  {
    |Next(s, step).attempts| > |s.attempts|
  }

  lemma LostStep(s: State, step: Step)
    requires Healthy(s) && |s.queue| <= QUEUE_ENTRIES
    ensures Next(s, step).lost <==> LosesTimeout(s, step) || (s.lost && !MakesAttempt(s, step))
    ensures |Next(s, step).queue| <= QUEUE_ENTRIES
  {}

  // No step from the k-th on makes an attempt.
  predicate NoneFrom(steps: seq<Step>, k: nat) {
    |steps| <= k ||
    var early, step := steps[..|steps| - 1], steps[|steps| - 1];
    !MakesAttempt(Run(early), step) && NoneFrom(early, k)
  }

  // The timeout lost at step k has not been made up for by an attempt.
  predicate LostAt(steps: seq<Step>, k: nat)
    requires k < |steps|
  {
    LosesTimeout(Run(steps[..k]), steps[k]) && NoneFrom(steps, k + 1)
  }

  lemma LostAtSnoc(steps: seq<Step>, step: Step, k: nat)
    requires k <= |steps|
    ensures LostAt(steps + [step], k) <==>
            if k == |steps| then LosesTimeout(Run(steps), step)
            else LostAt(steps, k) && !MakesAttempt(Run(steps), step)
  {
    hide Next, Run, LosesTimeout, MakesAttempt;
    var all := steps + [step];
    assert all[..|all| - 1] == steps;
    assert all[..k] == steps[..k];
  }

  // What the flag records.
  lemma {:induction false} LostExactly(steps: seq<Step>)
    ensures Run(steps).lost <==> exists k | 0 <= k < |steps| :: LostAt(steps, k)
    ensures |Run(steps).queue| <= QUEUE_ENTRIES
  {
    if steps != [] {
      hide Next, Run, LosesTimeout, MakesAttempt, LostAt, Healthy;
      var n := |steps| - 1;
      var early, step := steps[..n], steps[n];
      assert steps == early + [step];
      LostExactly(early);
      AlwaysHealthy(early);
      LostStep(Run(early), step);
      RunSnoc(early, step);
      forall k | 0 <= k <= n
        ensures LostAt(steps, k) <==>
                if k == n then LosesTimeout(Run(early), step) else LostAt(early, k) && !MakesAttempt(Run(early), step)
      {
        LostAtSnoc(early, step, k);
      }
      if Run(steps).lost {
        var k :| 0 <= k <= n && if k == n then LosesTimeout(Run(early), step) else LostAt(early, k);
        assert LostAt(steps, k);
      }
    }
  }

  // Over every run: with LTE up, the cloud down and attempts left, the machine waits
  // for nothing exactly when a timeout met a full queue, no attempt was made since,
  // and no older timeout is still queued.
  lemma NeverStuck(steps: seq<Step>)
    ensures Healthy(Run(steps))
    ensures var s := Run(steps);
            s.lte && !s.cloud && s.retries <= CONNECT_RETRIES ==>
              (Stranded(s) <==> Timeout !in s.queue && exists k | 0 <= k < |steps| :: LostAt(steps, k))
  {
    AlwaysHealthy(steps);
    LostExactly(steps);
  }

  // LTE up, cloud down, attempts used up and nothing pending.
  predicate Exhausted(s: State) {
    s.lte && !s.cloud && s.retries == CONNECT_RETRIES + 1 && s.timer.None? && Timeout !in s.queue
  }

  // An exhausted machine leaves that state exactly by processing a cloud connection
  // or an LTE loss.
  lemma ExhaustedLeaves(s: State, step: Step)
    requires Bounded(s) && Exhausted(s)
    ensures Exhausted(Next(s, step)) <==>
            !(step.Process? && s.queue != [] && s.queue[0] in {CloudConnected, LteDisconnected})
    ensures step == Process(true) && s.queue != [] && s.queue[0] == LteDisconnected ==>
              Exhausted(Handle(Next(s, step), LteConnected, false))
  {}

  // The first n attempts, each but the first after the timeout of the one before.
  function Attempts(n: nat): seq<Step> {
    if n == 0 then []
    else if n == 1 then [Arrive(LteConnected), Process(false)]
    else Attempts(n - 1) + [TimerFires] + [Process(false)]
  }

  // Every number of attempts up to eleven is reached, with the timer running.
  lemma {:induction false} AttemptsReached(n: nat)
    requires 1 <= n <= CONNECT_RETRIES + 1
    ensures Run(Attempts(n)) == State(true, false, n, Some(BACKOFF[n - 1]), [], BACKOFF[..n], false)
  {
    hide Next, Run;
    if n == 1 {
      ConnectRun();
    } else {
      AttemptsReached(n - 1);
      Retry(Attempts(n - 1));
    }
  }

  // A timeout and its processing.
  lemma Retry(steps: seq<Step>)
    requires var s := Run(steps); s.lte && !s.cloud && s.timer.Some? && s.queue == [] && 1 <= s.retries
    ensures Run(steps + [TimerFires] + [Process(false)]) == ConnectCloud(Run(steps).(timer := None))
  {
    hide Run;
    RunSnoc(steps, TimerFires);
    RunSnoc(steps + [TimerFires], Process(false));
  }

  // After eleven unanswered attempts the twelfth timeout starts none.
  lemma ExhaustedReached()
    ensures Exhausted(Run(Attempts(CONNECT_RETRIES + 2))) && Run(Attempts(CONNECT_RETRIES + 2)).queue == []
  {
    hide Next, Run;
    AttemptsReached(CONNECT_RETRIES + 1);
    Retry(Attempts(CONNECT_RETRIES + 1));
  }

  // Out of attempts and disconnected from the cloud, with LTE up or down.
  predicate Trapped(s: State) {
    !s.cloud && s.retries == CONNECT_RETRIES + 1 && s.timer.None? && Timeout !in s.queue
  }

  // The step processes a cloud connection, or an LTE loss whose disconnect succeeds.
  predicate Frees(s: State, step: Step) {
    && step.Process? && s.queue != [] && s.lte
    && (s.queue[0] == CloudConnected || (s.queue[0] == LteDisconnected && !step.disconnectFails))
  }

  lemma TrapStep(s: State, step: Step)
    requires Bounded(s) && Trapped(s)
    ensures Trapped(Next(s, step)) <==> !Frees(s, step)
    ensures Trapped(Next(s, step)) ==> Next(s, step).attempts == s.attempts
  {}

  predicate StaysTrapped(before: seq<Step>, after: seq<Step>) {
    forall k | 0 <= k <= |after| :: Trapped(Run(before + after[..k]))
  }

  predicate NothingFrees(before: seq<Step>, after: seq<Step>) {
    forall k | 0 <= k < |after| :: !Frees(Run(before + after[..k]), after[k])
  }

  // Over every continuation, whatever else arrives and however often LTE goes and
  // comes back: a machine out of attempts stays so exactly as long as it processes
  // neither a cloud connection nor an LTE loss whose disconnect succeeds, and makes
  // no attempt meanwhile.
  lemma {:induction false} TrappedExactly(before: seq<Step>, after: seq<Step>)
    requires Trapped(Run(before))
    ensures StaysTrapped(before, after) <==> NothingFrees(before, after)
    ensures StaysTrapped(before, after) ==> Run(before + after).attempts == Run(before).attempts
  {
    hide Next, Run, Trapped, Frees;
    if after == [] {
      assert before + after == before;
    } else {
      var n := |after| - 1;
      var early := after[..n];
      assert forall k | 0 <= k <= n :: after[..k] == early[..k];
      assert before + after == (before + early) + [after[n]] && after[..n + 1] == after;
      TrappedExactly(before, early);
      RunSnoc(before + early, after[n]);
      if StaysTrapped(before, early) {
        assert early[..n] == early && Trapped(Run(before + early[..n]));
        TrapStep(Run(before + early), after[n]);
        assert StaysTrapped(before, after) <==> Trapped(Run(before + after[..n + 1]));
      }
    }
  }

  // LTE is lost and comes back.
  function LteCycle(fails: bool): seq<Step> {
    [Arrive(LteDisconnected), Process(fails), Arrive(LteConnected), Process(false)]
  }

  // Both ways happen. With nothing queued and nothing in between, an exhausted machine
  // that loses LTE and gets it back is where it was exactly when the disconnect failed;
  // otherwise it is making the first of eleven new attempts.
  lemma FailedDisconnectTraps(steps: seq<Step>, fails: bool)
    requires Exhausted(Run(steps)) && Run(steps).queue == []
    ensures Run(steps + LteCycle(fails)) ==
            if fails then Run(steps) else Run(steps).(retries := 1, timer := Some(32), attempts := [32], lost := false)
    ensures Trapped(Run(steps + LteCycle(fails))) <==> fails
  {
    hide Run;
    var one := steps + [Arrive(LteDisconnected)];
    RunSnoc(steps, Arrive(LteDisconnected));
    RunSnoc(one, Process(fails));
    RunSnoc(one + [Process(fails)], Arrive(LteConnected));
    RunSnoc(one + [Process(fails)] + [Arrive(LteConnected)], Process(false));
    assert steps + LteCycle(fails) == one + [Process(fails)] + [Arrive(LteConnected)] + [Process(false)];
  }

  // ---- Once connected to the cloud.

  // The step takes an LTE loss off the queue.
  predicate LosesLte(s: State, step: Step) {
    step.Process? && s.queue != [] && s.queue[0] == LteDisconnected
  }

  lemma ConnectionStep(s: State, step: Step)
    requires Bounded(s) && s.lte && s.cloud
    ensures !Next(s, step).cloud <==> LosesLte(s, step)
    ensures Next(s, step).cloud ==> Next(s, step).attempts == s.attempts
  {}

  predicate StaysConnected(before: seq<Step>, after: seq<Step>) {
    forall k | 0 <= k <= |after| :: Run(before + after[..k]).cloud
  }

  predicate KeepsLte(before: seq<Step>, after: seq<Step>) {
    forall k | 0 <= k < |after| :: !LosesLte(Run(before + after[..k]), after[k])
  }

  // A lost cloud connection goes unnoticed while LTE stays up: a connected machine
  // stays in the connected sub-state exactly as long as it processes no LTE loss,
  // and makes no attempt meanwhile.
  lemma {:induction false} OnlyLteLossEndsConnection(before: seq<Step>, after: seq<Step>)
    requires Run(before).cloud
    ensures StaysConnected(before, after) <==> KeepsLte(before, after)
    ensures StaysConnected(before, after) ==> Run(before + after).attempts == Run(before).attempts
  {
    hide Next, Run;
    if after == [] {
      assert before + after == before;
    } else {
      var n := |after| - 1;
      var early := after[..n];
      assert forall k | 0 <= k <= n :: after[..k] == early[..k];
      assert before + after == (before + early) + [after[n]] && after[..n + 1] == after;
      OnlyLteLossEndsConnection(before, early);
      AlwaysHealthy(before + early);
      RunSnoc(before + early, after[n]);
      if StaysConnected(before, early) {
        assert early[..n] == early && Run(before + early[..n]).cloud;
        ConnectionStep(Run(before + early), after[n]);
        assert StaysConnected(before, after) <==> Run(before + after[..n + 1]).cloud;
      }
    }
  }

  // ... in particular when no LTE loss is queued and none arrives.
  lemma {:induction false} NoLossStaysConnected(before: seq<Step>, after: seq<Step>)
    requires Run(before).cloud && LteDisconnected !in Run(before).queue
    requires forall i | 0 <= i < |after| :: after[i] != Arrive(LteDisconnected)
    ensures var s := Run(before + after);
            s.lte && s.cloud && LteDisconnected !in s.queue && s.attempts == Run(before).attempts
  {
    hide Next, Run;
    AlwaysHealthy(before + after);
    if after == [] {
      assert before + after == before;
    } else {
      var n := |after| - 1;
      NoLossStaysConnected(before, after[..n]);
      assert before + after == (before + after[..n]) + [after[n]];
      RunSnoc(before + after[..n], after[n]);
      AlwaysHealthy(before + after[..n]);
      NoLossStep(Run(before + after[..n]), after[n]);
    }
  }

  lemma NoLossStep(s: State, step: Step)
    requires Bounded(s) && s.lte && s.cloud && LteDisconnected !in s.queue && step != Arrive(LteDisconnected)
    ensures var t := Next(s, step); t.cloud && LteDisconnected !in t.queue && t.attempts == s.attempts
  {}

  // A run in which the cloud connection is lost, the loss is processed, and the
  // machine neither leaves the connected sub-state nor waits for anything.
  lemma CloudLossUnnoticed()
    ensures exists steps ::
      && steps != [] && steps[|steps| - 1] == Process(false)
      && Run(steps[..|steps| - 1]).queue == [CloudDisconnected]
      && Run(steps) == State(true, true, 0, None, [], [], false)
  {
    hide Next, Run;
    ConnectRun();
    var a := [Arrive(LteConnected), Process(false)];
    var b := a + [Arrive(CloudConnected)] + [Process(false)];
    RunSnoc(a, Arrive(CloudConnected));
    RunSnoc(a + [Arrive(CloudConnected)], Process(false));
    ConnectedRun(Run(a));
    var c := b + [Arrive(CloudDisconnected)];
    RunSnoc(b, Arrive(CloudDisconnected));
    RunSnoc(c, Process(false));
    LossIgnored(Run(b));
    assert (c + [Process(false)])[..|c|] == c;
  }

  lemma ConnectedRun(s: State)
    requires Bounded(s) && s.lte && !s.cloud && s.queue == []
    ensures Next(Next(s, Arrive(CloudConnected)), Process(false)) ==
            s.(cloud := true, retries := 0, timer := None, attempts := [])
  {}

  lemma LossIgnored(s: State)
    requires Bounded(s) && s.lte && s.cloud && s.queue == []
    ensures Next(s, Arrive(CloudDisconnected)) == s.(queue := [CloudDisconnected])
    ensures Next(Next(s, Arrive(CloudDisconnected)), Process(false)) == s
  {}

  // ---- Timeouts that meet a full queue.

  // That a machine can be stranded: one attempt, a queue filled up before its timeout
  // fires, and drained afterwards.
  lemma LostTimeoutStrands()
    ensures exists steps :: Stranded(Run(steps)) && Run(steps).queue == [] && Run(steps).retries == 1
  {
    hide Next, Run;
    var connect := [Arrive(LteConnected), Process(false)];
    ConnectRun();
    Flood(connect, QUEUE_ENTRIES);
    var full := connect + seq(QUEUE_ENTRIES, _ => Arrive(Other));
    var lost := full + [TimerFires];
    RunSnoc(full, TimerFires);
    FullQueueLosesTimeout(Run(full));
    DrainOthers(lost, QUEUE_ENTRIES);
  }

  lemma ConnectRun()
    ensures Run([Arrive(LteConnected), Process(false)]) == State(true, false, 1, Some(32), [], [32], false)
  {
    assert [Arrive(LteConnected), Process(false)] == ([] + [Arrive(LteConnected)]) + [Process(false)];
    RunSnoc([], Arrive(LteConnected));
    RunSnoc([] + [Arrive(LteConnected)], Process(false));
  }

  lemma FullQueueLosesTimeout(s: State)
    requires Bounded(s) && s.lte && !s.cloud && s.timer.Some? && |s.queue| == QUEUE_ENTRIES
    ensures Next(s, TimerFires) == s.(timer := None, lost := true)
  {}

  lemma RunSnoc(steps: seq<Step>, step: Step)
    ensures Run(steps + [step]) == Next(Run(steps), step)
  {
    assert (steps + [step])[..|steps|] == steps;
  }

  lemma OthersChangeNothing(s: State)
    requires Bounded(s) && s.queue != [] && s.queue[0] == Other
    ensures Next(s, Process(false)) == s.(queue := s.queue[1..])
  {}

  lemma {:induction false} Flood(steps: seq<Step>, n: nat)
    requires Run(steps).queue == [] && n <= QUEUE_ENTRIES
    ensures Run(steps + seq(n, _ => Arrive(Other))) == Run(steps).(queue := seq(n, _ => Other))
  {
    hide Handle, ConnectCloud, Run;
    if n == 0 {
      assert steps + seq(n, _ => Arrive(Other)) == steps;
    } else {
      var most := steps + seq(n - 1, _ => Arrive(Other));
      Flood(steps, n - 1);
      assert steps + seq(n, _ => Arrive(Other)) == most + [Arrive(Other)];
      RunSnoc(most, Arrive(Other));
      assert seq(n - 1, _ => Other) + [Other] == seq(n, _ => Other);
    }
  }

  lemma {:induction false} DrainOthers(steps: seq<Step>, n: nat)
    requires Run(steps).queue == seq(n, _ => Other)
    ensures Run(steps + seq(n, _ => Process(false))) == Run(steps).(queue := [])
    decreases n
  {
    hide Next, Run;
    if n == 0 {
      assert steps + seq(n, _ => Process(false)) == steps;
    } else {
      var one := steps + [Process(false)];
      RunSnoc(steps, Process(false));
      OthersChangeNothing(Run(steps));
      assert seq(n, _ => Other)[1..] == seq(n - 1, _ => Other);
      DrainOthers(one, n - 1);
      assert steps + seq(n, _ => Process(false)) == one + seq(n - 1, _ => Process(false));
    }
  }

  // ---- What the steps say about the counters, the states and the queue.

  // The messages the thread took off the queue.
  function Processed(steps: seq<Step>): seq<Event> {
    if steps == [] then []
    else
      var before, step := Run(steps[..|steps| - 1]), steps[|steps| - 1];
      Processed(steps[..|steps| - 1]) + if step.Process? && before.queue != [] then [before.queue[0]] else []
  }

  // The messages that found room: those that arrived, and timeouts that fired in time.
  function Enqueued(steps: seq<Step>): seq<Event> {
    if steps == [] then []
    else
      var before, step := Run(steps[..|steps| - 1]), steps[|steps| - 1];
      Enqueued(steps[..|steps| - 1]) +
        if |before.queue| >= 20 then []
        else if step.Arrive? && step.e != Timeout then [step.e]
        else if step.TimerFires? && before.timer.Some? && before.lte && !before.cloud then [Timeout]
        else []
  }

  predicate LteUp(handled: seq<Event>) {
    handled != [] &&
    var e := handled[|handled| - 1];
    e == LteConnected || (e != LteDisconnected && LteUp(handled[..|handled| - 1]))
  }

  predicate CloudUp(handled: seq<Event>) {
    handled != [] &&
    var e, early := handled[|handled| - 1], handled[..|handled| - 1];
    (e == CloudConnected && LteUp(early)) || (e != LteDisconnected && CloudUp(early))
  }

  // The counter starts again: the cloud connects, or LTE is lost and the disconnect
  // succeeds.
  predicate Resets(s: State, step: Step) {
    && step.Process? && s.queue != [] && s.lte
    && ((s.queue[0] == CloudConnected && !s.cloud) || (s.queue[0] == LteDisconnected && !step.disconnectFails))
  }

  // LTE comes up, or a timeout is processed while waiting for the cloud, and attempts
  // are left.
  predicate Tries(s: State, step: Step) {
    && step.Process? && s.queue != [] && s.retries <= 10
    && ((!s.lte && s.queue[0] == LteConnected) || (s.lte && !s.cloud && s.queue[0] == Timeout))
  }

  function TriesSinceReset(steps: seq<Step>): nat {
    if steps == [] then 0
    else
      var before, step := Run(steps[..|steps| - 1]), steps[|steps| - 1];
      if Resets(before, step) then 0
      else TriesSinceReset(steps[..|steps| - 1]) + if Tries(before, step) then 1 else 0
  }

  // The n-th delay doubles from 32 s, but for the step from 512 s to 2048 s.
  function DelayOf(n: nat): int
    requires n < 15
  {
    if n == 0 then 32 else if n == 5 then 2048 else 2 * DelayOf(n - 1)
  }

  // The check an attempt leaves pending, until it fires or the counter is reset.
  function CheckPending(steps: seq<Step>): Option<int> {
    if steps == [] then None
    else
      var early, step := steps[..|steps| - 1], steps[|steps| - 1];
      if Resets(Run(early), step) || step.TimerFires? then None
      else if Tries(Run(early), step) && TriesSinceReset(early) < 15 then Some(DelayOf(TriesSinceReset(early)))
      else CheckPending(early)
  }

  lemma {:induction false} BackoffIs(n: nat)
    requires n < 15
    ensures BACKOFF[n] == DelayOf(n)
  {
    if n != 0 {
      BackoffIs(n - 1);
    }
  }

  lemma CounterStep(s: State, step: Step)
    requires Bounded(s)
    ensures var t := Next(s, step);
            && t.retries == (if Resets(s, step) then 0 else s.retries + if Tries(s, step) then 1 else 0)
            && t.timer == (if Resets(s, step) || step.TimerFires? then None
                           else if Tries(s, step) then Some(BACKOFF[s.retries]) else s.timer)
  {}

  lemma StatesStep(s: State, step: Step)
    requires Bounded(s) && (s.cloud ==> s.lte)
    ensures var t := Next(s, step);
            if step.Process? && s.queue != [] then
              var e := s.queue[0];
              && t.lte == (e == LteConnected || (e != LteDisconnected && s.lte))
              && t.cloud == ((e == CloudConnected && s.lte) || (e != LteDisconnected && s.cloud))
            else t.lte == s.lte && t.cloud == s.cloud
  {}

  lemma QueueStep(s: State, step: Step)
    requires Bounded(s)
    ensures Next(s, step).queue ==
            if step.Process? then if s.queue == [] then [] else s.queue[1..]
            else if |s.queue| >= 20 then s.queue
            else if step.Arrive? && step.e != Timeout then s.queue + [step.e]
            else if step.TimerFires? && s.timer.Some? && s.lte && !s.cloud then s.queue + [Timeout]
            else s.queue
  {}

  // Over every run: the counter is the number of attempts since the last reset, and
  // the pending check that of the last of them, unless it fired or was reset; the n-th
  // attempt after a reset waits the n-th delay.
  lemma {:induction false} CountersFollowSteps(steps: seq<Step>)
    ensures Run(steps).retries == TriesSinceReset(steps) && Run(steps).timer == CheckPending(steps)
  {
    if steps != [] {
      var early, step := steps[..|steps| - 1], steps[|steps| - 1];
      CountersFollowSteps(early);
      CounterStep(Run(early), step);
      if Tries(Run(early), step) {
        BackoffIs(Run(early).retries);
      }
      assert Run(steps) == Next(Run(early), step);
      hide Next, Run, Resets, Tries, DelayOf;
    }
  }

  // In particular after a reset nothing is pending and the next attempt is the first.
  lemma ResetStartsAgain(steps: seq<Step>, step: Step)
    requires Resets(Run(steps), step)
    ensures var s := Run(steps + [step]); s.retries == 0 && s.timer == None && s.attempts == []
    ensures forall more | Tries(Run(steps + [step]), more) ::
              Run(steps + [step] + [more]).timer == Some(32) && Run(steps + [step] + [more]).retries == 1
  {
    RunSnoc(steps, step);
    CounterStep(Run(steps), step);
    hide Next, Run, Resets, Tries;
    forall more | Tries(Run(steps + [step]), more)
      ensures Run(steps + [step] + [more]).timer == Some(32) && Run(steps + [step] + [more]).retries == 1
    {
      RunSnoc(steps + [step], more);
      CounterStep(Run(steps + [step]), more);
      assert !Resets(Run(steps + [step]), more) by { TriesNotResets(Run(steps + [step]), more); }
    }
  }

  lemma TriesNotResets(s: State, step: Step)
    requires Tries(s, step)
    ensures !Resets(s, step) && !step.TimerFires?
  {}

  lemma LastStep(steps: seq<Step>)
    requires steps != []
    ensures var early, step := steps[..|steps| - 1], steps[|steps| - 1];
            var s := Run(early);
            && Run(steps) == Next(s, step)
            && Processed(steps) == (if step.Process? && s.queue != [] then Processed(early) + [s.queue[0]]
                                    else Processed(early))
            && Enqueued(steps) == if |s.queue| >= 20 then Enqueued(early)
                                  else if step.Arrive? && step.e != Timeout then Enqueued(early) + [step.e]
                                  else if step.TimerFires? && s.timer.Some? && s.lte && !s.cloud
                                  then Enqueued(early) + [Timeout]
                                  else Enqueued(early)
  {}

  // Over every run the messages processed are those that found room, in order, and the
  // rest of them is the queue, of at most 20.
  lemma {:induction false} QueueIsFifo(steps: seq<Step>)
    ensures Processed(steps) + Run(steps).queue == Enqueued(steps) && |Run(steps).queue| <= 20
  {
    if steps != [] {
      hide Next, Run, Processed, Enqueued;
      var early, step := steps[..|steps| - 1], steps[|steps| - 1];
      LastStep(steps);
      QueueIsFifo(early);
      QueueStep(Run(early), step);
      Regroup(Processed(early), Run(early).queue, if step.Arrive? then step.e else Timeout);
    }
  }

  lemma Regroup(p: seq<Event>, q: seq<Event>, e: Event)
    ensures q != [] ==> (p + [q[0]]) + q[1..] == p + q
    ensures p + (q + [e]) == (p + q) + [e]
    ensures p + [] == p
  {}

  lemma MessagesSnoc(handled: seq<Event>, e: Event)
    ensures LteUp(handled + [e]) == (e == LteConnected || (e != LteDisconnected && LteUp(handled)))
    ensures CloudUp(handled + [e]) ==
            ((e == CloudConnected && LteUp(handled)) || (e != LteDisconnected && CloudUp(handled)))
  {
    assert (handled + [e])[..|handled|] == handled;
  }

  // Over every run LTE is up exactly if the last LTE message processed said so, and
  // the cloud exactly if a connection was processed since, with LTE up.
  lemma {:induction false} StatesFollowMessages(steps: seq<Step>)
    ensures Run(steps).lte == LteUp(Processed(steps)) && Run(steps).cloud == CloudUp(Processed(steps))
  {
    if steps != [] {
      hide Next, Run, Processed, Enqueued, LteUp, CloudUp;
      var early, step := steps[..|steps| - 1], steps[|steps| - 1];
      LastStep(steps);
      StatesFollowMessages(early);
      AlwaysHealthy(early);
      StatesStep(Run(early), step);
      if step.Process? && Run(early).queue != [] {
        MessagesSnoc(Processed(early), Run(early).queue[0]);
      }
    }
  }

  // The module's statics, work item and message queue.
  class CloudModule {
    var lte: bool
    var cloud: bool
    var connectRetries: int
    var checkWork: Option<int>
    var msgq: seq<Event>
    ghost var attempts: seq<int>
    ghost var lost: bool

    ghost function Abs(): State
      reads this
    {
      State(lte, cloud, connectRetries, checkWork, msgq, attempts, lost)
    }

    ghost predicate Valid()
      reads this
    {
      Healthy(Abs())
    }

    // In the middle of a turn: valid again if e went back to the head of the queue.
    ghost predicate Taken(e: Event)
      reads this
    {
      Healthy(Abs().(queue := [e] + msgq))
    }

    constructor ()
      ensures Valid() && Abs() == INIT
    {
      lte, cloud, connectRetries, checkWork, msgq := false, false, 0, None, [];
      attempts, lost := [], false;
    }

    // app_event_handler. The module's own timeout comes from a timer that has run out.
    method Enqueue(e: Event)
      requires if e == Timeout then Taken(Timeout) && checkWork.None? else Valid()
      modifies this
      ensures Valid() && Abs() == Put(old(Abs()), e)
    {
      if |msgq| < QUEUE_ENTRIES {
        msgq := msgq + [e];
      } else if e == Timeout {
        lost := true;
      }
    }

    // Leaves a check pending, whatever was pending before, unless attempts ran out.
    method ConnectToCloud()
      requires Taken(Timeout) && lte && !cloud
      modifies this
      ensures Valid() && Abs() == ConnectCloud(old(Abs()))
      ensures checkWork.Some? || connectRetries > CONNECT_RETRIES
    {
      var backoffSec := BACKOFF[connectRetries];
      if connectRetries > CONNECT_RETRIES {
        return;
      }
      connectRetries := connectRetries + 1;
      checkWork := Some(backoffSec);
      attempts, lost := attempts + [backoffSec], false;
    }

    method DisconnectFromCloud(fails: bool)
      requires Valid() && !lte
      modifies this
      ensures Valid() && Abs() == DisconnectCloud(old(Abs()), fails)
    {
      if fails {
        return;
      }
      connectRetries, checkWork, attempts := 0, None, [];
    }

    // connect_check_work_fn.
    method ConnectCheckWork()
      requires Valid() && checkWork.Some?
      modifies this
      ensures Valid() && Abs() == Next(old(Abs()), TimerFires)
    {
      checkWork := None;
      if (lte && cloud) || !lte {
        return;
      }
      Enqueue(Timeout);
    }

    method OnLteDisconnected(e: Event)
      requires Taken(e) && !lte
      modifies this
      ensures Valid() && Abs() == Handle(old(Abs()), e, false)
    {
      if e == LteConnected {
        lte := true;
        ConnectToCloud();
      }
    }

    method OnCloudDisconnected(e: Event)
      requires Taken(e) && lte && !cloud
      modifies this
      ensures Valid() && lte
      ensures e != LteDisconnected ==> Abs() == Handle(old(Abs()), e, false)
      ensures e == LteDisconnected ==> Abs() == old(Abs())
    {
      if e == CloudConnected {
        cloud := true;
        connectRetries, checkWork, attempts := 0, None, [];
      }
      if e == Timeout {
        ConnectToCloud();
      }
    }

    method OnLteConnected(e: Event, disconnectFails: bool)
      requires Valid() && lte
      modifies this
      ensures Valid()
      ensures Abs() == if e == LteDisconnected
                       then DisconnectCloud(old(Abs()).(cloud := false, lte := false), disconnectFails)
                       else old(Abs())
    {
      if e == LteDisconnected {
        cloud, lte := false, false;
        DisconnectFromCloud(disconnectFails);
      }
    }

    // One turn of module_thread_fn.
    method ThreadStep(disconnectFails: bool)
      requires Valid() && msgq != []
      modifies this
      ensures Valid() && Abs() == Next(old(Abs()), Process(disconnectFails))
    {
      var e := msgq[0];
      msgq := msgq[1..];
      assert [e] + msgq == old(msgq);
      if !lte {
        OnLteDisconnected(e);
      } else {
        if !cloud {
          OnCloudDisconnected(e);
        }
        OnLteConnected(e, disconnectFails);
      }
    }
  }
}
