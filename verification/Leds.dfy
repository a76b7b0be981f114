/** The robot's LED machine: two work items that schedule each other. */
module Leds {
  import opened Bytes

  datatype Colour = Colour(red: Byte, green: Byte, blue: Byte)

  datatype State = State(blinkTime: nat, colour: Colour, onPending: bool, offPending: bool, shown: Colour)

  // Commands are handled by the module thread; the work items fire in between.
  datatype Event =
    | Rgb(l: Led)
    | Button(num: nat, press: bool)
    | FireOn
    | FireOff

  const DARK := Colour(0, 0, 0)

  // After init_leds, whatever the PWM outputs were.
  function Init(shown: Colour): State {
    State(1000, Colour(10, 10, 250), true, false, shown)
  }

  predicate IsFire(e: Event) { e.FireOn? || e.FireOff? }

  predicate Enabled(s: State, e: Event) {
    (e.FireOn? ==> s.onPending) && (e.FireOff? ==> s.offPending)
  }

  function Next(s: State, e: Event): State {
    match e
    case Rgb(l) => State(l.time, Colour(l.red, l.green, l.blue), true, s.offPending, s.shown)
    case Button(num, press) =>
      if press && num == 3 then s.(blinkTime := 1000, colour := Colour(200, 50, 20), onPending := true)
      else if press && num == 4 then s.(blinkTime := 500, colour := Colour(20, 100, 100), onPending := true)
      else s
    case FireOn =>
      if !s.onPending then s
      else s.(onPending := false, shown := s.colour, offPending := s.offPending || s.blinkTime != 0)
    case FireOff =>
      if !s.offPending then s else s.(offPending := false, shown := DARK, onPending := true)
  }

  function RunFrom(s: State, es: seq<Event>): State
    decreases |es|
  {
    if es == [] then s else RunFrom(Next(s, es[0]), es[1..])
  }

  // Every firing in the run found its work item pending.
  predicate Possible(s: State, es: seq<Event>)
    decreases |es|
  {
    es == [] || (Enabled(s, es[0]) && Possible(Next(s, es[0]), es[1..]))
  }

  predicate Quiet(s: State) { !s.onPending && !s.offPending }

  predicate BlinksOn(s: State) {
    && (s.blinkTime != 0 ==> s.onPending || s.offPending)
    && (Quiet(s) ==> s.shown == s.colour)
  }

  // Whatever happens after initialisation: a non-zero blink time keeps at least
  // one work item pending, and a machine gone quiet shows the colour it was told.
  lemma NeverStopsBlinking(shown: Colour, es: seq<Event>)
    ensures BlinksOn(RunFrom(Init(shown), es))
  {
    BlinksOnForever(Init(shown), es);
  }

  lemma {:induction false} BlinksOnForever(s: State, es: seq<Event>)
    requires BlinksOn(s)
    ensures BlinksOn(RunFrom(s, es))
    decreases |es|
  {
    if es != [] {
      BlinksOnForever(Next(s, es[0]), es[1..]);
    }
  }

  // Work left when the blink time is zero: an off-phase costs itself and an on-phase.
  function Measure(s: State): nat {
    (if s.offPending then 2 else 0) + (if s.onPending then 1 else 0)
  }

  function OffPhases(es: seq<Event>): nat {
    if es == [] then 0 else (if es[0].FireOff? then 1 else 0) + OffPhases(es[1..])
  }

  predicate OnlyFires(es: seq<Event>) {
    forall i | 0 <= i < |es| :: IsFire(es[i])
  }

  lemma {:induction false} SettlesFrom(s: State, es: seq<Event>)
    requires s.blinkTime == 0 && (s.onPending || s.shown == s.colour)
    requires OnlyFires(es) && Possible(s, es)
    ensures var t := RunFrom(s, es);
            && t.blinkTime == 0 && t.colour == s.colour
            && (t.onPending || t.shown == t.colour)
            && Measure(t) + |es| <= Measure(s)
            && OffPhases(es) + (if t.offPending then 1 else 0) <= (if s.offPending then 1 else 0)
    decreases |es|
  {
    if es != [] {
      assert IsFire(es[0]);
      SettlesFrom(Next(s, es[0]), es[1..]);
    }
  }

  // Stabilisation: after an RGB command with blink time zero and no further
  // command, at most three work items fire, at most one of them an off-phase, and
  // as long as one is pending the machine moves on; when none is, the output is
  // the commanded colour for good.
  lemma Settles(s: State, l: Led, es: seq<Event>)
    requires l.time == 0
    requires OnlyFires(es) && Possible(Next(s, Rgb(l)), es)
    ensures |es| <= 3 && OffPhases(es) <= 1
    ensures var t := RunFrom(Next(s, Rgb(l)), es);
            if Quiet(t) then t.shown == Colour(l.red, l.green, l.blue)
            else |es| < 3 && exists e :: IsFire(e) && Enabled(t, e)
  {
    SettlesFrom(Next(s, Rgb(l)), es);
    var t := RunFrom(Next(s, Rgb(l)), es);
    assert Enabled(t, if t.onPending then FireOn else FireOff) || Quiet(t);
  }

  // The bound of three is reached.
  lemma SettlingCanTakeThree(s: State, l: Led)
    requires l.time == 0 && s.offPending
    ensures Possible(Next(s, Rgb(l)), [FireOn, FireOff, FireOn])
    ensures RunFrom(Next(s, Rgb(l)), [FireOn, FireOff]).shown == DARK
  {}

  // ---- What the events say, without running the machine.

  // Blink time and colour of the last command.
  function CommandedTime(es: seq<Event>): nat {
    if es == [] then 1000
    else
      match es[|es| - 1]
      case Rgb(l) => l.time
      case Button(num, press) =>
        if press && num == 3 then 1000 else if press && num == 4 then 500 else CommandedTime(es[..|es| - 1])
      case _ => CommandedTime(es[..|es| - 1])
  }

  function CommandedColour(es: seq<Event>): Colour {
    if es == [] then Colour(10, 10, 250)
    else
      match es[|es| - 1]
      case Rgb(l) => Colour(l.red, l.green, l.blue)
      case Button(num, press) =>
        if press && num == 3 then Colour(200, 50, 20)
        else if press && num == 4 then Colour(20, 100, 100)
        else CommandedColour(es[..|es| - 1])
      case _ => CommandedColour(es[..|es| - 1])
  }

  predicate Commands(e: Event) {
    e.Rgb? || (e.Button? && e.press && (e.num == 3 || e.num == 4))
  }

  // An on-phase is due at the start, after a command and after an off-phase, until it
  // comes; an off-phase after an on-phase with a non-zero blink time, until it comes.
  // A work item that is not due does not fire.
  predicate OnDue(es: seq<Event>) {
    es == [] ||
    var before, e := es[..|es| - 1], es[|es| - 1];
    Commands(e) || (e.FireOff? && OffDue(before)) || (!e.FireOn? && OnDue(before))
  }

  predicate OffDue(es: seq<Event>) {
    es != [] &&
    var before, e := es[..|es| - 1], es[|es| - 1];
    (e.FireOn? && OnDue(before) && CommandedTime(before) != 0) || (!e.FireOff? && OffDue(before))
  }

  // The colour commanded when the last on-phase came, unless an off-phase came since.
  function Lit(shown: Colour, es: seq<Event>): Colour {
    if es == [] then shown
    else
      var before, e := es[..|es| - 1], es[|es| - 1];
      if e.FireOn? && OnDue(before) then CommandedColour(before)
      else if e.FireOff? && OffDue(before) then Colour(0, 0, 0)
      else Lit(shown, before)
  }

  lemma {:induction false} RunSnoc(s: State, es: seq<Event>, e: Event)
    ensures RunFrom(s, es + [e]) == Next(RunFrom(s, es), e)
    decreases |es|
  {
    if es != [] {
      assert (es + [e])[1..] == es[1..] + [e];
      RunSnoc(Next(s, es[0]), es[1..], e);
    }
  }

  // Over every run the whole state is read off the events: blink time and colour are
  // those of the last command, whatever they are; the work items pending are those
  // due; and the output is the commanded colour of the last on-phase, or dark.
  lemma {:induction false} StateFollowsEvents(shown: Colour, es: seq<Event>)
    ensures RunFrom(Init(shown), es) ==
            State(CommandedTime(es), CommandedColour(es), OnDue(es), OffDue(es), Lit(shown, es))
  {
    if es != [] {
      var before, e := es[..|es| - 1], es[|es| - 1];
      assert es == before + [e];
      StateFollowsEvents(shown, before);
      RunSnoc(Init(shown), before, e);
      hide RunFrom;
    }
  }

  // In particular the LED lights up in the colour commanded at every on-phase of a
  // possible run, and stays so, whatever is commanded, until the next firing.
  lemma {:induction false} LightsUp(shown: Colour, before: seq<Event>, after: seq<Event>)
    requires Possible(Init(shown), before + [FireOn])
    requires forall i | 0 <= i < |after| :: !IsFire(after[i])
    ensures RunFrom(Init(shown), before + [FireOn] + after).shown == CommandedColour(before)
  {
    hide RunFrom, Next;
    PossibleLast(Init(shown), before, FireOn);
    StateFollowsEvents(shown, before);
    StateFollowsEvents(shown, before + [FireOn] + after);
    LitUntilFiring(shown, before, after);
  }

  lemma {:induction false} PossibleLast(s: State, es: seq<Event>, e: Event)
    requires Possible(s, es + [e])
    ensures Enabled(RunFrom(s, es), e)
    decreases |es|
  {
    if es != [] {
      assert (es + [e])[1..] == es[1..] + [e];
      PossibleLast(Next(s, es[0]), es[1..], e);
    }
  }

  lemma {:induction false} LitUntilFiring(shown: Colour, before: seq<Event>, after: seq<Event>)
    requires OnDue(before)
    requires forall i | 0 <= i < |after| :: !IsFire(after[i])
    ensures Lit(shown, before + [FireOn] + after) == CommandedColour(before)
  {
    var all := before + [FireOn] + after;
    if after == [] {
      assert all[..|before|] == before && all == before + [FireOn];
    } else {
      var n := |after| - 1;
      assert all[..|all| - 1] == before + [FireOn] + after[..n] && all[|all| - 1] == after[n];
      LitUntilFiring(shown, before, after[..n]);
    }
  }

  // The module's globals and its two delayable work items.
  class LedModule {
    var blinkTime: nat
    var r: Byte
    var g: Byte
    var b: Byte
    var blinkOn: Option<nat>   // remaining delay in ms, when scheduled
    var blinkOff: Option<nat>
    var red: Byte              // PWM numerators
    var green: Byte
    var blue: Byte

    ghost function Abs(): State
      reads this
    {
      State(blinkTime, Colour(r, g, b), blinkOn.Some?, blinkOff.Some?, Colour(red, green, blue))
    }

    ghost predicate Valid()
      reads this
    {
      BlinksOn(Abs())
    }

    constructor (red: Byte, green: Byte, blue: Byte)
      ensures Valid() && Abs() == Init(Colour(red, green, blue)) && blinkOn == Some(1000)
    {
      this.red, this.green, this.blue := red, green, blue;
      blinkTime, r, g, b := 1000, 10, 10, 250;
      blinkOn, blinkOff := Some(1000), None;
    }

    // blink_on_work_fn.
    method BlinkOn()
      requires Valid() && blinkOn.Some?
      modifies this
      ensures Valid() && Abs() == Next(old(Abs()), FireOn)
      ensures old(blinkOff).None? && blinkTime != 0 ==> blinkOff == Some(blinkTime)
    {
      blinkOn := None;
      red, green, blue := r, g, b;
      if blinkTime != 0 && blinkOff.None? {
        blinkOff := Some(blinkTime);
      }
    }

    // blink_off_work_fn.
    method BlinkOff()
      requires Valid() && blinkOff.Some?
      modifies this
      ensures Valid() && Abs() == Next(old(Abs()), FireOff)
      ensures old(blinkOn).None? ==> blinkOn == Some(blinkTime)
    {
      blinkOff := None;
      red, green, blue := 0, 0, 0;
      if blinkOn.None? {
        blinkOn := Some(blinkTime);
      }
    }

    // on_all_states. An RGB command reschedules the on-phase for now; a button
    // leaves an on-phase that is already pending where it is.
    method OnCommand(e: Event)
      requires Valid() && !IsFire(e)
      modifies this
      ensures Valid() && Abs() == Next(old(Abs()), e)
      ensures e.Rgb? ==> blinkOn == Some(0)
      ensures !e.Rgb? && old(blinkOn).Some? ==> blinkOn == old(blinkOn)
    {
      if e.Rgb? {
        blinkTime, r, g, b := e.l.time, e.l.red, e.l.green, e.l.blue;
        blinkOn := Some(0);
      } else if e.Button? && e.press {
        if e.num == 3 {
          blinkTime, r, g, b := 1000, 200, 50, 20;
          if blinkOn.None? { blinkOn := Some(1000); }
        } else if e.num == 4 {
          blinkTime, r, g, b := 500, 20, 100, 100;
          if blinkOn.None? { blinkOn := Some(500); }
        }
      }
    }
  }
}
