/** The device page: a fan with an on/off switch, a speed slider and
    five-step buttons, and an LED light with an on/off switch and a colour
    menu. Each handler issues commands to the backend; whether a command
    succeeds is a parameter, and only a successful on/off command changes
    the displayed on/off state. */
module DevicePage {
  import opened Text
  import opened Options
  import opened BackendModel
  import FanControl
  import opened LedColors

  /** The page's state; the loading flags only disable buttons and are not
      modelled. */
  datatype Panel = Panel(isFanOn: bool, speed: int, isLightOn: bool, selected: LedColor, dropdownOpen: bool)

  /** Everything off, the given initial speed (50 by default), red. */
  function Initial(initialSpeed: int): Panel {
    Panel(false, initialSpeed, false, DefaultColor, false)
  }

  /** The backend requests the page sends: `/fan/fan/on` with a speed,
      `/fan/fan/off`, `/light/switch/on`, `/light/switch/off` and
      `/light/switch/colorchange` with a code. */
  datatype Command = FanOn(speed: int) | FanOff | LightOn | LightOff | ColorChange(code: string)

  /** A handler's effect: the new state, the commands in the order they
      are sent, and the value passed to `onSpeedChange`, if any. */
  datatype Outcome = Outcome(panel: Panel, sent: seq<Command>, reported: Option<int>)

  /** `turnOnFan` / `turnOffFan`: the on/off flag follows a successful
      command and is left alone by a failed one. */
  function SendFan(p: Panel, cmd: Command, ok: bool): (r: Panel)
    requires cmd.FanOn? || cmd.FanOff?
    ensures r.speed == p.speed && r.isLightOn == p.isLightOn && r.selected == p.selected
    ensures r.dropdownOpen == p.dropdownOpen
    ensures r.isFanOn == (if ok then cmd.FanOn? else p.isFanOn)
  {
    if ok then p.(isFanOn := cmd.FanOn?) else p
  }

  /** The fan's flag only moves after the last command sent succeeded,
      and then to what that command asked for; nothing about the light
      changes. */
  predicate FanFollows(p: Panel, o: Outcome, ok: bool) {
    o.panel.isLightOn == p.isLightOn && o.panel.selected == p.selected
    && o.panel.dropdownOpen == p.dropdownOpen
    && (if |o.sent| == 0 then o.panel.isFanOn == p.isFanOn
        else if ok then o.panel.isFanOn == o.sent[|o.sent| - 1].FanOn?
        else o.panel.isFanOn == p.isFanOn)
  }

  /** `handleSpeedChange(newSpeed)`: stores and reports the clamped speed
      but sends the speed as given. */
  function HandleSpeedChange(p: Panel, newSpeed: int, ok: bool): (o: Outcome)
    ensures FanSpeedValid(o.panel.speed) && o.reported == Some(o.panel.speed)
    ensures MinSpeed <= newSpeed <= MaxSpeed ==> o.panel.speed == newSpeed
    ensures o.panel.speed == FanControl.Clamp(newSpeed)
    ensures o.sent == [if newSpeed > 0 then FanOn(newSpeed) else FanOff]
    ensures FanFollows(p, o, ok)
  {
    var q := p.(speed := FanControl.Clamp(newSpeed));
    var cmd := if newSpeed > 0 then FanOn(newSpeed) else FanOff;
    Outcome(SendFan(q, cmd, ok), [cmd], Some(q.speed))
  }

  /** `handleFanToggle`: on at the stored speed when off, off when on. */
  function HandleFanToggle(p: Panel, ok: bool): (o: Outcome)
    ensures o.panel.speed == p.speed && o.reported == None
    ensures o.sent == [if p.isFanOn then FanOff else FanOn(p.speed)]
    ensures FanFollows(p, o, ok)
    ensures o.panel.isFanOn == (p.isFanOn != ok)
  {
    var cmd := if p.isFanOn then FanOff else FanOn(p.speed);
    Outcome(SendFan(p, cmd, ok), [cmd], None)
  }

  /** `incrementSpeed` as written: below 100 it adds 5 without clamping. */
  function IncrementSpeed(p: Panel, ok: bool): (o: Outcome)
    ensures o.reported == None && FanFollows(p, o, ok)
    ensures p.speed >= MaxSpeed ==> o.panel == p && o.sent == []
    ensures p.speed < MaxSpeed ==> o.panel.speed == p.speed + 5 && o.sent == [FanOn(p.speed + 5)]
  {
    if p.speed < MaxSpeed then
      var q := p.(speed := p.speed + 5);
      Outcome(SendFan(q, FanOn(q.speed), ok), [FanOn(q.speed)], None)
    else Outcome(p, [], None)
  }

  /** `decrementSpeed` as written: above 0 it subtracts 5 without
      clamping, and turns the fan off when the result is not positive. */
  function DecrementSpeed(p: Panel, ok: bool): (o: Outcome)
    ensures o.reported == None && FanFollows(p, o, ok)
    ensures p.speed <= MinSpeed ==> o.panel == p && o.sent == []
    ensures p.speed > MinSpeed ==> o.panel.speed == p.speed - 5
    ensures p.speed > MinSpeed ==> o.sent == [if p.speed - 5 <= 0 then FanOff else FanOn(p.speed - 5)]
  {
    if p.speed > MinSpeed then
      var q := p.(speed := p.speed - 5);
      var cmd := if q.speed <= 0 then FanOff else FanOn(q.speed);
      Outcome(SendFan(q, cmd, ok), [cmd], None)
    else Outcome(p, [], None)
  }

  /** `incrementSpeed` with the clamp the rest of the fan controls apply. */
  function IncrementSpeedClamped(p: Panel, ok: bool): (o: Outcome)
    ensures o.reported == None && FanFollows(p, o, ok)
    ensures p.speed >= MaxSpeed ==> o.panel == p && o.sent == []
    ensures p.speed < MaxSpeed ==> FanSpeedValid(o.panel.speed) && o.sent == [FanOn(o.panel.speed)]
    ensures MinSpeed - 5 <= p.speed < MaxSpeed ==> o.panel.speed == Min(p.speed + 5, MaxSpeed)
  {
    if p.speed < MaxSpeed then
      var q := p.(speed := FanControl.Clamp(p.speed + 5));
      Outcome(SendFan(q, FanOn(q.speed), ok), [FanOn(q.speed)], None)
    else Outcome(p, [], None)
  }

  /** `decrementSpeed` with the clamp the rest of the fan controls apply. */
  function DecrementSpeedClamped(p: Panel, ok: bool): (o: Outcome)
    ensures o.reported == None && FanFollows(p, o, ok)
    ensures p.speed <= MinSpeed ==> o.panel == p && o.sent == []
    ensures p.speed > MinSpeed ==> FanSpeedValid(o.panel.speed)
    ensures MinSpeed < p.speed <= MaxSpeed + 5 ==> o.panel.speed == Max(p.speed - 5, MinSpeed)
    ensures p.speed > MinSpeed ==> o.sent == [if o.panel.speed == 0 then FanOff else FanOn(o.panel.speed)]
  {
    if p.speed > MinSpeed then
      var q := p.(speed := FanControl.Clamp(p.speed - 5));
      var cmd := if q.speed == 0 then FanOff else FanOn(q.speed);
      Outcome(SendFan(q, cmd, ok), [cmd], None)
    else Outcome(p, [], None)
  }

  /** `handleLightToggle`: when off, `turnOnLight`, which after a
      successful switch-on also sends the selected colour; when on,
      `turnOffLight`. */
  function HandleLightToggle(p: Panel, ok: bool): (o: Outcome)
    ensures o.panel.isFanOn == p.isFanOn && o.panel.speed == p.speed && o.reported == None
    ensures o.panel.selected == p.selected && o.panel.dropdownOpen == p.dropdownOpen
    ensures o.panel.isLightOn == (p.isLightOn != ok)
    ensures !p.isLightOn ==> o.sent == [LightOn] + (if ok then [ColorChange(p.selected.value)] else [])
    ensures p.isLightOn ==> o.sent == [LightOff]
  {
    if !p.isLightOn then
      if ok then Outcome(p.(isLightOn := true), [LightOn, ColorChange(p.selected.value)], None)
      else Outcome(p, [LightOn], None)
    else
      Outcome(if ok then p.(isLightOn := false) else p, [LightOff], None)
  }

  /** `handleColorSelect(color)`: always selects the colour and closes the
      menu; sends the colour's code only while the light is on. */
  function HandleColorSelect(p: Panel, color: LedColor): (o: Outcome)
    ensures o.panel == p.(selected := color, dropdownOpen := false) && o.reported == None
    ensures o.sent == if p.isLightOn then [ColorChange(color.value)] else []
  {
    Outcome(p.(selected := color, dropdownOpen := false),
            if p.isLightOn then [ColorChange(color.value)] else [], None)
  }

  /** The colour button opens and closes the menu. */
  function ToggleDropdown(p: Panel): (o: Outcome)
    ensures o.panel == p.(dropdownOpen := !p.dropdownOpen) && o.sent == [] && o.reported == None
  {
    Outcome(p.(dropdownOpen := !p.dropdownOpen), [], None)
  }

  // ---------------------------------------------------------------------
  // Runs of user actions

  /** The page's controls. A slider position is an integer in 0..100. */
  datatype Event =
    | Slide(value: int) | ToggleFan | Increment | Decrement
    | ToggleLight | SelectColor(color: LedColor) | OpenCloseMenu

  /** Whether the control behind `e` is on screen: the slider and the
      five-step buttons are shown only while the fan is on, the colour
      menu button only while the light is on, and the colour options only
      while that menu is open as well. */
  predicate Available(p: Panel, e: Event) {
    match e
    case Slide(_) => p.isFanOn
    case Increment => p.isFanOn
    case Decrement => p.isFanOn
    case OpenCloseMenu => p.isLightOn
    case SelectColor(_) => p.isLightOn && p.dropdownOpen
    case ToggleFan => true
    case ToggleLight => true
  }

  /** The outcome of an action whose control is not shown. */
  function Ignored(p: Panel): Outcome {
    Outcome(p, [], None)
  }

  /** One action on the page as written. */
  function Step(p: Panel, e: Event, ok: bool): (o: Outcome)
    ensures !Available(p, e) ==> o.panel == p && o.sent == []
  {
    if !Available(p, e) then Ignored(p)
    else match e
    case Slide(v) => HandleSpeedChange(p, v, ok)
    case ToggleFan => HandleFanToggle(p, ok)
    case Increment => IncrementSpeed(p, ok)
    case Decrement => DecrementSpeed(p, ok)
    case ToggleLight => HandleLightToggle(p, ok)
    case SelectColor(c) => HandleColorSelect(p, c)
    case OpenCloseMenu => ToggleDropdown(p)
  }

  /** One action on the page with the five-step buttons clamped. */
  function StepClamped(p: Panel, e: Event, ok: bool): (o: Outcome)
    ensures !Available(p, e) ==> o.panel == p && o.sent == []
  {
    if !Available(p, e) then Ignored(p)
    else match e
    case Increment => IncrementSpeedClamped(p, ok)
    case Decrement => DecrementSpeedClamped(p, ok)
    case _ => Step(p, e, ok)
  }

  /** The fan commands a sequence of commands carries speeds the backend
      accepts. */
  predicate SpeedsAccepted(sent: seq<Command>) {
    forall i :: 0 <= i < |sent| && sent[i].FanOn? ==> FanSpeedValid(sent[i].speed)
  }

  predicate SliderEvent(e: Event) {
    e.Slide? ==> MinSpeed <= e.value <= MaxSpeed
  }

  /** The state after a run of actions with their outcomes, and every
      command sent along the way. */
  function Run(p: Panel, events: seq<Event>, oks: seq<bool>, clamped: bool): (Panel, seq<Command>)
    requires |oks| == |events|
    decreases |events|
  {
    if |events| == 0 then (p, [])
    else
      var o := if clamped then StepClamped(p, events[0], oks[0]) else Step(p, events[0], oks[0]);
      var (q, rest) := Run(o.panel, events[1..], oks[1..], clamped);
      (q, o.sent + rest)
  }

  /** With the clamped buttons, a page that starts at a valid speed keeps
      a valid speed, and every fan command it sends from the slider and
      the buttons carries a speed the backend accepts. */
  lemma {:induction false} ClampedRunAccepted(p: Panel, events: seq<Event>, oks: seq<bool>)
    requires |oks| == |events| && FanSpeedValid(p.speed)
    requires forall i :: 0 <= i < |events| ==> SliderEvent(events[i])
    ensures FanSpeedValid(Run(p, events, oks, true).0.speed)
    ensures SpeedsAccepted(Run(p, events, oks, true).1)
    decreases |events|
  {
    if |events| > 0 {
      var o := StepClamped(p, events[0], oks[0]);
      assert FanSpeedValid(o.panel.speed) && SpeedsAccepted(o.sent) by {
        StepClampedAccepted(p, events[0], oks[0]);
      }
      ClampedRunAccepted(o.panel, events[1..], oks[1..]);
      var rest := Run(o.panel, events[1..], oks[1..], true).1;
      assert Run(p, events, oks, true).1 == o.sent + rest;
      assert forall i :: 0 <= i < |o.sent + rest| ==>
        (o.sent + rest)[i] == (if i < |o.sent| then o.sent[i] else rest[i - |o.sent|]);
    }
  }

  lemma StepClampedAccepted(p: Panel, e: Event, ok: bool)
    requires FanSpeedValid(p.speed) && SliderEvent(e)
    ensures FanSpeedValid(StepClamped(p, e, ok).panel.speed)
    ensures SpeedsAccepted(StepClamped(p, e, ok).sent)
  {
  }

  /** As written, the increment button takes any speed from 96 to 99 past
      100 and sends that speed to the backend, which rejects it. */
  lemma IncrementLeavesRange(p: Panel, ok: bool)
    requires 96 <= p.speed <= 99
    ensures var o := IncrementSpeed(p, ok);
      o.panel.speed > MaxSpeed && !FanSpeedValid(o.panel.speed) && !SpeedsAccepted(o.sent)
  {
    var o := IncrementSpeed(p, ok);
    assert o.sent[0] == FanOn(p.speed + 5);
  }

  /** From the default page: switch the fan on, slide to 96, then press
      "+". The stored speed becomes 101 and the backend refuses the
      request carrying it. */
  lemma IncrementFromDefaultPage()
    ensures var r := Run(Initial(FanControl.DefaultInitialSpeed), [ToggleFan, Slide(96), Increment], [true, true, false], false);
      && r.0.speed == 101 && r.0.isFanOn
      && r.1 == [FanOn(50), FanOn(96), FanOn(101)] && !SpeedsAccepted(r.1)
  {
    var p0 := Initial(FanControl.DefaultInitialSpeed);
    var o1 := Step(p0, ToggleFan, true);
    assert o1.panel.isFanOn && o1.panel.speed == 50 && o1.sent == [FanOn(50)];
    var o2 := Step(o1.panel, Slide(96), true);
    assert o2.panel.isFanOn && o2.panel.speed == 96 && o2.sent == [FanOn(96)];
    var o3 := Step(o2.panel, Increment, false);
    assert o3.panel.isFanOn && o3.panel.speed == 101 && o3.sent == [FanOn(101)];
    var e3: seq<Event> := [Increment];
    var k3: seq<bool> := [false];
    assert Run(o3.panel, e3[1..], k3[1..], false) == (o3.panel, []);
    assert e3[0] == Increment && !k3[0];
    assert o3.sent + [] == [FanOn(101)];
    assert Run(o2.panel, e3, k3, false) == (o3.panel, [FanOn(101)]);
    var e2: seq<Event> := [Slide(96), Increment];
    var k2: seq<bool> := [true, false];
    assert e2[1..] == e3 && k2[1..] == k3;
    assert e2[0] == Slide(96) && k2[0];
    assert o2.sent + [FanOn(101)] == [FanOn(96), FanOn(101)];
    assert Run(o1.panel, e2, k2, false) == (o3.panel, [FanOn(96), FanOn(101)]);
    var e1: seq<Event> := [ToggleFan, Slide(96), Increment];
    var k1: seq<bool> := [true, true, false];
    assert e1[1..] == e2 && k1[1..] == k2;
    assert e1[0] == ToggleFan && k1[0];
    assert o1.sent + [FanOn(96), FanOn(101)] == [FanOn(50), FanOn(96), FanOn(101)];
    assert Run(p0, e1, k1, false) == (o3.panel, [FanOn(50), FanOn(96), FanOn(101)]);
    var sent: seq<Command> := [FanOn(50), FanOn(96), FanOn(101)];
    assert sent[2].FanOn? && !FanSpeedValid(sent[2].speed);
  }

  /** With the fan off, the speed controls are not on screen, so no run
      of them changes anything or sends anything. */
  lemma {:induction false} HiddenFanControlsIgnored(p: Panel, events: seq<Event>, oks: seq<bool>, clamped: bool)
    requires |oks| == |events| && !p.isFanOn
    requires forall i :: 0 <= i < |events| ==> events[i].Slide? || events[i] == Increment || events[i] == Decrement
    ensures Run(p, events, oks, clamped) == (p, [])
    decreases |events|
  {
    if |events| > 0 {
      assert !Available(p, events[0]);
      HiddenFanControlsIgnored(p, events[1..], oks[1..], clamped);
      var o := if clamped then StepClamped(p, events[0], oks[0]) else Step(p, events[0], oks[0]);
      assert o.panel == p && o.sent == [];
      assert o.sent + [] == [];
    }
  }

  /** As written, the decrement button takes any speed from 1 to 4 below
      0; the fan is switched off but the stored speed is negative. */
  lemma DecrementLeavesRange(p: Panel, ok: bool)
    requires 1 <= p.speed <= 4
    ensures var o := DecrementSpeed(p, ok);
      o.panel.speed < MinSpeed && !FanSpeedValid(o.panel.speed) && o.sent == [FanOff]
  {
  }

  /** From the default page: switch the fan on, slide to 3, press "-",
      then "Turn On". The stored speed is -2, so the page asks for
      `on(-2)`, which the backend refuses. */
  lemma DecrementThenTurnOn()
    ensures var r := Run(Initial(FanControl.DefaultInitialSpeed), [ToggleFan, Slide(3), Decrement, ToggleFan], [true, true, true, false], false);
      && r.0.speed == -2 && !r.0.isFanOn
      && r.1 == [FanOn(50), FanOn(3), FanOff, FanOn(-2)] && !SpeedsAccepted(r.1)
  {
    var p0 := Initial(FanControl.DefaultInitialSpeed);
    var o1 := Step(p0, ToggleFan, true);
    assert o1.panel.isFanOn && o1.panel.speed == 50 && o1.sent == [FanOn(50)];
    var o2 := Step(o1.panel, Slide(3), true);
    assert o2.panel.isFanOn && o2.panel.speed == 3 && o2.sent == [FanOn(3)];
    var o3 := Step(o2.panel, Decrement, true);
    assert !o3.panel.isFanOn && o3.panel.speed == -2 && o3.sent == [FanOff];
    var o4 := Step(o3.panel, ToggleFan, false);
    assert !o4.panel.isFanOn && o4.panel.speed == -2 && o4.sent == [FanOn(-2)];
    var e4: seq<Event> := [ToggleFan];
    var k4: seq<bool> := [false];
    assert Run(o4.panel, e4[1..], k4[1..], false) == (o4.panel, []);
    assert e4[0] == ToggleFan && !k4[0];
    assert o4.sent + [] == [FanOn(-2)];
    assert Run(o3.panel, e4, k4, false) == (o4.panel, [FanOn(-2)]);
    var e3: seq<Event> := [Decrement, ToggleFan];
    var k3: seq<bool> := [true, false];
    assert e3[1..] == e4 && k3[1..] == k4;
    assert e3[0] == Decrement && k3[0];
    assert o3.sent + [FanOn(-2)] == [FanOff, FanOn(-2)];
    assert Run(o2.panel, e3, k3, false) == (o4.panel, [FanOff, FanOn(-2)]);
    var e2: seq<Event> := [Slide(3), Decrement, ToggleFan];
    var k2: seq<bool> := [true, true, false];
    assert e2[1..] == e3 && k2[1..] == k3;
    assert e2[0] == Slide(3) && k2[0];
    assert o2.sent + [FanOff, FanOn(-2)] == [FanOn(3), FanOff, FanOn(-2)];
    assert Run(o1.panel, e2, k2, false) == (o4.panel, [FanOn(3), FanOff, FanOn(-2)]);
    var e1: seq<Event> := [ToggleFan, Slide(3), Decrement, ToggleFan];
    var k1: seq<bool> := [true, true, true, false];
    assert e1[1..] == e2 && k1[1..] == k2;
    assert e1[0] == ToggleFan && k1[0];
    assert o1.sent + [FanOn(3), FanOff, FanOn(-2)] == [FanOn(50), FanOn(3), FanOff, FanOn(-2)];
    assert Run(p0, e1, k1, false) == (o4.panel, [FanOn(50), FanOn(3), FanOff, FanOn(-2)]);
    var sent: seq<Command> := [FanOn(50), FanOn(3), FanOff, FanOn(-2)];
    assert sent[3].FanOn? && !FanSpeedValid(sent[3].speed);
  }
}
