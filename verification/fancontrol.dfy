/** The fan card of the dashboard: every way of changing the speed goes
    through one handler that clamps the value to 0..100, stores it and
    reports it to the parent. */
module FanControl {
  import opened Text
  import opened BackendModel

  /** `Math.max(0, Math.min(100, s))`. */
  function Clamp(s: int): (r: int)
    ensures MinSpeed <= r <= MaxSpeed
    ensures MinSpeed <= s <= MaxSpeed ==> r == s
    ensures s < MinSpeed ==> r == MinSpeed
    ensures s > MaxSpeed ==> r == MaxSpeed
  {
    Max(MinSpeed, Min(MaxSpeed, s))
  }

  /** Clamping twice is clamping once. */
  lemma ClampIdempotent(s: int)
    ensures Clamp(Clamp(s)) == Clamp(s)
  {
  }

  /** Every clamped speed is one the backend's `FanSpeed` accepts. */
  lemma ClampAccepted(s: int)
    ensures FanSpeedValid(Clamp(s))
  {
  }

  /** The card's one piece of state: `fanSpeed`, initially `initialSpeed`
      (50 by default), which the component does not check. */
  datatype Card = Card(speed: int)

  const DefaultInitialSpeed := 50

  /** A handler's result: the new state and the value passed to
      `onSpeedChange`. */
  datatype Change = Change(card: Card, reported: int)

  /** `handleSpeedChange(newSpeed)`. */
  function HandleSpeedChange(c: Card, newSpeed: int): (r: Change)
    ensures r.reported == r.card.speed
    ensures FanSpeedValid(r.card.speed)
    ensures MinSpeed <= newSpeed <= MaxSpeed ==> r.card.speed == newSpeed
    ensures r.card.speed == Clamp(newSpeed)
  {
    var s := Clamp(newSpeed);
    Change(Card(s), s)
  }

  /** `increaseSpeed`. */
  function IncreaseSpeed(c: Card): (r: Change)
    ensures r.reported == r.card.speed && FanSpeedValid(r.card.speed)
    ensures c.speed >= MaxSpeed ==> r.card.speed == MaxSpeed
    ensures MinSpeed - 5 <= c.speed <= MaxSpeed - 5 ==> r.card.speed == c.speed + 5
    ensures c.speed > MaxSpeed - 5 ==> r.card.speed == MaxSpeed
  {
    HandleSpeedChange(c, c.speed + 5)
  }

  /** `decreaseSpeed`. */
  function DecreaseSpeed(c: Card): (r: Change)
    ensures r.reported == r.card.speed && FanSpeedValid(r.card.speed)
    ensures c.speed <= MinSpeed ==> r.card.speed == MinSpeed
    ensures MinSpeed + 5 <= c.speed <= MaxSpeed + 5 ==> r.card.speed == c.speed - 5
    ensures c.speed < MinSpeed + 5 ==> r.card.speed == MinSpeed
  {
    HandleSpeedChange(c, c.speed - 5)
  }

  /** The card's three controls. */
  datatype Event = Slide(value: int) | Increase | Decrease

  function Handle(c: Card, e: Event): Change {
    match e
    case Slide(v) => HandleSpeedChange(c, v)
    case Increase => IncreaseSpeed(c)
    case Decrease => DecreaseSpeed(c)
  }

  /** The card after a run of events. */
  function Run(c: Card, events: seq<Event>): Card
    decreases |events|
  {
    if |events| == 0 then c else Run(Handle(c, events[0]).card, events[1..])
  }

  /** Whatever the initial speed, once any control has been used the
      stored speed is one the backend accepts, and stays so. */
  lemma {:induction false} RunStaysValid(c: Card, events: seq<Event>)
    requires |events| > 0 || FanSpeedValid(c.speed)
    ensures FanSpeedValid(Run(c, events).speed)
    decreases |events|
  {
    if |events| > 0 {
      RunStaysValid(Handle(c, events[0]).card, events[1..]);
    }
  }

  /** Away from the ends, one step up and one step down cancel out. */
  lemma IncreaseThenDecrease(c: Card)
    requires 5 <= c.speed <= 95
    ensures DecreaseSpeed(IncreaseSpeed(c).card).card == c
    ensures IncreaseSpeed(DecreaseSpeed(c).card).card == c
  {
  }

  /** At the ends the step saturates instead. */
  lemma StepsSaturate()
    ensures IncreaseSpeed(Card(100)).card == Card(100)
    ensures DecreaseSpeed(Card(0)).card == Card(0)
    ensures DecreaseSpeed(IncreaseSpeed(Card(98)).card).card == Card(95)
  {
  }
}
