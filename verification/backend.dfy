/** The request models of the backend: `FanSpeed` bounds the speed a fan
    command may carry and `login_info` bounds the lengths of the
    credentials. A pydantic model rejects a request whose field breaks one
    of its `Field` constraints; the model states each constraint as a
    validator that names the first constraint a value breaks. The
    `Config` class in the same file sits at the top level rather than
    inside a model, so it configures nothing and no whitespace is
    stripped. */
module BackendModel {
  import opened Options

  /** The `Field` constraints the two models use. */
  datatype Constraint = GreaterEqual(lo: int) | LessEqual(hi: int) | MinLength(min: nat) | MaxLength(max: nat)

  const MinSpeed := 0
  const MaxSpeed := 100

  /** `FanSpeed.speed`: `ge=0, le=100`. */
  function CheckSpeed(speed: int): (e: Option<Constraint>)
    ensures e == None <==> MinSpeed <= speed <= MaxSpeed
    ensures e == Some(GreaterEqual(MinSpeed)) <==> speed < MinSpeed
    ensures e == Some(LessEqual(MaxSpeed)) <==> speed > MaxSpeed
  {
    if speed < MinSpeed then Some(GreaterEqual(MinSpeed))
    else if speed > MaxSpeed then Some(LessEqual(MaxSpeed))
    else None
  }

  /** The speeds a fan command may carry. */
  predicate FanSpeedValid(speed: int) {
    CheckSpeed(speed) == None
  }

  /** Both ends of the range are accepted and nothing beyond them. */
  lemma FanSpeedBoundaries()
    ensures FanSpeedValid(0) && FanSpeedValid(100)
    ensures !FanSpeedValid(-1) && !FanSpeedValid(101)
  {
  }

  /** A string field's `min_length` and `max_length` constraints. */
  function CheckLength(s: string, min: nat, max: nat): (e: Option<Constraint>)
    ensures e == None <==> min <= |s| <= max
    ensures e == Some(MinLength(min)) <==> |s| < min
    ensures min <= max ==> (e == Some(MaxLength(max)) <==> |s| > max)
  {
    if |s| < min then Some(MinLength(min))
    else if |s| > max then Some(MaxLength(max))
    else None
  }

  /** The two fields of `login_info`. */
  datatype LoginField = Username | Password

  /** `login_info`: every failing field in declaration order, each with
      the constraint it breaks. */
  function CheckLogin(username: string, password: string): (errors: seq<(LoginField, Constraint)>)
    ensures |errors| == 0 <==> 1 <= |username| <= 200 && 1 <= |password| <= 255
    ensures |errors| <= 2
    ensures forall i :: 0 <= i < |errors| ==>
      (errors[i].0 == Username ==> i == 0 && CheckLength(username, 1, 200) == Some(errors[i].1))
    ensures (|errors| > 0 && errors[|errors| - 1].0 == Password) <==> !(1 <= |password| <= 255)
    ensures |errors| > 0 && errors[|errors| - 1].0 == Password ==>
      CheckLength(password, 1, 255) == Some(errors[|errors| - 1].1)
  {
    var u := match CheckLength(username, 1, 200)
      case None => []
      case Some(c) => [(Username, c)];
    var p := match CheckLength(password, 1, 255)
      case None => []
      case Some(c) => [(Password, c)];
    u + p
  }
}
