/** The header's threshold check (frontend/components/layout/Header.tsx):
    each new sensor reading is compared with the fixed `THRESHOLDS` table
    and every breach becomes a `data_threshold` notification in the
    header's own buffer. The reading and the per-minute data counter are
    parameters; the timers that produce and reset them are not modelled. */
module HeaderThresholds {
  import opened Text
  import opened Seqs
  import opened Notifications

  /** The four quantities the check watches, in the order it checks them. */
  datatype Channel = Temperature | Humidity | LightIntensity | DataRate

  /** `THRESHOLDS`. */
  const TemperatureLimit: int := 30
  const HumidityLimit: int := 80
  const LightIntensityLimit: int := 90
  const DataRateLimit: int := 2

  function Limit(ch: Channel): int {
    match ch
    case Temperature => TemperatureLimit
    case Humidity => HumidityLimit
    case LightIntensity => LightIntensityLimit
    case DataRate => DataRateLimit
  }

  /** The data-type label each alert is raised with. */
  function Label(ch: Channel): string {
    match ch
    case Temperature => "Nhiệt độ"
    case Humidity => "Độ ẩm"
    case LightIntensity => "Cường độ ánh sáng"
    case DataRate => "Tốc độ dữ liệu"
  }

  /** Position of a channel in the check. */
  function Rank(ch: Channel): nat {
    match ch
    case Temperature => 0
    case Humidity => 1
    case LightIntensity => 2
    case DataRate => 3
  }

  /** `SensorData`. */
  datatype SensorData = SensorData(temperature: real, humidity: real, lightIntensity: real)

  /** One `addDataThresholdAlert` call: channel, reported value, threshold. */
  datatype Alert = Alert(channel: Channel, value: int, threshold: int)

  /** `Math.round`: the nearest integer, halves going up. */
  function Round(x: real): (r: int)
    ensures x - 0.5 < r as real <= x + 0.5
  {
    (x + 0.5).Floor
  }

  /** The quantity compared with the channel's threshold. */
  function Reading(data: SensorData, counter: int, ch: Channel): real {
    match ch
    case Temperature => data.temperature
    case Humidity => data.humidity
    case LightIntensity => data.lightIntensity
    case DataRate => counter as real
  }

  /** The value the alert reports: readings are rounded, the counter is not. */
  function Reported(data: SensorData, counter: int, ch: Channel): int {
    if ch == DataRate then counter else Round(Reading(data, counter, ch))
  }

  /** A breach is strictly above the threshold. */
  predicate Breached(data: SensorData, counter: int, ch: Channel) {
    Reading(data, counter, ch) > Limit(ch) as real
  }

  function AlertIf(data: SensorData, counter: int, ch: Channel): seq<Alert> {
    if Breached(data, counter, ch) then [Alert(ch, Reported(data, counter, ch), Limit(ch))] else []
  }

  /** Some alert in the list is about `ch`. */
  predicate Raised(alerts: seq<Alert>, ch: Channel) {
    exists i :: 0 <= i < |alerts| && alerts[i].channel == ch
  }

  lemma RaisedConcat(x: seq<Alert>, y: seq<Alert>, ch: Channel)
    ensures Raised(x + y, ch) <==> Raised(x, ch) || Raised(y, ch)
  {
    if Raised(x + y, ch) {
      var i :| 0 <= i < |x + y| && (x + y)[i].channel == ch;
      if i >= |x| {
        assert y[i - |x|].channel == ch;
      }
    }
    if Raised(y, ch) {
      var i :| 0 <= i < |y| && y[i].channel == ch;
      assert (x + y)[|x| + i].channel == ch;
    }
    if Raised(x, ch) {
      var i :| 0 <= i < |x| && x[i].channel == ch;
      assert (x + y)[i].channel == ch;
    }
  }

  lemma RaisedAlertIf(data: SensorData, counter: int, ch: Channel, c: Channel)
    ensures Raised(AlertIf(data, counter, c), ch) <==> c == ch && Breached(data, counter, c)
  {
    if c == ch && Breached(data, counter, c) {
      assert AlertIf(data, counter, c)[0].channel == ch;
    }
  }

  /** `checkThresholds(data)` with the current `dataCounter`. */
  function CheckThresholds(data: SensorData, counter: int): (alerts: seq<Alert>)
    ensures |alerts| <= 4
    ensures forall ch: Channel :: Raised(alerts, ch) <==> Breached(data, counter, ch)
    ensures forall i :: 0 <= i < |alerts| ==>
      alerts[i].threshold == Limit(alerts[i].channel)
      && alerts[i].value == Reported(data, counter, alerts[i].channel)
    ensures forall i, j :: 0 <= i < j < |alerts| ==> Rank(alerts[i].channel) < Rank(alerts[j].channel)
  {
    var t := AlertIf(data, counter, Temperature);
    var h := AlertIf(data, counter, Humidity);
    var l := AlertIf(data, counter, LightIntensity);
    var d := AlertIf(data, counter, DataRate);
    assert forall ch: Channel :: Raised(t + h + l + d, ch) <==> Breached(data, counter, ch) by {
      forall ch: Channel
        ensures Raised(t + h + l + d, ch) <==> Breached(data, counter, ch)
      {
        RaisedConcat(t + h + l, d, ch);
        RaisedConcat(t + h, l, ch);
        RaisedConcat(t, h, ch);
        RaisedAlertIf(data, counter, ch, Temperature);
        RaisedAlertIf(data, counter, ch, Humidity);
        RaisedAlertIf(data, counter, ch, LightIntensity);
        RaisedAlertIf(data, counter, ch, DataRate);
      }
    }
    t + h + l + d
  }

  /** A reading exactly at its threshold raises nothing. */
  lemma AtThresholdIsQuiet(data: SensorData, counter: int)
    requires data.temperature == TemperatureLimit as real
    requires data.humidity == HumidityLimit as real
    requires data.lightIntensity == LightIntensityLimit as real
    requires counter == DataRateLimit
    ensures CheckThresholds(data, counter) == []
  {
  }

  /** The add requests the check makes, in order. */
  function Requests(alerts: seq<Alert>): (ps: seq<Pending>)
    ensures |ps| == |alerts|
    ensures forall i :: 0 <= i < |ps| ==> ps[i].kind == DataThreshold
  {
    seq(|alerts|, i requires 0 <= i < |alerts| =>
      Pending(ThresholdMessage(Label(alerts[i].channel), alerts[i].value, alerts[i].threshold), DataThreshold))
  }

  /** The check applied to the header's buffer. */
  function CheckAndNotify(buf: Buffer, data: SensorData, counter: int, now: nat): Buffer {
    AddAll(buf, DefaultCapacity, Requests(CheckThresholds(data, counter)), now)
  }

  /** Temperature 32 against threshold 30 yields one alert reporting 32
      and 30, at the head of the buffer. */
  lemma HotReadingScenario(buf: Buffer, now: nat)
    ensures CheckAndNotify(buf, SensorData(32.0, 60.0, 50.0), 0, now)
      == Add(buf, DefaultCapacity, ThresholdMessage(Label(Temperature), 32, 30), DataThreshold, now)
  {
    var alerts := CheckThresholds(SensorData(32.0, 60.0, 50.0), 0);
    assert alerts == [Alert(Temperature, 32, 30)];
    var p := Pending(ThresholdMessage(Label(Temperature), 32, 30), DataThreshold);
    assert Requests(alerts) == [p];
    assert AddAll(buf, DefaultCapacity, [p], now) == Add(buf, DefaultCapacity, p.message, p.kind, now);
  }

  /** Notifying the same alerts twice puts the same texts at the head
      of the buffer again. */
  lemma {:induction false} RepeatedRequests(buf: Buffer, alerts: seq<Alert>, t1: nat, t2: nat)
    requires Bounded(buf, DefaultCapacity) && |alerts| <= DefaultCapacity
    ensures var b1 := AddAll(buf, DefaultCapacity, Requests(alerts), t1);
      var b2 := AddAll(b1, DefaultCapacity, Requests(alerts), t2);
      |b1| >= |alerts| && |b2| >= |alerts|
      && forall i :: 0 <= i < |alerts| ==> b2[i].message == b1[i].message && b2[i].kind == DataThreshold
  {
    var ps := Requests(alerts);
    RepeatedAddAll(buf, DefaultCapacity, ps, t1, t2);
  }

  /** There is no cooldown: running the check again on the same data puts
      the same alert texts at the head of the buffer again. */
  lemma RepeatedCheckRealerts(buf: Buffer, data: SensorData, counter: int, t1: nat, t2: nat)
    requires Bounded(buf, DefaultCapacity)
    ensures var k := |CheckThresholds(data, counter)|;
      var b1 := CheckAndNotify(buf, data, counter, t1);
      var b2 := CheckAndNotify(b1, data, counter, t2);
      |b1| >= k && |b2| >= k
      && forall i :: 0 <= i < k ==> b2[i].message == b1[i].message && b2[i].kind == DataThreshold
  {
    RepeatedRequests(buf, CheckThresholds(data, counter), t1, t2);
  }
}
