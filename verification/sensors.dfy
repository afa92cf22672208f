/** The sensors overview page: a rolling window of the latest fifty
    samples, the four status labels of the newest sample, and the chart's
    per-series visibility flags. The five-second timer and the random demo
    samples are not modelled; samples arrive as a sequence. */
module SensorsDashboard {
  import opened Text
  import opened Seqs
  import opened StatusBands

  /** `SensorData`: one sample of all four sensors. */
  datatype Reading = Reading(timestamp: int, humidity: real, temperature: real, lightIntensity: real, airQuality: real)

  /** How many samples the chart keeps. */
  const WindowSize: nat := 50

  /** `[...prev.slice(-49), newData]`. */
  function Append(history: seq<Reading>, sample: Reading): (r: seq<Reading>)
    ensures |r| == Min(|history| + 1, WindowSize)
    ensures r[|r| - 1] == sample
    ensures r[..|r| - 1] == history[|history| - (|r| - 1)..]
  {
    Slice(history, -(WindowSize - 1), |history|) + [sample]
  }

  /** The page's history after the given samples arrive one by one. */
  function AppendAll(history: seq<Reading>, samples: seq<Reading>): seq<Reading>
    decreases |samples|
  {
    if |samples| == 0 then history
    else AppendAll(Append(history, samples[0]), samples[1..])
  }

  /** The latest fifty entries of `s`, oldest first. */
  function Latest(s: seq<Reading>): (r: seq<Reading>)
    ensures |r| == Min(|s|, WindowSize)
  {
    s[Max(|s| - WindowSize, 0)..]
  }

  /** Starting empty, the window holds exactly the latest fifty samples
      (all of them while there are fewer), oldest first. */
  lemma WindowHoldsLatest(samples: seq<Reading>)
    ensures AppendAll([], samples) == Latest(samples)
  {
    WindowSlides([], samples);
    assert [] + samples == samples;
  }

  /** One arrival keeps the latest fifty of the window extended by the
      sample. */
  lemma AppendIsLatest(history: seq<Reading>, sample: Reading)
    ensures Append(history, sample) == Latest(history + [sample])
  {
    var h1 := history + [sample];
    var r := Append(history, sample);
    var k := Max(|h1| - WindowSize, 0);
    assert |r| == |h1| - k;
    assert forall i :: 0 <= i < |r| - 1 ==> r[i] == h1[k + i];
  }

  /** Trimming to the latest fifty before appending more changes nothing
      about the latest fifty after. */
  lemma LatestOfLatest(a: seq<Reading>, b: seq<Reading>)
    ensures Latest(Latest(a) + b) == Latest(a + b)
  {
    var k := Max(|a| - WindowSize, 0);
    var c := a[k..] + b;
    var j := Max(|c| - WindowSize, 0);
    assert k + j == Max(|a + b| - WindowSize, 0);
    assert c[j..] == (a + b)[k + j..];
  }

  /** Appending to any window keeps the latest fifty of the old window
      followed by the new samples. */
  lemma {:induction false} WindowSlides(history: seq<Reading>, samples: seq<Reading>)
    requires |history| <= WindowSize
    ensures AppendAll(history, samples) == Latest(history + samples)
    decreases |samples|
  {
    if |samples| == 0 {
      assert history + samples == history;
    } else {
      var rest := samples[1..];
      var h1 := history + [samples[0]];
      calc {
        AppendAll(history, samples);
        AppendAll(Append(history, samples[0]), rest);
        { AppendIsLatest(history, samples[0]); }
        AppendAll(Latest(h1), rest);
        { WindowSlides(Latest(h1), rest); }
        Latest(Latest(h1) + rest);
        { LatestOfLatest(h1, rest); }
        Latest(h1 + rest);
        { assert h1 + rest == history + samples; }
        Latest(history + samples);
      }
    }
  }

  /** The window never grows past fifty samples. */
  lemma {:induction false} WindowBounded(history: seq<Reading>, samples: seq<Reading>)
    requires |history| <= WindowSize
    ensures |AppendAll(history, samples)| <= WindowSize
    decreases |samples|
  {
    if |samples| > 0 {
      WindowBounded(Append(history, samples[0]), samples[1..]);
    }
  }

  // ---------------------------------------------------------------------
  // Current values

  /** `currentValues`: the four labels of the newest sample. */
  datatype CurrentValues = CurrentValues(humidity: SensorStatus, temperature: SensorStatus, lightIntensity: SensorStatus, airQuality: SensorStatus)

  /** `updateCurrentValues(data)`: each of the four labels is the
      overview page's classification of the matching reading. */
  function UpdateCurrentValues(data: Reading): (c: CurrentValues)
    ensures c.humidity.value == data.humidity && c.temperature.value == data.temperature
    ensures c.lightIntensity.value == data.lightIntensity && c.airQuality.value == data.airQuality
    ensures c.humidity == SensorsHumidityStatus(data.humidity)
    ensures c.temperature == SensorsTemperatureStatus(data.temperature)
    ensures c.lightIntensity == SensorsLightStatus(data.lightIntensity)
    ensures c.airQuality.status == GradeLabel(AirGradeOf(data.airQuality)).0
    ensures c.airQuality.color == GradeLabel(AirGradeOf(data.airQuality)).1
  {
    CurrentValues(
      SensorsHumidityStatus(data.humidity),
      SensorsTemperatureStatus(data.temperature),
      SensorsLightStatus(data.lightIntensity),
      SensorsAirQualityStatus(data.airQuality))
  }

  /** The labels before the first sample: humidity 50, temperature 25,
      light 60, air quality 75. */
  const InitialValues := CurrentValues(
    SensorsHumidityStatus(50.0),
    SensorsTemperatureStatus(25.0),
    SensorsLightStatus(60.0),
    SensorsAirQualityStatus(75.0))

  lemma InitialValuesLabels()
    ensures InitialValues.humidity.status == "Optimal"
    ensures InitialValues.temperature.status == "Normal"
    ensures InitialValues.lightIntensity.status == "Good"
    ensures InitialValues.airQuality.status == "Good"
  {
  }

  /** After any run of arrivals the newest sample in the window is the
      last one that arrived, so the labels computed from it describe the
      end of the chart. */
  lemma LabelsFollowNewest(history: seq<Reading>, samples: seq<Reading>)
    requires |history| <= WindowSize && |samples| > 0
    ensures var w := AppendAll(history, samples);
      |w| > 0 && UpdateCurrentValues(w[|w| - 1]) == UpdateCurrentValues(samples[|samples| - 1])
  {
    WindowSlides(history, samples);
    var all := history + samples;
    assert all[|all| - 1] == samples[|samples| - 1];
  }

  /** The overview labels agree with the single-sensor pages: humidity and
      temperature get the same colour and a prefix of the same wording. */
  lemma CurrentValuesAgreeWithPages(data: Reading)
    ensures var c := UpdateCurrentValues(data);
      && c.humidity.color == HumidityStatus(data.humidity).color
      && StartsWith(HumidityStatus(data.humidity).text, c.humidity.status)
      && c.temperature.color == TemperatureStatus(data.temperature).color
      && StartsWith(TemperatureStatus(data.temperature).text, c.temperature.status)
  {
    SensorsShortenPageLabels(data.humidity);
    SensorsShortenPageLabels(data.temperature);
  }

  // ---------------------------------------------------------------------
  // Dataset visibility

  /** The four chart series. */
  datatype Dataset = HumiditySeries | TemperatureSeries | LightSeries | AirQualitySeries

  /** `visibleDatasets`. */
  datatype Visible = Visible(humidity: bool, temperature: bool, lightIntensity: bool, airQuality: bool)

  /** Every series starts visible. */
  const InitialVisible := Visible(true, true, true, true)

  function IsVisible(v: Visible, d: Dataset): bool {
    match d
    case HumiditySeries => v.humidity
    case TemperatureSeries => v.temperature
    case LightSeries => v.lightIntensity
    case AirQualitySeries => v.airQuality
  }

  /** `toggleDataset(dataset)`. */
  function ToggleDataset(v: Visible, d: Dataset): (r: Visible)
    ensures IsVisible(r, d) == !IsVisible(v, d)
    ensures forall e :: e != d ==> IsVisible(r, e) == IsVisible(v, e)
  {
    match d
    case HumiditySeries => v.(humidity := !v.humidity)
    case TemperatureSeries => v.(temperature := !v.temperature)
    case LightSeries => v.(lightIntensity := !v.lightIntensity)
    case AirQualitySeries => v.(airQuality := !v.airQuality)
  }

  /** Toggling the same series twice restores the flags. */
  lemma ToggleTwice(v: Visible, d: Dataset)
    ensures ToggleDataset(ToggleDataset(v, d), d) == v
  {
  }

  /** Toggles of different series commute. */
  lemma TogglesCommute(v: Visible, d: Dataset, e: Dataset)
    ensures ToggleDataset(ToggleDataset(v, d), e) == ToggleDataset(ToggleDataset(v, e), d)
  {
  }
}
