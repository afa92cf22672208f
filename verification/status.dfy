/** The status labels the sensor pages show next to a reading. Each page
    has its own bands: the humidity, temperature and light-intensity pages
    label the current value of their sensor, and the sensors overview page
    labels all four readings of its latest sample, with bands and wording
    of its own. */
module StatusBands {
  import opened Text

  /** The Tailwind text colours the labels use. */
  datatype Color = Red | Yellow | Blue | Green

  function ColorClass(c: Color): string {
    match c
    case Red => "text-red-600"
    case Yellow => "text-yellow-600"
    case Blue => "text-blue-600"
    case Green => "text-green-600"
  }

  /** `{ text, color }` as the single-sensor pages return it. */
  datatype Status = Status(text: string, color: Color)

  /** `{ value, status, color }` as the sensors overview page returns it. */
  datatype SensorStatus = SensorStatus(value: real, status: string, color: Color)

  // ---------------------------------------------------------------------
  // Single-sensor pages

  /** `getHumidityStatus` on the humidity page. */
  function HumidityStatus(h: real): (s: Status)
    ensures h >= 70.0 <==> s == Status("Too Humid", Red)
    ensures 60.0 <= h < 70.0 <==> s == Status("High Humidity", Yellow)
    ensures h <= 30.0 <==> s == Status("Too Dry", Yellow)
    ensures 30.0 < h < 60.0 <==> s == Status("Optimal Humidity", Green)
  {
    if h >= 70.0 then Status("Too Humid", Red)
    else if h >= 60.0 then Status("High Humidity", Yellow)
    else if h <= 30.0 then Status("Too Dry", Yellow)
    else Status("Optimal Humidity", Green)
  }

  /** `getTemperatureStatus` on the temperature page. */
  function TemperatureStatus(t: real): (s: Status)
    ensures t >= 35.0 <==> s == Status("Danger - Too Hot!", Red)
    ensures 30.0 <= t < 35.0 <==> s == Status("Warning - High Temperature", Yellow)
    ensures t <= 15.0 <==> s == Status("Warning - Low Temperature", Blue)
    ensures 15.0 < t < 30.0 <==> s == Status("Normal Temperature", Green)
  {
    if t >= 35.0 then Status("Danger - Too Hot!", Red)
    else if t >= 30.0 then Status("Warning - High Temperature", Yellow)
    else if t <= 15.0 then Status("Warning - Low Temperature", Blue)
    else Status("Normal Temperature", Green)
  }

  /** `getLightStatus` on the light-intensity page: five bands. */
  function LightStatus(l: real): (s: Status)
    ensures l >= 80.0 <==> s == Status("Very Bright", Yellow)
    ensures 60.0 <= l < 80.0 <==> s == Status("Bright", Green)
    ensures l <= 20.0 <==> s == Status("Too Dark", Blue)
    ensures 20.0 < l <= 40.0 <==> s == Status("Low Light", Yellow)
    ensures 40.0 < l < 60.0 <==> s == Status("Optimal Light", Green)
  {
    if l >= 80.0 then Status("Very Bright", Yellow)
    else if l >= 60.0 then Status("Bright", Green)
    else if l <= 20.0 then Status("Too Dark", Blue)
    else if l <= 40.0 then Status("Low Light", Yellow)
    else Status("Optimal Light", Green)
  }

  // ---------------------------------------------------------------------
  // The sensors overview page

  /** `getTemperatureStatus` on the sensors page. */
  function SensorsTemperatureStatus(value: real): (s: SensorStatus)
    ensures s.value == value
    ensures value >= 35.0 <==> (s.status, s.color) == ("Danger - Too Hot!", Red)
    ensures 30.0 <= value < 35.0 <==> (s.status, s.color) == ("Warning - High", Yellow)
    ensures value <= 15.0 <==> (s.status, s.color) == ("Warning - Low", Blue)
    ensures 15.0 < value < 30.0 <==> (s.status, s.color) == ("Normal", Green)
  {
    if value >= 35.0 then SensorStatus(value, "Danger - Too Hot!", Red)
    else if value >= 30.0 then SensorStatus(value, "Warning - High", Yellow)
    else if value <= 15.0 then SensorStatus(value, "Warning - Low", Blue)
    else SensorStatus(value, "Normal", Green)
  }

  /** `getHumidityStatus` on the sensors page. */
  function SensorsHumidityStatus(value: real): (s: SensorStatus)
    ensures s.value == value
    ensures value >= 70.0 <==> (s.status, s.color) == ("Too Humid", Red)
    ensures 60.0 <= value < 70.0 <==> (s.status, s.color) == ("High Humidity", Yellow)
    ensures value <= 30.0 <==> (s.status, s.color) == ("Too Dry", Yellow)
    ensures 30.0 < value < 60.0 <==> (s.status, s.color) == ("Optimal", Green)
  {
    if value >= 70.0 then SensorStatus(value, "Too Humid", Red)
    else if value >= 60.0 then SensorStatus(value, "High Humidity", Yellow)
    else if value <= 30.0 then SensorStatus(value, "Too Dry", Yellow)
    else SensorStatus(value, "Optimal", Green)
  }

  /** `getLightStatus` on the sensors page: only three bands. */
  function SensorsLightStatus(value: real): (s: SensorStatus)
    ensures s.value == value
    ensures value >= 80.0 <==> (s.status, s.color) == ("Very Bright", Yellow)
    ensures value <= 20.0 <==> (s.status, s.color) == ("Too Dark", Blue)
    ensures 20.0 < value < 80.0 <==> (s.status, s.color) == ("Good", Green)
  {
    if value >= 80.0 then SensorStatus(value, "Very Bright", Yellow)
    else if value <= 20.0 then SensorStatus(value, "Too Dark", Blue)
    else SensorStatus(value, "Good", Green)
  }

  /** Air-quality grades from worst to best. */
  datatype AirGrade = Poor | Fair | Good | Excellent

  function GradeRank(g: AirGrade): nat {
    match g
    case Poor => 0
    case Fair => 1
    case Good => 2
    case Excellent => 3
  }

  function GradeLabel(g: AirGrade): (string, Color) {
    match g
    case Poor => ("Poor", Red)
    case Fair => ("Fair", Yellow)
    case Good => ("Good", Blue)
    case Excellent => ("Excellent", Green)
  }

  /** The grade `getAirQualityStatus` picks. */
  function AirGradeOf(value: real): (g: AirGrade)
    ensures value >= 80.0 <==> g == Excellent
    ensures 60.0 <= value < 80.0 <==> g == Good
    ensures 40.0 <= value < 60.0 <==> g == Fair
    ensures value < 40.0 <==> g == Poor
  {
    if value >= 80.0 then Excellent
    else if value >= 60.0 then Good
    else if value >= 40.0 then Fair
    else Poor
  }

  /** `getAirQualityStatus` on the sensors page. */
  function SensorsAirQualityStatus(value: real): (s: SensorStatus)
    ensures s.value == value
    ensures (s.status, s.color) == GradeLabel(AirGradeOf(value))
  {
    var (status, color) := GradeLabel(AirGradeOf(value));
    SensorStatus(value, status, color)
  }

  /** A better air reading never gets a worse grade. */
  lemma AirQualityMonotone(a: real, b: real)
    requires a <= b
    ensures GradeRank(AirGradeOf(a)) <= GradeRank(AirGradeOf(b))
  {
  }

  /** The grade labels are distinct, so the label determines the grade. */
  lemma GradeLabelInjective(g1: AirGrade, g2: AirGrade)
    requires GradeLabel(g1).0 == GradeLabel(g2).0
    ensures g1 == g2
  {
  }

  // ---------------------------------------------------------------------
  // How the two pages' labels relate

  /** For temperature and humidity the sensors page uses the bands and
      colours of the single-sensor page, with shortened wording: its label
      is always a prefix of the single-sensor page's label. */
  lemma SensorsShortenPageLabels(v: real)
    ensures SensorsTemperatureStatus(v).color == TemperatureStatus(v).color
    ensures StartsWith(TemperatureStatus(v).text, SensorsTemperatureStatus(v).status)
    ensures SensorsHumidityStatus(v).color == HumidityStatus(v).color
    ensures StartsWith(HumidityStatus(v).text, SensorsHumidityStatus(v).status)
  {
  }

  /** For light the two pages disagree: the sensors page's "Good" covers
      the page's "Bright", "Low Light" and "Optimal Light" bands, so at 30
      the same reading is green on one page and yellow on the other. */
  lemma LightLabelsDiffer(v: real)
    ensures SensorsLightStatus(v).status == "Good" <==>
      LightStatus(v).text in {"Bright", "Low Light", "Optimal Light"}
    ensures SensorsLightStatus(30.0).color == Green && LightStatus(30.0).color == Yellow
  {
  }
}
