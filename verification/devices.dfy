/** The dashboard's device cards: the `useDeviceControl` hook that keeps
    the on/off state of each device and updates it after the backend
    confirms, and the `DeviceControls` cards that request toggles and
    colour changes. The update call is a parameter: it answers with a
    success flag or fails with an exception. */
module DeviceCards {
  import opened Options
  import opened Text
  import opened LedColors

  datatype Device = Humidity | Temperature | LedColorDevice | LightIntensity

  /** The device's key, as it appears in messages. */
  function DeviceName(d: Device): string {
    match d
    case Humidity => "humidity"
    case Temperature => "temperature"
    case LedColorDevice => "ledColor"
    case LightIntensity => "lightIntensity"
  }

  /** `DeviceState`. */
  datatype Devices = Devices(humidity: bool, temperature: bool, ledColor: bool, lightIntensity: bool)

  function Get(ds: Devices, d: Device): bool {
    match d
    case Humidity => ds.humidity
    case Temperature => ds.temperature
    case LedColorDevice => ds.ledColor
    case LightIntensity => ds.lightIntensity
  }

  /** `{ ...prev, [device]: state }`. */
  function Set(ds: Devices, d: Device, state: bool): (r: Devices)
    ensures Get(r, d) == state
    ensures forall e :: e != d ==> Get(r, e) == Get(ds, e)
  {
    match d
    case Humidity => ds.(humidity := state)
    case Temperature => ds.(temperature := state)
    case LedColorDevice => ds.(ledColor := state)
    case LightIntensity => ds.(lightIntensity := state)
  }

  /** The hook's state before the devices are loaded. */
  const InitialDevices := Devices(false, true, false, false)

  lemma InitialDevicesState()
    ensures !Get(InitialDevices, Humidity) && Get(InitialDevices, Temperature)
    ensures !Get(InitialDevices, LedColorDevice) && !Get(InitialDevices, LightIntensity)
  {
  }

  /** What `updateDeviceState` does: answers, or throws. */
  datatype Response = Answered(success: bool) | Threw

  /** The hook's state: the devices and the last error message. */
  datatype Hook = Hook(devices: Devices, error: Option<string>)

  /** `toggleDevice(device, newState)`: the new hook state and the value
      the call resolves to. */
  function ToggleDevice(h: Hook, d: Device, newState: bool, resp: Response): (r: (Hook, bool))
    ensures r.1 <==> resp == Answered(true)
    ensures r.1 ==> r.0 == Hook(Set(h.devices, d, newState), h.error)
    ensures !r.1 ==> r.0.devices == h.devices
    ensures resp.Answered? ==> r.0.error == h.error
    ensures resp == Threw ==> r.0.error == Some("Failed to toggle " + DeviceName(d))
  {
    match resp
    case Answered(ok) =>
      (if ok then Hook(Set(h.devices, d, newState), h.error) else h, ok)
    case Threw => (Hook(h.devices, Some("Failed to toggle " + DeviceName(d))), false)
  }

  /** A successful toggle changes only the named device. */
  lemma ToggleChangesOnlyDevice(h: Hook, d: Device, newState: bool)
    ensures var r := ToggleDevice(h, d, newState, Answered(true));
      Get(r.0.devices, d) == newState
      && (forall e :: e != d ==> Get(r.0.devices, e) == Get(h.devices, e))
  {
  }

  /** Repeating a successful toggle to the same state changes nothing more. */
  lemma ToggleIdempotent(h: Hook, d: Device, newState: bool)
    ensures var h1 := ToggleDevice(h, d, newState, Answered(true)).0;
      ToggleDevice(h1, d, newState, Answered(true)).0 == h1
  {
  }

  /** The error message names the device, so the four messages differ. */
  lemma ErrorNamesDevice(h: Hook, d: Device, e: Device)
    requires ToggleDevice(h, d, true, Threw).0.error == ToggleDevice(h, e, true, Threw).0.error
    ensures d == e
  {
    var m := "Failed to toggle ";
    assert (m + DeviceName(d))[|m|..] == DeviceName(d);
    assert (m + DeviceName(e))[|m|..] == DeviceName(e);
  }

  // ---------------------------------------------------------------------
  // DeviceControls

  /** The three cards with an on/off switch. */
  datatype Card = HumidityCard | TemperatureCard | LightIntensityCard

  function CardDevice(c: Card): Device {
    match c
    case HumidityCard => Humidity
    case TemperatureCard => Temperature
    case LightIntensityCard => LightIntensity
  }

  /** `onToggleDevice(device, !devices[device])` from a card's switch. */
  function CardToggle(ds: Devices, c: Card): (r: (Device, bool))
    ensures r.0 == CardDevice(c) && r.1 == !Get(ds, r.0)
  {
    (CardDevice(c), !Get(ds, CardDevice(c)))
  }

  /** Pressing a card's switch and having the update succeed flips that
      device alone; pressing it twice restores the state. */
  lemma CardToggleFlips(h: Hook, c: Card)
    ensures var (d, s) := CardToggle(h.devices, c);
      var h1 := ToggleDevice(h, d, s, Answered(true)).0;
      Get(h1.devices, d) != Get(h.devices, d)
      && (forall e :: e != d ==> Get(h1.devices, e) == Get(h.devices, e))
      && ToggleDevice(h1, d, !Get(h1.devices, d), Answered(true)).0 == h
  {
  }

  /** The requests the cards send: `/light/switch/on`, and
      `/light/switch/colorchange` whose `code` is left out of the body
      when the lookup found nothing. */
  datatype Request = LightOn | ColorChange(code: Option<string>)

  /** `handleColorChange(color)`: switches the light on and sends the
      code of the upper-cased colour name, without waiting for the first
      request. The light's flag follows the switch-on answer. */
  function HandleColorChange(isLightOn: bool, color: string, lightOnOk: bool): (r: (bool, seq<Request>))
    ensures r.1 == [LightOn, ColorChange(Lookup(Upper(color)))]
    ensures r.0 == (isLightOn || lightOnOk)
  {
    (isLightOn || lightOnOk, [LightOn, ColorChange(Lookup(Upper(color)))])
  }

  /** The colour name is looked up without regard to case. */
  lemma ColorChangeIgnoresCase(isLightOn: bool, color: string, ok: bool)
    ensures HandleColorChange(isLightOn, color, ok) == HandleColorChange(isLightOn, Upper(color), ok)
  {
    UpperIdempotent(color);
  }

  lemma UpperIdempotent(s: string)
    ensures Upper(Upper(s)) == Upper(s)
  {
  }

  /** Choosing "blue" in the colour selector sends a colour change with no
      code; a palette colour sends its own code. */
  lemma BlueSendsNoCode(isLightOn: bool, ok: bool)
    ensures HandleColorChange(isLightOn, "BLUE", ok).1[1] == ColorChange(None)
    ensures HandleColorChange(isLightOn, "red", ok).1[1] == ColorChange(Some("#FF0000"))
  {
    BlueIsMissing();
    ColorMapIsPalette();
    assert Upper("BLUE") == "BLUE";
    assert Upper("red") == "RED" == Palette[0].name;
  }
}
