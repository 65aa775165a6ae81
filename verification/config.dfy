/** The accessory constructor: configuration defaults, the sensors it
    exposes, and the fail-fast checks on the device address and token. */
module Config {
  import opened Js

  /** The accessory's configuration entries; an absent entry is `Undefined`. */
  datatype Settings = Settings(
    ip: Value,
    token: Value,
    name: Value,
    showAirQuality: Value,
    showTemperature: Value,
    showHumidity: Value,
    maxFanSpeed: Value)

  /** The optional sensor services, in the order they are added. */
  datatype Sensor = AirQualitySensor | TemperatureSensor | HumiditySensor

  /** The device handle, created as the constructor's last step. */
  datatype Device = Device(address: Value, token: Value)

  datatype Accessory = Accessory(
    name: Value,
    showAirQuality: Value,
    showTemperature: Value,
    showHumidity: Value,
    fanFactor: Value,
    sensors: seq<Sensor>,
    device: Device)

  datatype ConfigError = MissingIp | MissingToken {
    function Message(): string {
      match this
      case MissingIp => "Your must provide IP address of the Air Purifier."
      case MissingToken => "Your must provide token of the Air Purifier."
    }
  }

  /** The constructor either builds the accessory or throws. */
  datatype Construction = Built(accessory: Accessory) | Thrown(error: ConfigError)

  const DefaultName: string := "Air Purifier"

  /** The configured maximum fan level used when none (or zero) is given. */
  const DefaultMaxFanSpeed: real := 16.0

  /** A usable scale factor: a number the rotation-speed read may divide by. */
  predicate ValidFactor(f: Value) {
    IsNumber(f) && f != Num(0.0)
  }

  /** `(maxFanSpeed || 16) / 100`. */
  function FanFactor(maxFanSpeed: Value): (f: Value)
    ensures ValidFactor(f)
    ensures !Truthy(maxFanSpeed) ==> f == Num(DefaultMaxFanSpeed / 100.0)
    ensures maxFanSpeed.Num? && maxFanSpeed.x != 0.0 ==> f == Num(maxFanSpeed.x / 100.0)
  {
    Div(ToNumber(Or(maxFanSpeed, Num(DefaultMaxFanSpeed))), Num(100.0))
  }

  /** The sensor services registered for the given display flags. */
  function Sensors(showAirQuality: Value, showTemperature: Value, showHumidity: Value): (s: seq<Sensor>)
    ensures AirQualitySensor in s <==> Truthy(showAirQuality)
    ensures TemperatureSensor in s <==> Truthy(showTemperature)
    ensures HumiditySensor in s <==> Truthy(showHumidity)
    ensures forall i, j :: 0 <= i < j < |s| ==> s[i] != s[j]
  {
    (if Truthy(showAirQuality) then [AirQualitySensor] else [])
    + (if Truthy(showTemperature) then [TemperatureSensor] else [])
    + (if Truthy(showHumidity) then [HumiditySensor] else [])
  }

  /** The constructor. The humidity flag is copied from `showTemperature`;
      the `showHumidity` entry is never read. */
  function Construct(c: Settings): (r: Construction)
    ensures r.Thrown? <==> !Truthy(c.ip) || !Truthy(c.token)
    ensures !Truthy(c.ip) ==> r == Thrown(MissingIp)
    ensures Truthy(c.ip) && !Truthy(c.token) ==> r == Thrown(MissingToken)
    ensures r.Built? ==> r.accessory.device == Device(c.ip, c.token)
    ensures r.Built? ==> r.accessory.name == (if Truthy(c.name) then c.name else Str(DefaultName))
    ensures r.Built? ==> ValidFactor(r.accessory.fanFactor)
    ensures r.Built? ==> r.accessory.fanFactor == FanFactor(c.maxFanSpeed)
    ensures r.Built? && !Truthy(c.maxFanSpeed) ==> r.accessory.fanFactor == Num(0.16)
    ensures r.Built? ==> (AirQualitySensor in r.accessory.sensors <==> Truthy(c.showAirQuality))
    ensures r.Built? ==> (TemperatureSensor in r.accessory.sensors <==> Truthy(c.showTemperature))
    ensures r.Built? ==> (HumiditySensor in r.accessory.sensors <==> Truthy(c.showTemperature))
  {
    var name := Or(c.name, Str(DefaultName));
    var showAirQuality := Or(c.showAirQuality, Bool(false));
    var showTemperature := Or(c.showTemperature, Bool(false));
    var showHumidity := Or(c.showTemperature, Bool(false));
    var factor := FanFactor(c.maxFanSpeed);
    if !Truthy(c.ip) then Thrown(MissingIp)
    else if !Truthy(c.token) then Thrown(MissingToken)
    else
      Built(Accessory(name, showAirQuality, showTemperature, showHumidity, factor,
        Sensors(showAirQuality, showTemperature, showHumidity), Device(c.ip, c.token)))
  }

  /** The `showHumidity` entry has no effect: changing it alone never changes
      what the constructor produces. */
  lemma HumidityEntryIgnored(c: Settings, v: Value)
    ensures Construct(c.(showHumidity := v)) == Construct(c)
  {
  }
}
