/** The attribute translation layer: one get handler per HomeKit
    characteristic, which sends a `get_prop` query and decodes the first
    result, and one set handler per writable characteristic, which encodes
    the value into one RPC verb and argument and checks the acknowledgement.
    Each handler is a pure function of the value written (for setters) and
    of the reply the proxy produced for the request it sends. */
module Purifier {
  import opened Js
  import opened Rpc
  import opened Homekit
  import opened AirQualityTable
  import Scaling
  import Config

  /** The device's operating mode; only "idle" and "favorite" carry meaning. */
  datatype Mode = Idle | Favorite | Other(raw: Value)

  /** The mode a `get_prop ["mode"]` result names; the comparison is strict,
      so only those exact strings are recognised. */
  function ModeOf(v: Value): (m: Mode)
    ensures m == Idle <==> v == Str("idle")
    ensures m == Favorite <==> v == Str("favorite")
    ensures m.Other? ==> m.raw == v
  {
    if v == Str("idle") then Idle
    else if v == Str("favorite") then Favorite
    else Other(v)
  }

  function PowerOf(m: Mode): Power {
    if m == Idle then Inactive else Active
  }

  function RunStateOf(m: Mode): PurifierState {
    if m == Idle then PurifierInactive else PurifyingAir
  }

  function TargetOf(m: Mode): TargetState {
    if m == Favorite then Manual else Auto
  }

  function LockOf(v: Value): LockControls {
    if v == Str("on") then LockEnabled else LockDisabled
  }

  /** The argument of `set_power` and `set_child_lock`. */
  function Switch(state: Value): string {
    if Truthy(state) then "on" else "off"
  }

  /** The argument of `set_mode`. */
  function ModeCommand(state: Value): string {
    if Truthy(state) then "auto" else "favorite"
  }

  /** The verb the rotation-speed setter sends. Some firmware versions are
      said to expect `set_favorite_level` instead; the adapter does not. */
  const LevelVerb: string := "set_level_favorite"

  /** A getter answers with a decoded value or forwards the proxy's fault;
      it never reports a device rejection. */
  predicate ReadOutcome<T>(reply: Reply, outcome: Callback<T>) {
    && (reply.Ok? ==> outcome.Answered?)
    && (reply.Fault? ==> outcome == Failed(Transport(reply.error)))
  }

  function GetActive(reply: Reply): (x: Exchange<Power>)
    ensures x.sent == Query("mode")
    ensures ReadOutcome(reply, x.outcome)
    ensures x.outcome == Answered(Inactive) <==> reply.Ok? && First(reply.result) == Str("idle")
    ensures x.outcome == Answered(Active) <==> reply.Ok? && First(reply.result) != Str("idle")
  {
    Exchange(Query("mode"), Decoded(reply, v => PowerOf(ModeOf(v))))
  }

  function SetActive(state: Value, reply: Reply): (x: Exchange<()>)
    ensures x.sent.verb == "set_power"
    ensures x.sent.params == [Str("on")] <==> Truthy(state)
    ensures x.sent.params == [Str("off")] <==> !Truthy(state)
    ensures x.outcome == Acknowledge(reply)
  {
    Exchange(Request("set_power", [Str(Switch(state))]), Acknowledge(reply))
  }

  function GetCurrentAirPurifierState(reply: Reply): (x: Exchange<PurifierState>)
    ensures x.sent == Query("mode")
    ensures ReadOutcome(reply, x.outcome)
    ensures x.outcome != Answered(PurifierIdle)
    ensures x.outcome == Answered(PurifierInactive) <==> reply.Ok? && First(reply.result) == Str("idle")
    ensures x.outcome == Answered(PurifyingAir) <==> reply.Ok? && First(reply.result) != Str("idle")
  {
    Exchange(Query("mode"), Decoded(reply, v => RunStateOf(ModeOf(v))))
  }

  function GetTargetAirPurifierState(reply: Reply): (x: Exchange<TargetState>)
    ensures x.sent == Query("mode")
    ensures ReadOutcome(reply, x.outcome)
    ensures x.outcome == Answered(Manual) <==> reply.Ok? && First(reply.result) == Str("favorite")
    ensures x.outcome == Answered(Auto) <==> reply.Ok? && First(reply.result) != Str("favorite")
  {
    Exchange(Query("mode"), Decoded(reply, v => TargetOf(ModeOf(v))))
  }

  function SetTargetAirPurifierState(state: Value, reply: Reply): (x: Exchange<()>)
    ensures x.sent.verb == "set_mode"
    ensures x.sent.params == [Str("auto")] <==> Truthy(state)
    ensures x.sent.params == [Str("favorite")] <==> !Truthy(state)
    ensures x.outcome == Acknowledge(reply)
  {
    Exchange(Request("set_mode", [Str(ModeCommand(state))]), Acknowledge(reply))
  }

  function GetLockPhysicalControls(reply: Reply): (x: Exchange<LockControls>)
    ensures x.sent == Query("child_lock")
    ensures ReadOutcome(reply, x.outcome)
    ensures x.outcome == Answered(LockEnabled) <==> reply.Ok? && First(reply.result) == Str("on")
    ensures x.outcome == Answered(LockDisabled) <==> reply.Ok? && First(reply.result) != Str("on")
  {
    Exchange(Query("child_lock"), Decoded(reply, LockOf))
  }

  function SetLockPhysicalControls(state: Value, reply: Reply): (x: Exchange<()>)
    ensures x.sent.verb == "set_child_lock"
    ensures x.sent.params == [Str("on")] <==> Truthy(state)
    ensures x.sent.params == [Str("off")] <==> !Truthy(state)
    ensures x.outcome == Acknowledge(reply)
  {
    Exchange(Request("set_child_lock", [Str(Switch(state))]), Acknowledge(reply))
  }

  /** Humidity is passed through exactly as the device reports it. */
  function GetCurrentRelativeHumidity(reply: Reply): (x: Exchange<Value>)
    ensures x.sent == Query("humidity")
    ensures ReadOutcome(reply, x.outcome)
    ensures reply.Ok? ==> x.outcome.value == First(reply.result)
  {
    Exchange(Query("humidity"), Decoded(reply, (v: Value) => v))
  }

  /** The speed a favourite-level reading stands for:
      `Math.min(100, Math.round(v / factor))`. */
  function SpeedReading(v: Value, factor: Value): (s: Value)
    requires Config.ValidFactor(factor)
    ensures IsNumber(s)
    ensures s.Num? <==> factor.Num? && ToNumber(v).Num?
    ensures s.Num? ==> s.x <= 100.0 && s.x == s.x.Floor as real
    ensures ToNumber(v).Num? && factor.Num? ==>
      s == Num(Scaling.SpeedOfLevel(ToNumber(v).x, factor.x) as real)
  {
    var n := ToNumber(v);
    if n.Num? && factor.Num? then
      var r := RoundHalfUp(n.x / factor.x);
      assert Round(Div(n, factor)) == Num(r as real);
      Min(Num(100.0), Num(r as real))
    else
      Min(Num(100.0), Round(Div(n, factor)))
  }

  /** The favourite level a speed is written as: `Math.round(speed * factor)`. */
  function LevelArgument(speed: Value, factor: Value): (l: Value)
    requires IsNumber(factor)
    ensures IsNumber(l)
    ensures l.Num? <==> factor.Num? && ToNumber(speed).Num?
    ensures l.Num? ==> l.x == l.x.Floor as real
    ensures ToNumber(speed).Num? && factor.Num? ==>
      l == Num(Scaling.LevelOfSpeed(ToNumber(speed).x, factor.x) as real)
  {
    var n := ToNumber(speed);
    if n.Num? && factor.Num? then
      assert Mul(n, factor) == Num(n.x * factor.x);
      assert Scaling.LevelOfSpeed(n.x, factor.x) == RoundHalfUp(n.x * factor.x);
      Num(RoundHalfUp(n.x * factor.x) as real)
    else
      Round(Mul(n, factor))
  }

  function GetRotationSpeed(factor: Value, reply: Reply): (x: Exchange<Value>)
    requires Config.ValidFactor(factor)
    ensures x.sent == Query("favorite_level")
    ensures ReadOutcome(reply, x.outcome)
    ensures reply.Ok? ==> x.outcome.value == SpeedReading(First(reply.result), factor)
  {
    Exchange(Query("favorite_level"), Decoded(reply, (v: Value) => SpeedReading(v, factor)))
  }

  function SetRotationSpeed(speed: Value, factor: Value, reply: Reply): (x: Exchange<()>)
    requires IsNumber(factor)
    ensures x.sent == Request(LevelVerb, [LevelArgument(speed, factor)])
    ensures x.outcome == Acknowledge(reply)
  {
    Exchange(Request(LevelVerb, [LevelArgument(speed, factor)]), Acknowledge(reply))
  }

  /** The category of the first threshold the AQI reaches; when it reaches
      none, the callback is never invoked. */
  function GetAirQuality(reply: Reply): (x: Exchange<AirQuality>)
    ensures x.sent == Query("aqi")
    ensures reply.Fault? ==> x.outcome == Failed(Transport(reply.error))
    ensures x.outcome == NotCalled <==> reply.Ok? && !AtLeast(First(reply.result), 0.0)
    ensures reply.Ok? ==> !x.outcome.Failed?
    ensures reply.Ok? && AtLeast(First(reply.result), 0.0) ==> x.outcome.Answered?
    ensures x.outcome.Answered? ==>
      Some(x.outcome.value) == Band(ToNumber(First(reply.result)).x)
  {
    if reply.Fault? then Exchange(Query("aqi"), Failed(Transport(reply.error)))
    else
      var v := First(reply.result);
      ScanMatchesBands(v);
      var q := FirstMatch(Levels, v);
      Exchange(Query("aqi"), if q.Some? then Answered(q.value) else NotCalled)
  }

  /** The device reports tenths of a degree. */
  function GetCurrentTemperature(reply: Reply): (x: Exchange<Value>)
    ensures x.sent == Query("temp_dec")
    ensures ReadOutcome(reply, x.outcome)
    ensures reply.Ok? ==> IsNumber(x.outcome.value)
    ensures reply.Ok? ==> (x.outcome.value.Num? <==> ToNumber(First(reply.result)).Num?)
    ensures reply.Ok? && x.outcome.value.Num? ==>
      x.outcome.value.x * 10.0 == ToNumber(First(reply.result)).x
  {
    Exchange(Query("temp_dec"), Decoded(reply, (v: Value) => Div(ToNumber(v), Num(10.0))))
  }

  /** Active and CurrentAirPurifierState are read from the same mode and
      always agree: inactive together when idle, active and purifying
      together otherwise, and failing together on a fault. */
  lemma PowerAgreesWithRunState(reply: Reply)
    ensures GetActive(reply).outcome == Answered(Inactive)
      <==> GetCurrentAirPurifierState(reply).outcome == Answered(PurifierInactive)
    ensures GetActive(reply).outcome == Answered(Active)
      <==> GetCurrentAirPurifierState(reply).outcome == Answered(PurifyingAir)
    ensures GetActive(reply).outcome.Failed? <==> GetCurrentAirPurifierState(reply).outcome.Failed?
  {
  }

  /** Writing a target state and reading the mode it sets gives the same
      target state back. The host passes the characteristic's numeric code,
      and MANUAL is code 0, the one falsy value. */
  lemma TargetStateRoundTrip(t: TargetState, ack: Reply, reading: Reply)
    requires reading.Ok? && |reading.result| > 0
    requires reading.result[0] == SetTargetAirPurifierState(Num(t.Code() as real), ack).sent.params[0]
    ensures GetTargetAirPurifierState(reading).outcome == Answered(t)
  {
  }

  /** The same for the child lock. */
  lemma ChildLockRoundTrip(l: LockControls, ack: Reply, reading: Reply)
    requires reading.Ok? && |reading.result| > 0
    requires reading.result[0] == SetLockPhysicalControls(Num(l.Code() as real), ack).sent.params[0]
    ensures GetLockPhysicalControls(reading).outcome == Answered(l)
  {
  }

  /** The other direction: a device in "auto" or "favorite" mode, read as a
      target state and written back, is sent the mode it was in. Any other
      mode reads as AUTO and is written back as "auto". */
  lemma ModeReadThenWrite(mode: Value, reading: Reply, ack: Reply)
    requires reading == Ok([mode])
    ensures var read := GetTargetAirPurifierState(reading).outcome;
      read.Answered? &&
      SetTargetAirPurifierState(Num(read.value.Code() as real), ack).sent.params
        == [if mode == Str("favorite") then mode else Str("auto")]
  {
  }

  /** A child-lock setting of "on" or "off", read and written back, is sent
      unchanged. */
  lemma ChildLockReadThenWrite(setting: Value, reading: Reply, ack: Reply)
    requires setting == Str("on") || setting == Str("off")
    requires reading == Ok([setting])
    ensures var read := GetLockPhysicalControls(reading).outcome;
      read.Answered? &&
      SetLockPhysicalControls(Num(read.value.Code() as real), ack).sent.params == [setting]
  {
  }

  /** Writing Active sends "on" and writing Inactive sends "off". */
  lemma PowerEncoding(p: Power, ack: Reply)
    ensures SetActive(Num(p.Code() as real), ack).sent.params
      == [Str(if p == Active then "on" else "off")]
  {
  }

  /** Every setter reports success exactly for an "ok" acknowledgement,
      rejects with any other first result as the error, and forwards a
      proxy fault unchanged. */
  lemma SettersShareAcknowledgement(state: Value, factor: Value, reply: Reply)
    requires IsNumber(factor)
    ensures var outcomes := [
        SetActive(state, reply).outcome,
        SetTargetAirPurifierState(state, reply).outcome,
        SetLockPhysicalControls(state, reply).outcome,
        SetRotationSpeed(state, factor, reply).outcome];
      forall i :: 0 <= i < |outcomes| ==>
        && (outcomes[i] == Answered(()) <==> reply.Ok? && First(reply.result) == Str("ok"))
        && (reply.Ok? && First(reply.result) != Str("ok") ==>
              outcomes[i] == Failed(Rejected(First(reply.result))))
        && (reply.Fault? ==> outcomes[i] == Failed(Transport(reply.error)))
  {
  }

  /** The device's "error_busy" acknowledgement surfaces as an error carrying
      exactly that value. */
  lemma BusyDeviceRejects(state: Value, reply: Reply)
    requires reply == Ok([Str("error_busy")])
    ensures SetActive(state, reply).outcome
      == Failed(Rejected(Str("error_busy")))
  {
  }

  /** With the default factor, setting speed 50 sends level 8, and a device
      level of 8 reads as speed 50. */
  lemma RotationSpeedScenario(ack: Reply, reading: Reply)
    requires reading == Ok([Num(8.0)])
    ensures SetRotationSpeed(Num(50.0), Num(Scaling.DefaultFactor), ack).sent
      == Request(LevelVerb, [Num(8.0)])
    ensures GetRotationSpeed(Num(Scaling.DefaultFactor), reading).outcome
      == Answered(Num(50.0))
  {
    Scaling.DefaultScenario();
  }

  /** For a factor of at most 1, writing back the speed just read leaves the
      device's favourite level unchanged. */
  lemma ReadThenWriteKeepsLevel(l: int, m: real, reading: Reply, ack: Reply)
    requires 0.0 < m <= 1.0 && 0 <= l && l as real <= 100.0 * m
    requires reading == Ok([Num(l as real)])
    ensures var read := GetRotationSpeed(Num(m), reading).outcome;
      read.Answered? && SetRotationSpeed(read.value, Num(m), ack).sent.params == [Num(l as real)]
  {
    Scaling.ReadThenWriteExact(l, m);
  }

  /** A reading of 215 tenths is 21.5 degrees. */
  lemma TemperatureScenario(reading: Reply)
    requires reading == Ok([Num(215.0)])
    ensures GetCurrentTemperature(reading).outcome == Answered(Num(21.5))
  {
  }
}
