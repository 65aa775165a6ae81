# Mi air purifier attribute translation, in Dafny

This project models the attribute translation layer of the Homebridge
accessory for the Xiaomi Mi air purifier. The layer converts between the
purifier's miio RPC vocabulary and HomeKit characteristic values, in both
directions:

- each getter sends one `get_prop` query and decodes the first element of the result;
- each setter encodes a characteristic value into one RPC verb and argument, then checks the device's acknowledgement;
- the accessory constructor applies configuration defaults and refuses a configuration without a device address or token.

Stripped of promises and callbacks, each handler is a pure function. It
takes the value written (for setters) and the reply the RPC proxy produced.
It returns an `Exchange`: the request it sends and the way it completes the
host's callback (`Answered`, `Failed` with a transport fault or a device
rejection, or `NotCalled`).

Modules:

- `Js` (`js.dfy`): JavaScript values and the operators the adapter applies to them. This covers truthiness, `||`, ToNumber, `/`, `*`, `Math.round` (floor of x + 1/2), `Math.min` and `>=`. Numbers are exact reals or NaN.
- `Rpc` (`rpc.dfy`): requests, replies, the acknowledgement rule and the getter completion.
- `Homekit` (`homekit.dfy`): the characteristic values and their numeric codes. The codes are the HAP-NodeJS constants; HAP-NodeJS is not part of this model.
- `Scaling` (`scaling.dfy`): the rotation-speed scale and its round-trip properties.
- `AirQualityTable` (`air_quality.dfy`): the first-match threshold table.
- `Config` (`config.dfy`): the constructor.
- `Purifier` (`purifier.dfy`): the handlers, plus the lemmas that relate readers to writers.

The model follows index.js, not the upstream documentation, where the two differ:

- A getter forwards the proxy's own error object on a fault. It does not wrap it in a separate "device unavailable" error.
- The rotation-speed verb is the fixed string `set_level_favorite`. It is not configurable.
- Writing a rotation speed and reading it back is not within ±1 in general.
- The humidity sensor follows the `showTemperature` entry.

## Model

| member | source | states |
|---|---|---|
| Rpc.Acknowledge | index.js:119 | A setter succeeds exactly when the first result is the string "ok". Any other first result is a rejection carrying that value. A proxy fault is forwarded unchanged and is never turned into a rejection. |
| Js.RoundHalfUp | index.js:171 | `Math.round` on a finite number lies within half a step: x - 1/2 < r <= x + 1/2. |
| Purifier.ModeOf | index.js:112 | Only the exact strings "idle" and "favorite" are recognised as modes (strict equality). Every other value, including non-strings, is an "other" mode. |
| Purifier.GetActive | index.js:109-114 | Queries `mode`. Answers INACTIVE exactly when the mode is "idle", and ACTIVE otherwise. A fault is forwarded and no acknowledgement is checked. |
| Purifier.SetActive | index.js:116-122 | Sends `set_power ["on"]` exactly for a truthy state and `["off"]` otherwise. Completes by the acknowledgement rule. |
| Purifier.GetCurrentAirPurifierState | index.js:124-129 | Queries `mode`. Answers INACTIVE exactly for "idle" and PURIFYING_AIR otherwise; it never answers IDLE. |
| Purifier.GetTargetAirPurifierState | index.js:131-136 | Queries `mode`. Answers MANUAL exactly for "favorite" and AUTO for every other mode. |
| Purifier.SetTargetAirPurifierState | index.js:138-144 | Sends `set_mode ["auto"]` exactly for a truthy state and `["favorite"]` otherwise. Completes by the acknowledgement rule. |
| Purifier.GetLockPhysicalControls | index.js:146-152 | Queries `child_lock`. Answers CONTROL_LOCK_ENABLED exactly for "on" and DISABLED for anything else. |
| Purifier.SetLockPhysicalControls | index.js:154-159 | Sends `set_child_lock ["on"]` exactly for a truthy state and `["off"]` otherwise. Completes by the acknowledgement rule. |
| Purifier.GetCurrentRelativeHumidity | index.js:161-166 | Queries `humidity` and answers with the raw first result unchanged. |
| Purifier.SpeedReading | index.js:171 | A level reading becomes a speed: an integer of at most 100, or NaN exactly when the factor is NaN or the reading converts to NaN (undefined, a string). Null reads as 0 and a boolean as 0 or 1. Whenever the converted reading and the factor are numbers, it equals `Scaling.SpeedOfLevel` of them. |
| Purifier.GetRotationSpeed | index.js:168-173 | Queries `favorite_level` and answers with the speed the reading stands for. |
| Purifier.LevelArgument | index.js:177 | A speed becomes an integral level, `Scaling.LevelOfSpeed` of the converted speed and the factor. It is NaN exactly when the factor is NaN or the speed converts to NaN (undefined, a string); null converts to 0 and a boolean to 0 or 1. |
| Purifier.SetRotationSpeed | index.js:175-181 | Sends the verb `set_level_favorite` with the scaled level as its one argument. Completes by the acknowledgement rule. |
| Purifier.GetAirQuality | index.js:183-201 | Queries `aqi`. The callback is never invoked exactly when the reading, converted to a number, is negative or NaN (undefined, a string). Null reads as 0 and a boolean as 0 or 1. Otherwise it answers the band of the converted reading, and it never reports a device rejection. |
| Purifier.GetCurrentTemperature | index.js:203-209 | Queries `temp_dec`. Answers a number that, multiplied by 10, gives the converted reading. It answers NaN exactly when the reading converts to NaN (undefined, a string); null reads as 0 and a boolean as 0 or 1. |
| Purifier.PowerAgreesWithRunState | index.js:109-129 | Active and CurrentAirPurifierState always agree: both are inactive for "idle", both active and purifying otherwise, and both fail on a fault. |
| Purifier.TargetStateRoundTrip | index.js:131-144 | Writing target state t and reading back the mode that write sent yields t, for MANUAL and AUTO. |
| Purifier.ModeReadThenWrite | index.js:131-144 | Reading a mode as a target state and writing it back sends "favorite" for "favorite" and "auto" for every other mode. |
| Purifier.ChildLockRoundTrip | index.js:146-159 | Writing a lock state and reading back the setting that write sent yields the same lock state. |
| Purifier.ChildLockReadThenWrite | index.js:146-159 | The settings "on" and "off", read and written back, are sent unchanged. |
| Purifier.PowerEncoding | index.js:116-117 | Writing ACTIVE (code 1) sends "on" and writing INACTIVE (code 0) sends "off". |
| Purifier.SettersShareAcknowledgement | index.js:116-181 | All four setters follow the same acknowledgement rule. "ok" means success; any other first result is a rejection carrying it; a fault is forwarded unchanged. |
| Purifier.BusyDeviceRejects | index.js:119 | An `["error_busy"]` acknowledgement fails with a rejection carrying "error_busy". |
| Purifier.RotationSpeedScenario | index.js:168-181 | With the default factor 0.16, speed 50 is sent as level 8, and level 8 reads as speed 50. |
| Purifier.ReadThenWriteKeepsLevel | index.js:168-181 | For a factor of at most 1, every level from 0 to the configured maximum is read as a speed which, written back, sends the same level. |
| Purifier.TemperatureScenario | index.js:206 | A reading of 215 answers 21.5. |
| AirQualityTable.FirstMatch | index.js:194-199 | The scan yields the category of the first row whose threshold the reading reaches with `>=`, and yields nothing exactly when it reaches none. |
| AirQualityTable.ScanMatchesBands | index.js:184-199 | Scanning the table from 200 down gives readings of 200 and above POOR, [150,200) INFERIOR, [100,150) FAIR, [50,100) GOOD and [0,50) EXCELLENT. A negative or NaN reading gets nothing. |
| AirQualityTable.Boundaries | index.js:184-199 | Exact boundaries: 200 POOR, 199 and 150 INFERIOR, 100 FAIR, 50 GOOD, 49 and 0 EXCELLENT, -1 nothing. |
| AirQualityTable.CategorisedIffNonNegative | index.js:189-199 | A reading gets a category exactly when it converts to a non-negative number, and never UNKNOWN. Undefined and strings convert to NaN; null converts to 0 and a boolean to 0 or 1. |
| AirQualityTable.Monotone | index.js:184-190 | A higher reading never gets a better category, and never loses a category a lower reading had. |
| Scaling.SpeedOfLevel | index.js:171 | A decoded speed is at most 100, is non-negative for a non-negative level and positive factor, and is within half a step of level / factor unless capped. |
| Scaling.LevelOfSpeed | index.js:177 | An encoded level is within half a step of speed × factor, and is non-negative for non-negative inputs. |
| Scaling.DefaultScenario | index.js:20 | With the default maximum 16, speed 50 encodes to 8 and level 8 decodes to 50. |
| Scaling.SmallSpeedReadsBackAsZero | index.js:171-177 | With the default factor, speed 3 encodes to level 0, which decodes to 0, so a write then read is not within one percent. |
| Scaling.WriteThenReadBounded | index.js:171-177 | For any positive factor m, a written speed in 0..100 reads back within 1/2 + 1/(2m) of itself. |
| Scaling.WriteThenReadExact | index.js:171-177 | For a factor of at least 1, a written speed in 0..100 reads back exactly. |
| Scaling.ReadThenWriteExact | index.js:171-177 | For a factor in (0,1], each level up to 100 × factor decodes to a speed that encodes back to the same level. |
| Config.FanFactor | index.js:20 | The factor is the configured maximum / 100, or 16/100 when the entry is missing, zero or otherwise falsy. Over the values the model expresses it is never zero, so the rotation-speed read can divide by it (see "Left out"). |
| Config.Sensors | index.js:68-96 | Each optional sensor is registered exactly when its flag is truthy, and at most once. |
| Config.Construct | index.js:12-28 | Throws the address error exactly when `ip` is falsy, and otherwise throws the token error exactly when `token` is falsy; no device handle exists then. When it succeeds it creates the device from `ip` and `token`. The name defaults to "Air Purifier". The factor is `Config.FanFactor` of the `maxFanSpeed` entry, which is 0.16 when the entry is absent. The humidity sensor is gated on `showTemperature`. |
| Config.HumidityEntryIgnored | index.js:19 | Changing only the `showHumidity` entry never changes what the constructor produces. |

## Left out

- Homebridge registration, service and characteristic wiring, `getServices` and the no-op `identify` (index.js:5-10, 31-96, 211-217). They hold no translation logic; only the sensor gating is modelled, as `Config.Sensors`.
- The miio device handle and the network call. `Config.Device` records the address and token the handle is built from. The proxy's reply is an input to every handler.
- Promise and callback asynchrony. Each handler is one round trip with no shared state, so it is modelled as a function. If the callback itself throws inside `.then`, the `.catch` would invoke it a second time; that path is not modelled.
- IEEE-754 doubles. Arithmetic is over exact reals, with `Math.round` as floor(x + 1/2). Infinity and negative zero are not modelled.
- Config.FanFactor: object and array configuration values are not modelled; `Js.Value` has no variant for them. JavaScript converts `[]` to 0, so `"maxFanSpeed": []` would give a factor of 0 in the source, and every positive level would then read as `Math.min(100, Infinity)` = 100. A string entry such as `"20"` gives 0.2 in the source but NaN in the model, because `Js.ToNumber` treats strings as NaN. The factor is "never zero" only over the values the model can express. A numeric configuration entry is the documented form.
- Js.ToNumber: a string operand of `/`, `*` or `>=` is treated as NaN. JavaScript would parse numeric strings such as "215". The device reports these properties as numbers. For the `maxFanSpeed` configuration entry, see the `Config.FanFactor` line above.
- Rpc.Failure: a device rejection keeps the raw acknowledgement value. The source builds `new Error(result[0])`, whose message is that value converted to a string, or empty when it is undefined.
- The `set_favorite_level` verb that some firmware versions are said to need. The model sends `set_level_favorite`, the constant the code uses.
- A "within ±1" round trip for rotation speed is not promised by the code and does not hold (`Scaling.SmallSpeedReadsBackAsZero`). The model proves the true bound `Scaling.WriteThenReadBounded` instead.
