# Air-conditioner controller state engine

A Dafny model of the `Ac` class of an ESP8266 air-conditioner bridge. The class
keeps the desired state of one air-conditioning unit: mode, fan speed, target
temperature, two swing flags, quiet and powerful. It takes partial JSON
requests from WebSocket clients and drives one of three IR encoders (Daikin,
Panasonic, Hitachi), chosen at compile time. It broadcasts the state as a JSON
object. Four boolean flags persist in EEPROM across restarts.

The model is a set of pure functions from one `Ac` record to the next.

- **Effects are an append-only log.** Every call into the selected IR encoder
  is logged as `Dispatch(cmd)`, every broadcast as `Published(doc)`, and every
  EEPROM commit as `Committed`, in the order the source makes them. A proof
  about "what was sent" is therefore a statement about that log.
- **EEPROM is two 512-byte images.** `pending` is the write cache that `read`
  and `write` see. `committed` is what `commit` flushes to flash and what the
  next start-up loads.

Modules:

- `Settings`: the backend selector and its numeric codes (include/settings.h).
- `Eeprom`: the 512-byte store with its write cache and commit.
- `Json`: JSON values, documents, and the type coercions the setters get.
- `Ir`: the abstract encoder commands and which ones each backend implements.
- `Ascii`: `String::toLowerCase` on ASCII letters.
- `AcModel`: the object's fields and the EEPROM offsets (include/ac.h), the
  mode and fan vocabularies, and the invariant.
- `AcEngine`: every operation of src/ac.cpp.
- `AcProperties`: lemmas that relate several operations. These cover
  idempotence, the restart round trip, the order of request keys, one
  transmission per request, the serialisation round trip, wrap-safe timing,
  and the invariant of every reachable state.

The invariant (`AcModel.Invariant`) has five parts:

- the mode is one of the six mode words;
- the fan speed is one of the three fan words;
- quiet and powerful are never both on;
- each of the four flags equals its cached EEPROM byte being 1;
- when the object is not dirty, the flash equals the cache.

Start-up establishes it, and every input (request, client connection, loop
pass) keeps it.

Two details of the code shape the model:

- Every key present in a request is applied with ArduinoJson's type coercion
  (src/ac.cpp:132-161). So `"verticalSwing": "yes"` reaches `setVerticalSwing`
  as a coerced bool, and a non-string mode turns the unit off.
- On Hitachi, quiet and powerful have empty encoder branches
  (src/ac.cpp:380-381 and 400-401). The state and the EEPROM byte still
  change, but no command reaches the encoder.

## Model

| member | source | states |
|---|---|---|
| Settings.Code | include/settings.h:6-9 | Each backend has a code in 1..3, and `FromCode` maps the code back to the same backend. |
| AcModel.Offset | include/ac.h:16-21 | The four persisted flags have distinct offsets (`FlagAt` inverts `Offset`). None of them is the reserved S_FAN offset. |
| AcModel.Encode | src/ac.cpp:355 | The byte a setter stores for a flag (`value ? 1 : 0`) decodes back to the same flag under the `== 1` reading `restore` uses. |
| AcModel.ModeWord | src/ac.cpp:207-251 | Every operating mode has a word in the mode vocabulary, and that word is never "off". |
| AcModel.FanWord | src/ac.cpp:286-309 | Every fan level has a word in the fan vocabulary. |
| AcModel.ModeVocabulary | src/ac.cpp:199-262 | A lowercased word is a kept mode word if and only if it is "off" or it names a mode. The named mode's word is that word again, and every mode's word names that mode. |
| AcModel.FanVocabulary | src/ac.cpp:286-320 | A lowercased word is a kept fan word if and only if it names a fan level. The level's word is that word again, and every level's word names that level. |
| AcModel.WordsHaveNoDigit | src/ac.cpp:199-310 | No mode or fan word contains a digit. |
| AcModel.NonStringIsNoWord | src/ac.cpp:133 | The lowercased text of any non-string JSON value is neither a mode word nor a fan word. |
| AcModel.LoadReadsField | src/ac.cpp:423-427 | While the fields are synced, `load` at a field's offset decodes to the field's current value, and after a commit the flash byte there decodes to it too. |
| Ascii.ToLowerChar | src/ac.cpp:197 | An ASCII capital maps to its small letter, and every other character is unchanged. The result is never a capital. |
| Ascii.ToLower | src/ac.cpp:197 | Lowercasing keeps the length, lowercases each character in place, and leaves no capital. |
| Ascii.ToLowerIdempotent | src/ac.cpp:197 | Lowercasing twice is the same as lowercasing once. |
| Ascii.ToLowerKeepsDigits | src/ac.cpp:197 | Lowercasing keeps every digit of a text. |
| Eeprom.Begin | src/ac.cpp:22 | After `EEPROM.begin`, every read returns the flash image, and a commit straight after changes nothing. |
| Eeprom.Write | src/ac.cpp:418 | `EEPROM.write` changes exactly one cached byte and leaves the flash alone. |
| Eeprom.Commit | src/ac.cpp:433 | `EEPROM.commit` makes the flash equal to the cache and leaves every read unchanged. |
| Eeprom.ReadSeesUncommitted | src/ac.cpp:423-427 | `load` (`EEPROM.read`) returns a written byte before it is committed. The flash holds the byte only after the commit. |
| Json.AsText | src/ac.cpp:133 | A JSON string converts to its own text. Any other value converts to the JSON text denoting it: a numeral with a digit, or "null", "true" or "false", which is "true" exactly for a true value. |
| Json.IntText | src/ac.cpp:133-138 | The JSON text of an integer, as `setTargetMode` or `setTargetFanSpeed` receives it, contains a digit. |
| Json.NatText | src/ac.cpp:133-138 | The decimal text of a natural number, the digits of an integer that reaches `setTargetMode` or `setTargetFanSpeed`, is non-empty and ends in a digit. |
| Json.AsInt | src/ac.cpp:143 | An integer converts to itself and a boolean to 1 or 0. A fractional number is truncated toward zero. Null and strings convert to 0. |
| Json.AsBool | src/ac.cpp:148 | A boolean converts to itself. The result is false exactly for null, strings, `false` and zero, and on integers and booleans it agrees with `AsInt(v) != 0`. |
| AcEngine.New | src/ac.cpp:8-19 | The constructor's defaults: mode "off", fan "auto", 23 degrees, both swings on, quiet and powerful off, readings 0. The object is clean, the store is what `EEPROM.begin` loads, and nothing is logged yet. |
| AcEngine.SetTargetMode | src/ac.cpp:196-281 | The lowercased word is kept if it is a mode word; otherwise "off" is kept. The log gains the calls `ModeCalls` gives for that word. Nothing else changes, and the invariant is kept. |
| AcEngine.SetTargetFanSpeed | src/ac.cpp:283-328 | The lowercased word is kept if it is a fan word; otherwise "auto" is kept. The log gains the one call `FanCall` gives for that word. Nothing is persisted, and the invariant is kept. |
| AcEngine.ModeCallsMeaning | src/ac.cpp:199-274 | A mode word's calls are on then that mode. The calls for "off" and for every unknown word are a single off. |
| AcEngine.FanCallMeaning | src/ac.cpp:286-320 | A fan word's call selects its level. Every unknown word's call selects the automatic fan. |
| AcEngine.SetTemperature | src/ac.cpp:330-341 | Any integer is stored unvalidated and sent once. Neither the EEPROM nor `dirty` changes. |
| AcEngine.Set | src/ac.cpp:415-420 | The cached byte at the offset holds the value and every other byte is unchanged. `dirty` becomes true and the flash is untouched. |
| AcEngine.UpdateFlag | src/ac.cpp:351-356 | Only a changed value is stored. It is written as 1/0 to its own offset and marks the store dirty. An unchanged value changes nothing. |
| AcEngine.SetVerticalSwing | src/ac.cpp:343-357 | The swing command is always sent. Byte 230 and `dirty` change only when the value changes. No other byte changes, and the invariant is kept. |
| AcEngine.SetHorizontalSwing | src/ac.cpp:359-373 | The swing command is always sent. Byte 231 and `dirty` change only when the value changes. No other byte changes, and the invariant is kept. |
| AcEngine.SetQuietMode | src/ac.cpp:375-393 | Afterwards quiet and powerful are never both on. Switching quiet on switches powerful off, with its byte written only if it was on. Exactly bytes 232/233 may change. The log is quiet then powerful-off, and the invariant is kept. |
| AcEngine.SetPowerfulMode | src/ac.cpp:395-413 | Afterwards quiet and powerful are never both on. Switching powerful on switches quiet off, with its byte written only if it was on. Exactly bytes 232/233 may change. The log is powerful then quiet-off, and the invariant is kept. |
| AcEngine.Save | src/ac.cpp:429-436 | Afterwards the object is clean. A dirty object commits the cache to flash exactly once. A clean one changes nothing. |
| AcEngine.Restore | src/ac.cpp:438-451 | Each flag is true exactly when its byte is 1, except that powerful loses to quiet. If both bytes are 1, byte 233 is rewritten to 0 and the store is dirty; otherwise nothing is written. Flags and bytes agree afterwards, and valid mode and fan words are kept. The log gains exactly the six re-assertions: mode, fan, both swings, quiet with its follow-up, then powerful with its follow-up. |
| AcEngine.VocabularyIsLowerCase | src/ac.cpp:445-446 | The mode and fan words are already lowercase, so re-asserting a stored word keeps it. |
| AcEngine.ReassertTargets | src/ac.cpp:445-446 | Re-asserting the mode and fan keeps valid words. It logs the mode's calls and then the fan call, with no transmission. |
| AcEngine.ReassertFlags | src/ac.cpp:447-450 | Re-asserting the four flags keeps them, except that powerful loses to quiet, and only the both-on case rewrites byte 233. The log gains both swings, then quiet and powerful with their follow-ups. |
| AcEngine.ReassertFlagsLog | src/ac.cpp:447-450 | The four flag re-assertions log both swings, then quiet with its powerful-off, then powerful as quiet left it. |
| AcEngine.ReassertExclusiveStore | src/ac.cpp:449-450 | Re-asserting quiet then powerful writes byte 233 = 0 when both were on, and otherwise leaves the store unchanged. |
| AcEngine.ToJson | src/ac.cpp:102-119 | The object has exactly the nine state keys, in source order, with distinct names. |
| AcEngine.Broadcast | src/ac.cpp:121-124 | `broadcast` logs one publication of `toJson()` and changes nothing else. It transmits nothing and keeps the invariant. |
| AcEngine.Send | src/ac.cpp:166-194 | The log is one transmission, then one broadcast of the state, then a commit if dirty. The object is clean afterwards, and the flash equals the cache. |
| AcEngine.ApplyRequest | src/ac.cpp:131-161 | The fields follow `TargetsApplied` and `FlagsApplied`: each present key sets its field with its setter's coercion, an absent key leaves it alone, and a true powerful beats quiet because it comes last. The log gains exactly `RequestCalls`: the mode calls, the fan call, the temperature, vertical then horizontal swing, quiet with its powerful-off, then powerful with its quiet-off, each only for a present key. `WritesFlags` holds: `dirty` is set, and a flag byte rewritten with the flag's final value, exactly when a step changes that flag. Readings, timing and the backend are unchanged, and the invariant is kept. |
| AcEngine.ApplyFlags | src/ac.cpp:146-161 | The four persisted keys in source order: the flags follow `FlagsApplied`, the log gains the swing calls then the quiet and powerful calls, and `dirty` and the four bytes follow `WritesFlags`. The target fields are unchanged. |
| AcEngine.ApplyTemperature | src/ac.cpp:142-144 | A present temperature is stored as its integer and sent as one `SetTemp`; otherwise nothing changes. The store is never touched. |
| AcEngine.ApplyVertical | src/ac.cpp:147-149 | A present key sets the vertical swing and logs one `SwingV`. Byte 230 is rewritten, and `dirty` set, exactly when the value changes; no other byte changes. |
| AcEngine.ApplyHorizontal | src/ac.cpp:151-153 | A present key sets the horizontal swing and logs one `SwingH`. Byte 231 is rewritten, and `dirty` set, exactly when the value changes; no other byte changes. |
| AcEngine.ApplyQuiet | src/ac.cpp:155-157 | A present key sets quiet, and a true one switches powerful off. The log gains quiet's calls. Bytes 232 and 233 are rewritten, and `dirty` set, exactly for the flags that change. |
| AcEngine.ApplyPowerful | src/ac.cpp:159-161 | A present key sets powerful, and a true one switches quiet off. The log gains powerful's calls. Bytes 232 and 233 are rewritten, and `dirty` set, exactly for the flags that change. |
| AcEngine.ApplyTargets | src/ac.cpp:131-144 | The target fields follow `TargetsApplied`. The log gains exactly the mode calls, then the fan call, then `SetTemp`, each only for a present key. Flags, `dirty` and the store are unchanged. |
| AcEngine.ApplyMode | src/ac.cpp:132-134 | A present mode key keeps its lowercased word or "off" and logs that word's `ModeCalls`; an absent key changes nothing and logs nothing. |
| AcEngine.ApplyFan | src/ac.cpp:137-139 | A present fan key keeps its lowercased word or "auto" and logs that word's `FanCall`; an absent key changes nothing and logs nothing. |
| AcEngine.ApplySwings | src/ac.cpp:146-153 | The two swing keys, vertical then horizontal, each applied and logged only when present. `SwingWrites` holds: a swing's byte is rewritten, and `dirty` set, exactly when that swing changes, and no other byte changes. Quiet and powerful are unchanged. |
| AcEngine.ApplyExclusive | src/ac.cpp:155-161 | Quiet then powerful, each applied only when present. The final pair follows the later call. The log gains quiet's calls, then powerful's. `ExclusiveWrites` holds: `dirty` is set exactly when either step changes a flag, and bytes 232 and 233 end with the final values of the flags that changed. |
| AcEngine.IncomingRequest | src/ac.cpp:126-164 | The log is exactly the request's `RequestCalls`, then one transmission, one broadcast of the updated state, and a commit if a write is pending, whether this request's or an earlier one. The state is the one after the present keys are applied in the fixed order, with the same backend. The object ends clean, with flash equal to the cache, and the invariant is kept. |
| AcEngine.GetWeather | src/ac.cpp:89-100 | Both readings are replaced when both are numbers. If either is NaN, nothing changes. |
| AcEngine.Elapsed | src/ac.cpp:52-54 | The unsigned difference, added to the last run time modulo 2^32, gives the current time. |
| AcEngine.Loop | src/ac.cpp:49-59 | Under 30000 ms since the last run, nothing happens. Otherwise the last-run time becomes now, the readings refresh, and exactly one broadcast is logged. |
| AcProperties.RepeatTargetMode | src/ac.cpp:196-281 | A second identical `setTargetMode` changes no field and only repeats the same encoder calls. |
| AcProperties.RepeatTargetFanSpeed | src/ac.cpp:283-328 | A second identical `setTargetFanSpeed` changes no field and only repeats the same encoder call. |
| AcProperties.ReassertSwingIsNoOp | src/ac.cpp:343-373 | Setting a swing to its current value only dispatches. The state, the store and `dirty` are unchanged. |
| AcProperties.ReassertQuietIsNoOp | src/ac.cpp:375-393 | Setting quiet to its current value (while not both on) changes nothing but the log. |
| AcProperties.ReassertPowerfulIsNoOp | src/ac.cpp:395-413 | Setting powerful to its current value (while not both on) changes nothing but the log. |
| AcProperties.RepeatPersistedSetters | src/ac.cpp:343-413 | For every persisted setter, a second call with the same value writes no byte and changes no field. |
| AcProperties.ExclusiveAfterEveryCall | src/ac.cpp:375-413 | After any non-empty sequence of quiet/powerful setter calls, the two are never both on. This follows from the last call's own contract. |
| AcProperties.HitachiExclusiveIsSilent | src/ac.cpp:375-401 | On Hitachi, quiet and powerful reach no encoder, but the field still takes the value. |
| AcProperties.CoercionExamples | src/ac.cpp:196-328 | "Heat" keeps "heat" and sends on and heat. "bogus" keeps "off" and sends off. "MAX" keeps "max". The unknown fan word "bogus" keeps "auto" and sends the automatic fan (`FanCallMeaning` gives the general case). |
| AcProperties.NonStringCoercion | src/ac.cpp:132-139 | A mode or fan value that is not a JSON string turns the unit off, or selects the automatic fan. |
| AcProperties.PrimesKeepTransmissions | src/ac.cpp:131-161 | The setter phase of a request adds no transmission. |
| AcProperties.SendTransmitsOnce | src/ac.cpp:166-194 | `send` adds exactly one transmission to the log. |
| AcProperties.RequestTransmitsOnce | src/ac.cpp:126-164 | Every request, for every document including the empty one, adds exactly one transmission. |
| AcProperties.EmptyRequestOnlySends | src/ac.cpp:126-164 | Every document with none of the seven request keys, the empty one included, does exactly what `send` does: unknown keys are ignored. |
| AcProperties.PowerfulWinsInRequest | src/ac.cpp:155-161 | A request asking for both quiet and powerful ends with powerful on and quiet off. |
| AcProperties.ToJsonRoundTrip | src/ac.cpp:102-119 | A client reading a broadcast object recovers exactly the nine reported fields. |
| AcProperties.BroadcastDocument | src/ac.cpp:105-113 | In the broadcast object, each of the nine keys maps to its field's value. |
| AcProperties.EchoRequestChangesNothing | src/ac.cpp:126-164 | Sending a broadcast back as a request leaves every reported field and every cached byte unchanged. |
| AcProperties.EchoApply | src/ac.cpp:131-161 | When the request repeats every field of a valid state, its setter calls change only the log. |
| AcProperties.EchoTargets | src/ac.cpp:131-144 | Repeating valid mode, fan and temperature values changes only the log. |
| AcProperties.EchoSwings | src/ac.cpp:146-153 | Repeating both swing values changes only the log. |
| AcProperties.EchoExclusive | src/ac.cpp:155-161 | Repeating quiet and powerful values that are not both on changes only the log. |
| AcProperties.EchoFlags | src/ac.cpp:146-161 | Repeating all four persisted values, quiet and powerful not both on, changes only the log. |
| AcProperties.SendKeepsSnapshot | src/ac.cpp:166-194 | `send` changes no reported field and no cached byte. |
| AcProperties.UnchangedRequestKeepsSnapshot | src/ac.cpp:126-164 | When a request's setter calls change only the log, the whole request leaves the snapshot and the cached bytes as they were. |
| AcProperties.CoolRequestCalls | src/ac.cpp:126-164 | `{"targetMode": "cool", "targetTemperature": 20}` sets cool and 20 degrees and logs on, cool, 20, the transmission and the broadcast, plus a commit only when an earlier write was pending. |
| AcProperties.CoolRequestSends | src/ac.cpp:131-144 | The encoder calls of that request before `send` are on, cool and 20 degrees, on every backend. |
| AcProperties.TargetKeysPersistNothing | src/ac.cpp:131-144 | A request with only target keys leaves the four flags, `dirty` and every cached byte unchanged. |
| AcProperties.StartupState | src/ac.cpp:8-47 | After construction, restore and the first reading, the flags come from flash (powerful losing to quiet). The readings come from the sensor when both are numbers, and are 0 otherwise. The rest are the constructor defaults. Nothing was transmitted, and the invariant holds. |
| AcProperties.ErasedFlashRestoresFalse | src/ac.cpp:439-443 | Erased flash (0xFF) restores all four flags as false, overriding the true swing defaults, and writes nothing. |
| AcProperties.ErasedFlashStartupCalls | src/ac.cpp:439-450 | On every backend, start-up from erased flash sends off, the automatic fan and both swings off, then quiet off and powerful off where the backend has them, in that order. That is six calls on Daikin and four on Hitachi. |
| AcProperties.AllOffRestoreCalls | src/ac.cpp:439-450 | On every backend, restoring the default targets and four false bytes from an empty log sends exactly off, the automatic fan, both swings off, then the backend's quiet-off and powerful-off calls. |
| AcProperties.DefaultTargetCalls | src/ac.cpp:445-446 | Re-asserting the default words "off" and "auto" sends off and the automatic fan. |
| AcProperties.AllOffFlagCalls | src/ac.cpp:447-450 | Re-asserting four false flags sends both swings off, then quiet off and powerful off where the backend has them; on Daikin that is all four. |
| AcProperties.RestoreRepairsBothExclusive | src/ac.cpp:442-450 | If both exclusive bytes are 1, restore keeps quiet, clears powerful, writes 0 to byte 233 and leaves the store dirty. |
| AcProperties.RestartRoundTrip | src/ac.cpp:429-451 | After `send`, a restart from the committed flash restores the four flags exactly. Mode, fan and temperature return to their defaults. |
| AcProperties.RestartExample | src/ac.cpp:438-451 | Concretely, vertical off, horizontal on, quiet on and powerful off survive a restart. |
| AcProperties.SaveIsIdempotent | src/ac.cpp:429-436 | A second `save` does nothing. |
| AcProperties.ElapsedAcrossWrap | src/ac.cpp:52-54 | When k < 2^32 ms pass, the unsigned difference is k even if `millis()` wrapped in between. |
| AcProperties.LoopFiresAfterWrap | src/ac.cpp:49-59 | With the last run at 2^32-1000 and the clock at 29000, the refresh runs and broadcasts once. |
| AcProperties.StepPreserves | src/ac.cpp:49-87 | One input (request, connection, loop pass) keeps the invariant, the backend and the unused S_FAN byte. It transmits once for a request and never otherwise. |
| AcProperties.RunPreserves | src/ac.cpp:49-87 | Any sequence of inputs keeps the invariant, the backend and byte 210. It transmits once per request. |
| AcProperties.ReachableInvariant | src/ac.cpp:21-87 | Every state reachable from start-up keeps the invariant, its backend and the flash's byte 210. It has transmitted exactly once per request. |

## Left out

- `webSocketEvent` (src/ac.cpp:61-87): the socket server, client numbers and
  payload buffers are not modelled. Its three effective branches are the
  `Input` steps of `AcProperties.Step`: a connection broadcasts, a text message
  is a request, and a loop pass is `Loop`. Disconnect, ping, pong and invalid
  events do nothing and are not represented.
- `begin` (src/ac.cpp:21-47): starting the socket server, the encoders, the
  DHT driver and `Serial` is hardware set-up. Only `EEPROM.begin`, `restore`
  and the first `getWeather` are modelled (`AcProperties.Startup`).
- The serial log, the LED flashes in `send`, and `Panasonic::toString` are
  diagnostics with no effect on the state.
- The IR encoders are abstract `Command`s. Vendor constants (`DAIKIN_COOL`,
  `kPanasonicAcSwingVAuto`, `kHitachiAcFanLow`, …) and the encoders' internal
  byte layouts are not modelled. The compile-time `SEND_*` switches are taken
  as enabled, so `send` always logs one transmission.
- `Panasonic::setModel(kPanasonicRkr)` in `begin` is encoder configuration and
  is not logged.
- JSON parsing and serialisation are not modelled. A request is any
  `Json.Document`. The lemmas quantify over every document, so they cover
  whatever a failed or partial parse leaves behind. JSON arrays and nested
  objects are not values of `Json.Value`.
- Json.AsText: a fractional number's text is its sign and integer part only.
  Its fraction digits and exponent notation are not modelled, because a
  numeral with at least one digit already never matches a mode or fan word.
  Some ArduinoJson versions convert every non-string value to empty text
  instead. That text matches no word either, so `AcModel.NonStringIsNoWord`
  holds for both.
- Json.AsInt: a string converts to 0. Some ArduinoJson versions parse numeric
  text instead, and the library version is not fixed by the source. A number
  outside the 32-bit `int` range is not clamped or zeroed.
- Json.AsBool: a string converts to false. Some ArduinoJson versions give true
  for any string, and the library version is not fixed by the source.
- AcEngine.SetTemperature: the target temperature is an unbounded `int`. The
  source's 32-bit `int` width is not modelled, because the value is only
  stored, sent to the encoder and reported back.
- The DHT sensor and `float`: readings are `real`, and NaN is `None`
  (`AcEngine.GetWeather`). Rounding of `float` is not modelled.
- `millis()` is a parameter of `Loop`, and the sensor readings are parameters
  of `GetWeather` and `Loop`.
- `dirty` and `loopLastRun` are uninitialised in the source. The model starts
  `dirty` false and takes `loopLastRun` as a parameter of `AcEngine.New`.
- `AC_MODE` (include/settings.h:9, PANASONIC) is not fixed in the model. Every
  operation and lemma takes the backend as a parameter, so the built firmware
  is the Panasonic instance.
- `mode` outside 1..3 cannot be represented: `Settings.Backend` has three
  values. The source's fallthrough for such a mode (a fan or mode word with no
  encoder call, an unknown mode word not rewritten to "off") is therefore not
  modelled.
- `accessoryName` is never used by the class and is not a field of the model.
- EEPROM wear, power loss during `commit`, and flash contents beyond the 512
  bytes are not modelled.
- `String::toLowerCase` is modelled on ASCII letters only, as Arduino's
  `tolower` in the "C" locale does. Embedded NUL characters are not
  special-cased.
- S_FAN (byte 210) is reserved but never written; the fan speed is not
  persisted, as in the source (src/ac.cpp:326 is commented out).
