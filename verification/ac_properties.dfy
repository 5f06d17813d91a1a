/** Properties that relate several operations of the engine: idempotent
    re-assertion, restart round trips, the request order, the single
    transmission per request, the serialisation round trip, wrap-safe timing,
    and the invariant every reachable state keeps. */
module AcProperties {
  import opened Wrappers
  import opened Settings
  import opened Eeprom
  import opened Ir
  import opened Ascii
  import Json
  import opened AcModel
  import opened AcEngine

  // ------------------------------------------------------- idempotence

  /** A second `setTargetMode` with the same text only re-sends the commands. */
  lemma RepeatTargetMode(a: Ac, value: string)
    ensures var r1 := SetTargetMode(a, value);
      var r2 := SetTargetMode(r1, value);
      r2 == r1.(log := r2.log) && r2.log == r1.log + r1.log[|a.log|..]
  {
  }

  /** A second `setTargetFanSpeed` with the same text only re-sends the command. */
  lemma RepeatTargetFanSpeed(a: Ac, value: string)
    ensures var r1 := SetTargetFanSpeed(a, value);
      var r2 := SetTargetFanSpeed(r1, value);
      r2 == r1.(log := r2.log) && r2.log == r1.log + r1.log[|a.log|..]
  {
  }

  /** Re-asserting a swing changes neither the state, the store nor `dirty`,
      but still dispatches to the backend. */
  lemma ReassertSwingIsNoOp(a: Ac)
    ensures SetVerticalSwing(a, a.verticalSwing) == a.(log := a.log + [Dispatch(SwingV(a.verticalSwing))])
    ensures SetHorizontalSwing(a, a.horizontalSwing) == a.(log := a.log + [Dispatch(SwingH(a.horizontalSwing))])
  {
  }

  /** Re-asserting quiet, when quiet and powerful are not both on, changes
      neither the state, the store nor `dirty`. */
  lemma ReassertQuietIsNoOp(a: Ac)
    requires !(a.quietMode && a.powerfulMode)
    ensures var r := SetQuietMode(a, a.quietMode); r == a.(log := r.log)
  {
    var r := SetQuietMode(a, a.quietMode);
    forall at: Address ensures Read(r.store, at) == Read(a.store, at) {
      assert Load(r, at) == Load(a, at);
    }
    SameReads(r.store, a.store);
  }

  /** Re-asserting powerful, when quiet and powerful are not both on, changes
      neither the state, the store nor `dirty`. */
  lemma ReassertPowerfulIsNoOp(a: Ac)
    requires !(a.quietMode && a.powerfulMode)
    ensures var r := SetPowerfulMode(a, a.powerfulMode); r == a.(log := r.log)
  {
    var r := SetPowerfulMode(a, a.powerfulMode);
    forall at: Address ensures Read(r.store, at) == Read(a.store, at) {
      assert Load(r, at) == Load(a, at);
    }
    SameReads(r.store, a.store);
  }

  /** A second call of a persisted setter with the same value only dispatches. */
  lemma RepeatPersistedSetters(a: Ac, v: bool)
    ensures var r1 := SetVerticalSwing(a, v); var r2 := SetVerticalSwing(r1, v);
      r2 == r1.(log := r1.log + [Dispatch(SwingV(v))])
    ensures var r1 := SetHorizontalSwing(a, v); var r2 := SetHorizontalSwing(r1, v);
      r2 == r1.(log := r1.log + [Dispatch(SwingH(v))])
    ensures var r1 := SetQuietMode(a, v); var r2 := SetQuietMode(r1, v); r2 == r1.(log := r2.log)
    ensures var r1 := SetPowerfulMode(a, v); var r2 := SetPowerfulMode(r1, v); r2 == r1.(log := r2.log)
  {
    ReassertSwingIsNoOp(SetVerticalSwing(a, v));
    ReassertSwingIsNoOp(SetHorizontalSwing(a, v));
    ReassertQuietIsNoOp(SetQuietMode(a, v));
    ReassertPowerfulIsNoOp(SetPowerfulMode(a, v));
  }

  /** Quiet and powerful are never both on after any non-empty sequence of
      calls of either setter, whatever the state before: the last call's own
      contract already rules it out. */
  lemma ExclusiveAfterEveryCall(a: Ac, calls: seq<(bool, bool)>)
    requires |calls| > 0
    ensures var r := ApplyExclusiveCalls(a, calls); !(r.quietMode && r.powerfulMode)
  {
  }

  /** Runs `setQuietMode(v)` for (true, v) and `setPowerfulMode(v)` for (false, v). */
  function ApplyExclusiveCalls(a: Ac, calls: seq<(bool, bool)>): Ac
    decreases |calls|
  {
    if |calls| == 0 then a
    else
      var b := ApplyExclusiveCalls(a, calls[..|calls| - 1]);
      var (quiet, v) := calls[|calls| - 1];
      if quiet then SetQuietMode(b, v) else SetPowerfulMode(b, v)
  }

  /** On Hitachi quiet and powerful reach no encoder call, yet the state still changes. */
  lemma HitachiExclusiveIsSilent(a: Ac, v: bool)
    requires a.backend == Hitachi
    ensures SetQuietMode(a, v).log == a.log && SetQuietMode(a, v).quietMode == v
    ensures SetPowerfulMode(a, v).log == a.log && SetPowerfulMode(a, v).powerfulMode == v
  {
  }

  // ------------------------------------------------------------ coercion

  /** Mode and fan words are matched without regard to case; unknown words
      fall back to off and the automatic fan. */
  lemma CoercionExamples(a: Ac)
    ensures SetTargetMode(a, "Heat").targetMode == "heat"
    ensures SetTargetMode(a, "Heat").log == a.log + [Dispatch(On), Dispatch(SetMode(Heat))]
    ensures SetTargetMode(a, "bogus").targetMode == "off"
    ensures SetTargetMode(a, "bogus").log == a.log + [Dispatch(Off)]
    ensures SetTargetFanSpeed(a, "MAX").targetFanSpeed == "max"
    ensures SetTargetFanSpeed(a, "bogus").targetFanSpeed == "auto"
    ensures SetTargetFanSpeed(a, "bogus").log == a.log + [Dispatch(SetFan(FanAuto))]
  {
    assert ToLower("Heat") == "heat" == ModeWord(Heat);
    assert ToLower("bogus") == "bogus";
    assert ToLower("MAX") == "max";
  }

  /** A mode or fan value that is not a JSON string turns the unit off and
      selects the automatic fan. */
  lemma NonStringCoercion(a: Ac, v: Json.Value)
    requires !v.Str?
    ensures SetTargetMode(a, Json.AsText(v)).targetMode == "off"
    ensures SetTargetMode(a, Json.AsText(v)).log == a.log + [Dispatch(Off)]
    ensures SetTargetFanSpeed(a, Json.AsText(v)).targetFanSpeed == "auto"
    ensures SetTargetFanSpeed(a, Json.AsText(v)).log == a.log + [Dispatch(SetFan(FanAuto))]
  {
    NonStringIsNoWord(v);
    ModeCallsMeaning(ToLower(Json.AsText(v)));
    FanCallMeaning(ToLower(Json.AsText(v)));
  }

  // ------------------------------------------------------------ requests

  /** Priming calls transmit nothing. */
  lemma PrimesKeepTransmissions(a: Ac, r: Ac)
    requires Primes(a, r)
    ensures Transmissions(r.log) == Transmissions(a.log)
  {
    var primed := r.log[|a.log|..];
    assert r.log == a.log + primed;
    TransmissionsAppend(a.log, primed);
    PrimingTransmitsNothing(primed);
  }

  /** `send` transmits exactly once. */
  lemma SendTransmitsOnce(a: Ac)
    ensures Transmissions(Send(a).log) == Transmissions(a.log) + 1
  {
    var rest := [Published(ToJson(a))] + (if a.dirty then [Committed] else []);
    assert Send(a).log == a.log + [Dispatch(Transmit)] + rest;
    TransmissionsAppend(a.log + [Dispatch(Transmit)], rest);
    TransmissionsAppend(a.log, [Dispatch(Transmit)]);
    assert [Dispatch(Transmit)][..0] == [];
    if a.dirty {
      assert rest[..1] == [Published(ToJson(a))];
      assert rest[..1][..0] == [];
    } else {
      assert rest[..0] == [];
    }
  }

  /** A request runs `send` exactly once: one physical transmission, for every
      document, the empty one included. */
  lemma RequestTransmitsOnce(a: Ac, doc: Json.Document)
    ensures Transmissions(IncomingRequest(a, doc).log) == Transmissions(a.log) + 1
  {
    PrimesKeepTransmissions(a, ApplyRequest(a, doc));
    SendTransmitsOnce(ApplyRequest(a, doc));
  }

  /** A document without any of the seven request keys, the empty one
      included, just sends: unknown keys are ignored. */
  lemma EmptyRequestOnlySends(a: Ac, doc: Json.Document)
    requires KeyMode !in doc && KeyFan !in doc && KeyTemperature !in doc
    requires KeyVerticalSwing !in doc && KeyHorizontalSwing !in doc
    requires KeyQuiet !in doc && KeyPowerful !in doc
    ensures IncomingRequest(a, doc) == Send(a)
  {
  }

  /** `{"targetMode": "cool", "targetTemperature": 20}`: the unit is switched
      on, set to cool and to 20 degrees, then the state is transmitted and
      broadcast; nothing is persisted, so a commit follows only an earlier
      uncommitted write. */
  lemma CoolRequestCalls(a: Ac, doc: Json.Document)
    requires doc == map[KeyMode := Json.Str("cool"), KeyTemperature := Json.Int(20)]
    ensures ApplyRequest(a, doc).targetMode == "cool"
    ensures ApplyRequest(a, doc).targetTemperature == 20
    ensures IncomingRequest(a, doc).log
      == a.log + [Dispatch(On), Dispatch(SetMode(Cool)), Dispatch(SetTemp(20))]
               + [Dispatch(Transmit), Published(ToJson(ApplyRequest(a, doc)))]
               + (if a.dirty then [Committed] else [])
  {
    CoolRequestSends(a.log, a.backend, doc);
    TargetKeysPersistNothing(a, doc);
  }

  /** A request with only target keys leaves the four flags, `dirty` and every
      cached byte as they were: mode, fan speed and temperature are never
      persisted. */
  lemma TargetKeysPersistNothing(a: Ac, doc: Json.Document)
    requires KeyVerticalSwing !in doc && KeyHorizontalSwing !in doc
    requires KeyQuiet !in doc && KeyPowerful !in doc
    ensures var r := ApplyRequest(a, doc);
      && r.verticalSwing == a.verticalSwing && r.horizontalSwing == a.horizontalSwing
      && r.quietMode == a.quietMode && r.powerfulMode == a.powerfulMode
      && r.dirty == a.dirty
      && forall at: Address :: Load(r, at) == Load(a, at)
  {
    var r := ApplyRequest(a, doc);
    assert FlagsApplied(a, r, doc) && WritesFlags(a, r, doc);
    assert KeepsUnflagged(a, r);
  }

  /** The encoder calls of that request, before `send`. */
  lemma CoolRequestSends(log: seq<Event>, b: Backend, doc: Json.Document)
    requires doc == map[KeyMode := Json.Str("cool"), KeyTemperature := Json.Int(20)]
    ensures KeptMode(ToLower(Json.AsText(doc[KeyMode]))) == "cool"
    ensures RequestCalls(log, b, doc) == log + [Dispatch(On), Dispatch(SetMode(Cool)), Dispatch(SetTemp(20))]
  {
    assert ToLower("cool") == "cool" by { ToLowerOfLowerCase("cool"); }
    ModeVocabulary("cool");
    assert TargetCalls(log, doc) == log + [Dispatch(On), Dispatch(SetMode(Cool))] + [Dispatch(SetTemp(20))];
  }

  /** Quiet and powerful both requested on: powerful is applied last and wins,
      whatever order the keys had in the text. */
  lemma PowerfulWinsInRequest(a: Ac, doc: Json.Document)
    requires KeyQuiet in doc && Json.AsBool(doc[KeyQuiet])
    requires KeyPowerful in doc && Json.AsBool(doc[KeyPowerful])
    ensures IncomingRequest(a, doc).powerfulMode && !IncomingRequest(a, doc).quietMode
  {
  }

  // -------------------------------------------------------- serialisation

  /** A client reading a broadcast recovers exactly the nine reported fields. */
  lemma ToJsonRoundTrip(a: Ac)
    ensures ReadSnapshot(Json.AsDocument(ToJson(a))) == Some(SnapshotOf(a))
  {
    var p := ToJson(a);
    var d := Json.AsDocument(p);
    BroadcastDocument(a);
    assert d[KeyCurrentTemperature] == Json.Num(a.currentTemperature);
  }

  /** The object a broadcast denotes, key by key. */
  lemma BroadcastDocument(a: Ac)
    ensures var d := Json.AsDocument(ToJson(a));
      && KeyCurrentTemperature in d && d[KeyCurrentTemperature] == Json.Num(a.currentTemperature)
      && KeyCurrentHumidity in d && d[KeyCurrentHumidity] == Json.Num(a.currentHumidity)
      && KeyMode in d && d[KeyMode] == Json.Str(a.targetMode)
      && KeyFan in d && d[KeyFan] == Json.Str(a.targetFanSpeed)
      && KeyTemperature in d && d[KeyTemperature] == Json.Int(a.targetTemperature)
      && KeyVerticalSwing in d && d[KeyVerticalSwing] == Json.Bool(a.verticalSwing)
      && KeyHorizontalSwing in d && d[KeyHorizontalSwing] == Json.Bool(a.horizontalSwing)
      && KeyQuiet in d && d[KeyQuiet] == Json.Bool(a.quietMode)
      && KeyPowerful in d && d[KeyPowerful] == Json.Bool(a.powerfulMode)
  {
    var p := ToJson(a);
    Json.AsDocumentAt(p, 0);
    Json.AsDocumentAt(p, 1);
    Json.AsDocumentAt(p, 2);
    Json.AsDocumentAt(p, 3);
    Json.AsDocumentAt(p, 4);
    Json.AsDocumentAt(p, 5);
    Json.AsDocumentAt(p, 6);
    Json.AsDocumentAt(p, 7);
    Json.AsDocumentAt(p, 8);
  }

  /** Echoing a broadcast back as a request re-asserts the state without
      changing anything a client sees, and writes no byte. */
  lemma EchoRequestChangesNothing(a: Ac)
    requires Invariant(a)
    ensures var r := IncomingRequest(a, Json.AsDocument(ToJson(a)));
      SnapshotOf(r) == SnapshotOf(a) && r.store.pending == a.store.pending
  {
    var doc := Json.AsDocument(ToJson(a));
    BroadcastDocument(a);
    EchoApply(a, doc);
    UnchangedRequestKeepsSnapshot(a, doc);
  }

  /** A request whose setter calls change only the log leaves the snapshot
      and the cache as they were. */
  lemma UnchangedRequestKeepsSnapshot(a: Ac, doc: Json.Document)
    requires ApplyRequest(a, doc) == a.(log := ApplyRequest(a, doc).log)
    ensures SnapshotOf(IncomingRequest(a, doc)) == SnapshotOf(a)
    ensures IncomingRequest(a, doc).store.pending == a.store.pending
  {
    SendKeepsSnapshot(ApplyRequest(a, doc));
  }

  /** `send` changes nothing a client sees and no cached byte. */
  lemma SendKeepsSnapshot(a: Ac)
    ensures SnapshotOf(Send(a)) == SnapshotOf(a)
    ensures Send(a).store.pending == a.store.pending
  {
  }

  /** The setter calls of a request that repeats the state change nothing but the log. */
  lemma EchoApply(a: Ac, doc: Json.Document)
    requires Invariant(a)
    requires KeyMode in doc && doc[KeyMode] == Json.Str(a.targetMode)
    requires KeyFan in doc && doc[KeyFan] == Json.Str(a.targetFanSpeed)
    requires KeyTemperature in doc && doc[KeyTemperature] == Json.Int(a.targetTemperature)
    requires KeyVerticalSwing in doc && doc[KeyVerticalSwing] == Json.Bool(a.verticalSwing)
    requires KeyHorizontalSwing in doc && doc[KeyHorizontalSwing] == Json.Bool(a.horizontalSwing)
    requires KeyQuiet in doc && doc[KeyQuiet] == Json.Bool(a.quietMode)
    requires KeyPowerful in doc && doc[KeyPowerful] == Json.Bool(a.powerfulMode)
    ensures var r := ApplyRequest(a, doc); r == a.(log := r.log)
  {
    var t := ApplyTargets(a, doc);
    EchoTargets(a, doc);
    EchoFlags(t, doc);
  }

  lemma EchoFlags(a: Ac, doc: Json.Document)
    requires !(a.quietMode && a.powerfulMode)
    requires KeyVerticalSwing in doc && doc[KeyVerticalSwing] == Json.Bool(a.verticalSwing)
    requires KeyHorizontalSwing in doc && doc[KeyHorizontalSwing] == Json.Bool(a.horizontalSwing)
    requires KeyQuiet in doc && doc[KeyQuiet] == Json.Bool(a.quietMode)
    requires KeyPowerful in doc && doc[KeyPowerful] == Json.Bool(a.powerfulMode)
    ensures var r := ApplyFlags(a, doc); r == a.(log := r.log)
  {
    EchoSwings(a, doc);
    EchoExclusive(ApplySwings(a, doc), doc);
  }

  lemma EchoTargets(a: Ac, doc: Json.Document)
    requires a.targetMode in ModeWords && a.targetFanSpeed in FanWords
    requires KeyMode in doc && doc[KeyMode] == Json.Str(a.targetMode)
    requires KeyFan in doc && doc[KeyFan] == Json.Str(a.targetFanSpeed)
    requires KeyTemperature in doc && doc[KeyTemperature] == Json.Int(a.targetTemperature)
    ensures var r := ApplyTargets(a, doc); r == a.(log := r.log)
  {
    VocabularyIsLowerCase(a.targetMode);
    VocabularyIsLowerCase(a.targetFanSpeed);
  }

  lemma EchoSwings(a: Ac, doc: Json.Document)
    requires KeyVerticalSwing in doc && doc[KeyVerticalSwing] == Json.Bool(a.verticalSwing)
    requires KeyHorizontalSwing in doc && doc[KeyHorizontalSwing] == Json.Bool(a.horizontalSwing)
    ensures var r := ApplySwings(a, doc); r == a.(log := r.log)
  {
    ReassertSwingIsNoOp(a);
    ReassertSwingIsNoOp(SetVerticalSwing(a, a.verticalSwing));
  }

  lemma EchoExclusive(a: Ac, doc: Json.Document)
    requires !(a.quietMode && a.powerfulMode)
    requires KeyQuiet in doc && doc[KeyQuiet] == Json.Bool(a.quietMode)
    requires KeyPowerful in doc && doc[KeyPowerful] == Json.Bool(a.powerfulMode)
    ensures var r := ApplyExclusive(a, doc); r == a.(log := r.log)
  {
    ReassertQuietIsNoOp(a);
    ReassertPowerfulIsNoOp(SetQuietMode(a, a.quietMode));
  }

  // --------------------------------------------------------------- restore

  /** Start-up: the constructor, `EEPROM.begin`, `restore`, then the first
      sensor reading of `begin`. */
  function Startup(backend: Backend, flash: Image, lastRun: Millis,
                   humidity: Option<real>, temperature: Option<real>): Ac {
    GetWeather(Restore(New(backend, flash, lastRun)), humidity, temperature)
  }

  /** After start-up the persisted fields come from flash, the readings from
      the sensor when it answered, everything else from the constructor
      defaults; nothing was transmitted and the
      invariant holds. */
  lemma StartupState(backend: Backend, flash: Image, lastRun: Millis, h: Option<real>, t: Option<real>)
    ensures var r := Startup(backend, flash, lastRun, h, t);
      && Invariant(r)
      && r.targetMode == "off" && r.targetFanSpeed == "auto" && r.targetTemperature == 23
      && r.verticalSwing == Decode(flash[S_VS]) && r.horizontalSwing == Decode(flash[S_HS])
      && r.quietMode == Decode(flash[S_QM])
      && r.powerfulMode == (Decode(flash[S_PM]) && !Decode(flash[S_QM]))
      && (h.Some? && t.Some? ==> r.currentHumidity == h.value && r.currentTemperature == t.value)
      && (h.None? || t.None? ==> r.currentHumidity == 0.0 && r.currentTemperature == 0.0)
      && r.backend == backend
      && Load(r, S_FAN) == flash[S_FAN]
      && Transmissions(r.log) == 0
  {
    var r := Startup(backend, flash, lastRun, h, t);
    PrimingTransmitsNothing(r.log[0..]);
    assert r.log[0..] == r.log;
  }

  /** Erased flash (0xFF everywhere) restores every flag as false, although
      the constructor's swing default is true, and writes nothing. */
  lemma ErasedFlashRestoresFalse(backend: Backend, lastRun: Millis, h: Option<real>, t: Option<real>)
    ensures var r := Startup(backend, seq(Size, _ => 0xFF), lastRun, h, t);
      && !r.verticalSwing && !r.horizontalSwing && !r.quietMode && !r.powerfulMode
      && !r.dirty && r.store == Begin(seq(Size, _ => 0xFF))
  {
  }

  /** Start-up from erased flash re-asserts every setter but `setTemperature`,
      in source order: off, automatic fan, both swings off, then quiet off and
      powerful off where the backend has them. Daikin sends all six; Hitachi,
      which has neither, sends the first four. */
  lemma ErasedFlashStartupCalls(b: Backend, lastRun: Millis, h: Option<real>, t: Option<real>)
    ensures Startup(b, seq(Size, _ => 0xFF), lastRun, h, t).log
      == [Dispatch(Off), Dispatch(SetFan(FanAuto)), Dispatch(SwingV(false)),
          Dispatch(SwingH(false))] + Call(b, Quiet(false)) + Call(b, Powerful(false))
    ensures b == Daikin ==>
      Startup(b, seq(Size, _ => 0xFF), lastRun, h, t).log
        == [Dispatch(Off), Dispatch(SetFan(FanAuto)), Dispatch(SwingV(false)),
            Dispatch(SwingH(false)), Dispatch(Quiet(false)), Dispatch(Powerful(false))]
    ensures b == Hitachi ==>
      Startup(b, seq(Size, _ => 0xFF), lastRun, h, t).log
        == [Dispatch(Off), Dispatch(SetFan(FanAuto)), Dispatch(SwingV(false)), Dispatch(SwingH(false))]
  {
    var flash: Image := seq(Size, _ => 0xFF);
    var n := New(b, flash, lastRun);
    assert Decode(Load(n, S_VS)) == Decode(Load(n, S_HS)) == false;
    assert Decode(Load(n, S_QM)) == Decode(Load(n, S_PM)) == false;
    AllOffRestoreCalls(n);
  }

  /** Restoring four false flags with the default targets, from an empty log,
      sends the re-assertions in order; quiet and powerful only where the
      backend has them. */
  lemma AllOffRestoreCalls(n: Ac)
    requires n.log == []
    requires n.targetMode == "off" && n.targetFanSpeed == "auto"
    requires !Decode(Load(n, S_VS)) && !Decode(Load(n, S_HS))
    requires !Decode(Load(n, S_QM)) && !Decode(Load(n, S_PM))
    ensures Restore(n).log
      == [Dispatch(Off), Dispatch(SetFan(FanAuto)), Dispatch(SwingV(false)),
          Dispatch(SwingH(false))] + Call(n.backend, Quiet(false)) + Call(n.backend, Powerful(false))
  {
    DefaultTargetCalls();
    AllOffFlagCalls([] + [Dispatch(Off)] + [Dispatch(SetFan(FanAuto))], n.backend);
  }

  /** Re-asserting the default words sends off and the automatic fan. */
  lemma DefaultTargetCalls()
    ensures ModeCalls(ToLower("off")) == [Dispatch(Off)]
    ensures FanCall(ToLower("auto")) == Dispatch(SetFan(FanAuto))
  {
    assert ToLower("off") == "off" && ToLower("auto") == "auto";
  }

  /** Re-asserting four false flags sends each swing once and quiet and
      powerful once each where the backend has them: all four on Daikin. */
  lemma AllOffFlagCalls(log: seq<Event>, b: Backend)
    ensures WithFlagCalls(log, b, false, false, false, false)
      == log + [Dispatch(SwingV(false)), Dispatch(SwingH(false))] + Call(b, Quiet(false)) + Call(b, Powerful(false))
    ensures b == Daikin ==>
      WithFlagCalls(log, b, false, false, false, false)
        == log + [Dispatch(SwingV(false)), Dispatch(SwingH(false)), Dispatch(Quiet(false)), Dispatch(Powerful(false))]
  {
    var swings := log + [Dispatch(SwingV(false))] + [Dispatch(SwingH(false))];
    assert QuietCalls(swings, b, false) == swings + Call(b, Quiet(false));
    assert WithFlagCalls(log, b, false, false, false, false)
      == swings + Call(b, Quiet(false)) + Call(b, Powerful(false));
  }

  /** Both exclusive bytes set: quiet wins, powerful's byte is rewritten to 0
      and the store is left dirty. */
  lemma RestoreRepairsBothExclusive(backend: Backend, flash: Image, lastRun: Millis, h: Option<real>, t: Option<real>)
    requires flash[S_QM] == 1 && flash[S_PM] == 1
    ensures var r := Startup(backend, flash, lastRun, h, t);
      r.quietMode && !r.powerfulMode && r.dirty && Load(r, S_PM) == 0
  {
  }

  /** What a command cycle saves is what the next start-up restores; the
      non-persisted fields return to their defaults. */
  lemma RestartRoundTrip(a: Ac, lastRun: Millis, h: Option<real>, t: Option<real>)
    requires Invariant(a)
    ensures var s := Send(a);
      var r := Startup(a.backend, s.store.committed, lastRun, h, t);
      && r.verticalSwing == a.verticalSwing && r.horizontalSwing == a.horizontalSwing
      && r.quietMode == a.quietMode && r.powerfulMode == a.powerfulMode
      && r.targetMode == "off" && r.targetFanSpeed == "auto" && r.targetTemperature == 23
      && !r.dirty
  {
    var s := Send(a);
    assert Synced(s) && s.store.committed == s.store.pending;
    var n := New(a.backend, s.store.committed, lastRun);
    assert Load(n, S_VS) == Load(s, S_VS) && Load(n, S_HS) == Load(s, S_HS);
    assert Load(n, S_QM) == Load(s, S_QM) && Load(n, S_PM) == Load(s, S_PM);
    assert "off" in ModeWords && "auto" in FanWords;
  }

  /** The concrete restart: vertical swing off, horizontal on, quiet on, powerful off. */
  lemma RestartExample(a: Ac, lastRun: Millis, h: Option<real>, t: Option<real>)
    requires Invariant(a)
    requires !a.verticalSwing && a.horizontalSwing && a.quietMode && !a.powerfulMode
    ensures var r := Startup(a.backend, Send(a).store.committed, lastRun, h, t);
      !r.verticalSwing && r.horizontalSwing && r.quietMode && !r.powerfulMode
  {
    RestartRoundTrip(a, lastRun, h, t);
  }

  /** A second `save` does nothing. */
  lemma SaveIsIdempotent(a: Ac)
    ensures Save(Save(a)) == Save(a)
  {
  }

  // ----------------------------------------------------------------- loop

  /** The unsigned difference counts the time since the last run correctly
      even when `millis()` has wrapped past 2^32 in between. */
  lemma ElapsedAcrossWrap(last: Millis, k: int)
    requires 0 <= k < Two32
    ensures Elapsed(((last + k) % Two32) as Millis, last) == k
  {
    var now := (last + k) % Two32;
    if last + k < Two32 {
      assert now == last + k;
    } else {
      assert now == last + k - Two32;
      assert now - last == k - Two32;
    }
  }

  /** Concretely: last run at 2^32 - 1000, clock now at 29000 after the wrap:
      30000 ms have passed and the refresh runs. */
  lemma LoopFiresAfterWrap(a: Ac, humidity: Option<real>, temperature: Option<real>)
    requires a.loopLastRun == Two32 - 1000
    ensures Loop(a, 29000, humidity, temperature).loopLastRun == 29000
    ensures |Loop(a, 29000, humidity, temperature).log| == |a.log| + 1
  {
    ElapsedAcrossWrap(a.loopLastRun, 30000);
  }

  // ----------------------------------------------------------- reachability

  /** What drives the engine after start-up: a text message carrying a
      request, a client connecting (which broadcasts), or a pass of `loop`. */
  datatype Input =
    | Request(doc: Json.Document)
    | Connected
    | Tick(now: Millis, humidity: Option<real>, temperature: Option<real>)

  function Step(a: Ac, i: Input): Ac {
    match i
    case Request(doc) => IncomingRequest(a, doc)
    case Connected => Broadcast(a)
    case Tick(now, h, t) => Loop(a, now, h, t)
  }

  function Run(a: Ac, inputs: seq<Input>): Ac
    decreases |inputs|
  {
    if |inputs| == 0 then a else Step(Run(a, inputs[..|inputs| - 1]), inputs[|inputs| - 1])
  }

  function CountRequests(inputs: seq<Input>): nat
    decreases |inputs|
  {
    if |inputs| == 0 then 0
    else CountRequests(inputs[..|inputs| - 1]) + (if inputs[|inputs| - 1].Request? then 1 else 0)
  }

  /** One input keeps the invariant, the backend and the reserved S_FAN byte,
      and transmits once for a request and never otherwise. */
  lemma StepPreserves(a: Ac, i: Input)
    requires Invariant(a)
    ensures var r := Step(a, i);
      && Invariant(r)
      && r.backend == a.backend
      && Load(r, S_FAN) == Load(a, S_FAN)
      && Transmissions(r.log) == Transmissions(a.log) + (if i.Request? then 1 else 0)
  {
    assert FlagAt(S_FAN).None?;
    match i
    case Request(doc) =>
      RequestTransmitsOnce(a, doc);
    case Connected =>
      TransmissionsAppend(a.log, [Published(ToJson(a))]);
      assert [Published(ToJson(a))][..0] == [];
    case Tick(now, h, t) =>
      var r := Loop(a, now, h, t);
      if Elapsed(now, a.loopLastRun) >= RefreshInterval {
        TransmissionsAppend(a.log, [Published(ToJson(r))]);
        assert [Published(ToJson(r))][..0] == [];
      }
  }

  /** A run of inputs from a state that keeps the invariant keeps it, with the
      same backend and S_FAN byte, and transmits once per request. */
  lemma {:induction false} RunPreserves(a: Ac, inputs: seq<Input>)
    requires Invariant(a)
    ensures var r := Run(a, inputs);
      && Invariant(r)
      && r.backend == a.backend
      && Load(r, S_FAN) == Load(a, S_FAN)
      && Transmissions(r.log) == Transmissions(a.log) + CountRequests(inputs)
    decreases |inputs|
  {
    if |inputs| > 0 {
      var prefix := inputs[..|inputs| - 1];
      RunPreserves(a, prefix);
      StepPreserves(Run(a, prefix), inputs[|inputs| - 1]);
    }
  }

  /** Every state reachable from start-up keeps the invariant, the backend it
      started with and the reserved S_FAN byte, and has transmitted exactly
      once per request. */
  lemma ReachableInvariant(backend: Backend, flash: Image, lastRun: Millis,
                           h: Option<real>, t: Option<real>, inputs: seq<Input>)
    ensures var r := Run(Startup(backend, flash, lastRun, h, t), inputs);
      && Invariant(r)
      && r.backend == backend
      && Load(r, S_FAN) == flash[S_FAN]
      && Transmissions(r.log) == CountRequests(inputs)
  {
    var a := Startup(backend, flash, lastRun, h, t);
    StartupState(backend, flash, lastRun, h, t);
    RunPreserves(a, inputs);
  }
}
