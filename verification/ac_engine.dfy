/** The operations of the `Ac` class (src/ac.cpp) as pure functions from one
    `Ac` to the next. Every call into an IR encoder, every broadcast and every
    EEPROM commit is appended to the log in the order the source makes it. */
module AcEngine {
  import opened Wrappers
  import opened Settings
  import opened Eeprom
  import opened Ir
  import opened Ascii
  import Json
  import opened AcModel

  /** Minimum time between two sensor refreshes in `loop`, in milliseconds. */
  const RefreshInterval: int := 30000

  /** Keys of the exchange format. */
  const KeyCurrentTemperature: string := "currentTemperature"
  const KeyCurrentHumidity: string := "currentHumidity"
  const KeyMode: string := "targetMode"
  const KeyFan: string := "targetFanSpeed"
  const KeyTemperature: string := "targetTemperature"
  const KeyVerticalSwing: string := "verticalSwing"
  const KeyHorizontalSwing: string := "horizontalSwing"
  const KeyQuiet: string := "quietMode"
  const KeyPowerful: string := "powerfulMode"

  /** The constructor with the defaults of `Ac::Ac`, together with the flash
      image `EEPROM.begin` loads. `dirty` is taken to start false and
      `loopLastRun` to start at `lastRun`: the source leaves both uninitialised. */
  function New(backend: Backend, flash: Image, lastRun: Millis): (r: Ac)
    ensures r.backend == backend && r.loopLastRun == lastRun
    ensures r.currentTemperature == 0.0 && r.currentHumidity == 0.0
    ensures r.targetMode == "off" && r.targetFanSpeed == "auto" && r.targetTemperature == 23
    ensures r.targetMode in ModeWords && r.targetFanSpeed in FanWords
    ensures r.verticalSwing && r.horizontalSwing && !r.quietMode && !r.powerfulMode
    ensures !r.dirty && r.store == Begin(flash)
    ensures r.log == [] && Transmissions(r.log) == 0
  {
    Ac(backend, lastRun, 0.0, 0.0, "off", "auto", 23, true, true, false, false, false, Begin(flash), [])
  }

  /** What asking the backend for `c` leaves in the log. */
  function Call(b: Backend, c: Command): seq<Event> {
    if Supported(b, c) then [Dispatch(c)] else []
  }

  /** `log` followed by `setQuietMode(v)`'s encoder calls: quiet, then the
      powerful-off that switching quiet on implies. */
  function QuietCalls(log: seq<Event>, b: Backend, v: bool): seq<Event> {
    log + Call(b, Quiet(v)) + (if v then Call(b, Powerful(false)) else [])
  }

  /** `log` followed by `setPowerfulMode(v)`'s encoder calls. */
  function PowerfulCalls(log: seq<Event>, b: Backend, v: bool): seq<Event> {
    log + Call(b, Powerful(v)) + (if v then Call(b, Quiet(false)) else [])
  }

  function Emit(a: Ac, c: Command): Ac {
    a.(log := a.log + Call(a.backend, c))
  }

  // ---------------------------------------------------------------- setters

  /** `setTargetMode`: lowercases the input; a known mode word is kept, anything
      else becomes "off". Off switches the unit off, every other mode switches
      it on and selects the mode. */
  function SetTargetMode(a: Ac, value: string): (r: Ac)
    ensures ToLower(value) in ModeWords ==> r.targetMode == ToLower(value)
    ensures ToLower(value) !in ModeWords ==> r.targetMode == "off"
    ensures r.log == a.log + ModeCalls(ToLower(value))
    ensures r == a.(targetMode := r.targetMode, log := r.log)
    ensures Primes(a, r)
    ensures Invariant(a) ==> Invariant(r)
    ensures KeepsUnflagged(a, r)
  {
    var v := ToLower(value);
    ModeVocabulary(v);
    if v == "off" then Emit(a, Off).(targetMode := "off")
    else match ModeOf(v)
      case Some(m) => Emit(Emit(a, On), SetMode(m)).(targetMode := v)
      case None => Emit(a, Off).(targetMode := "off")
  }

  /** `setTargetFanSpeed`: lowercases the input; a known fan word is kept,
      anything else becomes "auto" and selects the automatic fan. */
  function SetTargetFanSpeed(a: Ac, value: string): (r: Ac)
    ensures ToLower(value) in FanWords ==> r.targetFanSpeed == ToLower(value)
    ensures ToLower(value) !in FanWords ==> r.targetFanSpeed == "auto"
    ensures r.log == a.log + [FanCall(ToLower(value))]
    ensures r == a.(targetFanSpeed := r.targetFanSpeed, log := r.log)
    ensures Primes(a, r)
    ensures Invariant(a) ==> Invariant(r)
    ensures KeepsUnflagged(a, r)
  {
    var v := ToLower(value);
    FanVocabulary(v);
    match FanOf(v)
    case Some(l) => Emit(a, SetFan(l)).(targetFanSpeed := v)
    case None => Emit(a, SetFan(FanAuto)).(targetFanSpeed := "auto")
  }

  /** `setTemperature`: any integer is accepted and always sent to the backend;
      nothing is persisted. */
  function SetTemperature(a: Ac, value: int): (r: Ac)
    ensures r.targetTemperature == value
    ensures r.log == a.log + [Dispatch(SetTemp(value))]
    ensures r.store == a.store && r.dirty == a.dirty
    ensures r == a.(targetTemperature := value, log := r.log)
    ensures Primes(a, r)
    ensures Invariant(a) ==> Invariant(r)
    ensures KeepsUnflagged(a, r)
  {
    Emit(a, SetTemp(value)).(targetTemperature := value)
  }

  /** The private `set`: writes a byte to the EEPROM cache and marks it dirty. */
  function Set(a: Ac, at: Address, b: Byte): (r: Ac)
    ensures r.dirty && Load(r, at) == b
    ensures forall other: Address :: other != at ==> Load(r, other) == Load(a, other)
    ensures r == a.(dirty := true, store := r.store)
    ensures r.store.committed == a.store.committed
  {
    a.(store := Write(a.store, at, b), dirty := true)
  }

  /** The change-gated tail shared by the four persisted setters: only a new
      value is stored, written to its offset, and marks the store dirty. */
  function UpdateFlag(a: Ac, f: Flag, v: bool): (r: Ac)
    ensures Get(r, f) == v
    ensures forall g :: g != f ==> Get(r, g) == Get(a, g)
    ensures r.dirty == (a.dirty || v != Get(a, f))
    ensures r.store == (if v != Get(a, f) then Write(a.store, Offset(f), Encode(v)) else a.store)
    ensures v == Get(a, f) ==> r == a
    ensures SameExceptFlags(a, r) && r.log == a.log
  {
    if v != Get(a, f) then Set(Put(a, f, v), Offset(f), Encode(v)) else a
  }

  /** `setVerticalSwing`. */
  function SetVerticalSwing(a: Ac, value: bool): (r: Ac)
    ensures r.verticalSwing == value
    ensures r.log == a.log + [Dispatch(SwingV(value))]
    ensures value == a.verticalSwing ==> r == a.(log := r.log)
    ensures value != a.verticalSwing ==> r.dirty && Load(r, S_VS) == Encode(value)
    ensures forall at: Address :: at != S_VS ==> Load(r, at) == Load(a, at)
    ensures r.store.committed == a.store.committed
    ensures r == a.(verticalSwing := value, dirty := r.dirty, store := r.store, log := r.log)
    ensures Primes(a, r)
    ensures Invariant(a) ==> Invariant(r)
    ensures KeepsUnflagged(a, r)
  {
    UpdateFlag(Emit(a, SwingV(value)), VerticalSwing, value)
  }

  /** `setHorizontalSwing`. */
  function SetHorizontalSwing(a: Ac, value: bool): (r: Ac)
    ensures r.horizontalSwing == value
    ensures r.log == a.log + [Dispatch(SwingH(value))]
    ensures value == a.horizontalSwing ==> r == a.(log := r.log)
    ensures value != a.horizontalSwing ==> r.dirty && Load(r, S_HS) == Encode(value)
    ensures forall at: Address :: at != S_HS ==> Load(r, at) == Load(a, at)
    ensures r.store.committed == a.store.committed
    ensures r == a.(horizontalSwing := value, dirty := r.dirty, store := r.store, log := r.log)
    ensures Primes(a, r)
    ensures Invariant(a) ==> Invariant(r)
    ensures KeepsUnflagged(a, r)
  {
    UpdateFlag(Emit(a, SwingH(value)), HorizontalSwing, value)
  }

  /** `setQuietMode`: switching quiet on switches powerful off through
      `setPowerfulMode(false)`, which recurses no further. */
  function SetQuietMode(a: Ac, value: bool): (r: Ac)
    decreases value
    ensures r.quietMode == value
    ensures r.powerfulMode == (a.powerfulMode && !value)
    ensures !(r.quietMode && r.powerfulMode)
    ensures r.log == QuietCalls(a.log, a.backend, value)
    ensures r.dirty == (a.dirty || value != a.quietMode || (value && a.powerfulMode))
    ensures Load(r, S_QM) == (if value != a.quietMode then Encode(value) else Load(a, S_QM))
    ensures Load(r, S_PM) == (if value && a.powerfulMode then Encode(false) else Load(a, S_PM))
    ensures forall at: Address :: at != S_QM && at != S_PM ==> Load(r, at) == Load(a, at)
    ensures r.store.committed == a.store.committed
    ensures r == a.(quietMode := value, powerfulMode := r.powerfulMode,
                    dirty := r.dirty, store := r.store, log := r.log)
    ensures Primes(a, r)
    ensures Invariant(a) ==> Invariant(r)
    ensures KeepsUnflagged(a, r)
  {
    var a1 := UpdateFlag(Emit(a, Quiet(value)), QuietMode, value);
    if value then SetPowerfulMode(a1, false) else a1
  }

  /** `setPowerfulMode`: switching powerful on switches quiet off through
      `setQuietMode(false)`, which recurses no further. */
  function SetPowerfulMode(a: Ac, value: bool): (r: Ac)
    decreases value
    ensures r.powerfulMode == value
    ensures r.quietMode == (a.quietMode && !value)
    ensures !(r.quietMode && r.powerfulMode)
    ensures r.log == PowerfulCalls(a.log, a.backend, value)
    ensures r.dirty == (a.dirty || value != a.powerfulMode || (value && a.quietMode))
    ensures Load(r, S_PM) == (if value != a.powerfulMode then Encode(value) else Load(a, S_PM))
    ensures Load(r, S_QM) == (if value && a.quietMode then Encode(false) else Load(a, S_QM))
    ensures forall at: Address :: at != S_QM && at != S_PM ==> Load(r, at) == Load(a, at)
    ensures r.store.committed == a.store.committed
    ensures r == a.(powerfulMode := value, quietMode := r.quietMode,
                    dirty := r.dirty, store := r.store, log := r.log)
    ensures Primes(a, r)
    ensures Invariant(a) ==> Invariant(r)
    ensures KeepsUnflagged(a, r)
  {
    var a1 := UpdateFlag(Emit(a, Powerful(value)), PowerfulMode, value);
    if value then SetQuietMode(a1, false) else a1
  }

  // ------------------------------------------------------- persistence

  /** The private `save`: commits the EEPROM cache only when something was
      written since the last commit. */
  function Save(a: Ac): (r: Ac)
    ensures !r.dirty
    ensures a.dirty ==> r.store == Commit(a.store) && r.log == a.log + [Committed]
    ensures !a.dirty ==> r == a
    ensures r == a.(dirty := false, store := r.store, log := r.log)
    ensures Invariant(a) ==> Invariant(r) && r.store.committed == r.store.pending
    ensures KeepsUnflagged(a, r)
  {
    if a.dirty then a.(store := Commit(a.store), dirty := false, log := a.log + [Committed])
    else a
  }

  /** The private `restore`: each persisted field becomes true iff its byte is
      1, then every setter but `setTemperature` re-asserts the current value. */
  function Restore(a: Ac): (r: Ac)
    ensures r.log == WithFlagCalls(a.log + ModeCalls(ToLower(a.targetMode)) + [FanCall(ToLower(a.targetFanSpeed))],
                                   a.backend, Decode(Load(a, S_VS)), Decode(Load(a, S_HS)),
                                   Decode(Load(a, S_QM)), Decode(Load(a, S_PM)))
    ensures r.verticalSwing == Decode(Load(a, S_VS))
    ensures r.horizontalSwing == Decode(Load(a, S_HS))
    ensures r.quietMode == Decode(Load(a, S_QM))
    ensures r.powerfulMode == (Decode(Load(a, S_PM)) && !Decode(Load(a, S_QM)))
    ensures Synced(r)
    ensures Decode(Load(a, S_QM)) && Decode(Load(a, S_PM)) ==>
      r.dirty && r.store == Write(a.store, S_PM, Encode(false))
    ensures !(Decode(Load(a, S_QM)) && Decode(Load(a, S_PM))) ==>
      r.dirty == a.dirty && r.store == a.store
    ensures a.targetMode in ModeWords ==> r.targetMode == a.targetMode
    ensures a.targetFanSpeed in FanWords ==> r.targetFanSpeed == a.targetFanSpeed
    ensures r.targetMode in ModeWords && r.targetFanSpeed in FanWords
    ensures r == a.(targetMode := r.targetMode, targetFanSpeed := r.targetFanSpeed,
                    verticalSwing := r.verticalSwing, horizontalSwing := r.horizontalSwing,
                    quietMode := r.quietMode, powerfulMode := r.powerfulMode,
                    dirty := r.dirty, store := r.store, log := r.log)
    ensures Primes(a, r)
    ensures KeepsUnflagged(a, r)
  {
    var loaded := a.(verticalSwing := Decode(Load(a, S_VS)),
                     horizontalSwing := Decode(Load(a, S_HS)),
                     quietMode := Decode(Load(a, S_QM)),
                     powerfulMode := Decode(Load(a, S_PM)));
    var r := ReassertFlags(ReassertTargets(loaded));
    PrimesTransitive(loaded, ReassertTargets(loaded), r);
    r
  }

  /** The mode and fan words lowercase to themselves. */
  lemma VocabularyIsLowerCase(w: string)
    ensures w in ModeWords ==> ToLower(w) == w
    ensures w in FanWords ==> ToLower(w) == w
  {
    if w in ModeWords || w in FanWords {
      ToLowerOfLowerCase(w);
    }
  }

  /** The mode `setTargetMode` keeps for a lowercased word: the word itself
      when it is a mode word, otherwise "off". */
  function KeptMode(w: string): string {
    if w in ModeWords then w else "off"
  }

  /** The fan speed `setTargetFanSpeed` keeps for a lowercased word: the word
      itself when it is a fan word, otherwise "auto". */
  function KeptFan(w: string): string {
    if w in FanWords then w else "auto"
  }

  /** The encoder calls `setTargetMode` makes for a lowercased word: off for
      "off" and for every unknown word, otherwise on and the named mode. */
  function ModeCalls(w: string): seq<Event> {
    match ModeOf(w)
    case Some(m) => [Dispatch(On), Dispatch(SetMode(m))]
    case None => [Dispatch(Off)]
  }

  /** A mode word sends on and its mode; "off" and every unknown word send off. */
  lemma ModeCallsMeaning(w: string)
    ensures forall m :: w == ModeWord(m) ==> ModeCalls(w) == [Dispatch(On), Dispatch(SetMode(m))]
    ensures w == "off" || w !in ModeWords ==> ModeCalls(w) == [Dispatch(Off)]
  {
    ModeVocabulary(w);
  }

  /** The encoder call `setTargetFanSpeed` makes for a lowercased word. */
  function FanCall(w: string): Event {
    Dispatch(SetFan(match FanOf(w) case Some(l) => l case None => FanAuto))
  }

  /** A fan word sends its level; every unknown word sends the automatic fan. */
  lemma FanCallMeaning(w: string)
    ensures forall l :: w == FanWord(l) ==> FanCall(w) == Dispatch(SetFan(l))
    ensures w !in FanWords ==> FanCall(w) == Dispatch(SetFan(FanAuto))
  {
    FanVocabulary(w);
  }

  /** `log` followed by the encoder calls of `restore`'s last four
      re-assertions, for the loaded flags `vs`, `hs`, `q` and `p`: each swing,
      quiet (with the powerful-off it implies), then powerful as quiet left it. */
  function WithFlagCalls(log: seq<Event>, b: Backend, vs: bool, hs: bool, q: bool, p: bool): seq<Event> {
    PowerfulCalls(QuietCalls(log + [Dispatch(SwingV(vs))] + [Dispatch(SwingH(hs))], b, q), b, p && !q)
  }

  /** `restore`'s `setTargetMode(targetMode)` and `setTargetFanSpeed(targetFanSpeed)`. */
  function ReassertTargets(a: Ac): (r: Ac)
    ensures r.log == a.log + ModeCalls(ToLower(a.targetMode)) + [FanCall(ToLower(a.targetFanSpeed))]
    ensures a.targetMode in ModeWords ==> r.targetMode == a.targetMode
    ensures a.targetFanSpeed in FanWords ==> r.targetFanSpeed == a.targetFanSpeed
    ensures r.targetMode in ModeWords && r.targetFanSpeed in FanWords
    ensures r == a.(targetMode := r.targetMode, targetFanSpeed := r.targetFanSpeed, log := r.log)
    ensures Primes(a, r)
    ensures KeepsUnflagged(a, r)
  {
    VocabularyIsLowerCase(a.targetMode);
    var a1 := SetTargetMode(a, a.targetMode);
    VocabularyIsLowerCase(a1.targetFanSpeed);
    var r := SetTargetFanSpeed(a1, a1.targetFanSpeed);
    PrimesTransitive(a, a1, r);
    r
  }

  /** `restore`'s re-assertion of the four persisted fields. */
  function ReassertFlags(a: Ac): (r: Ac)
    ensures r.log == WithFlagCalls(a.log, a.backend, a.verticalSwing, a.horizontalSwing,
                                   a.quietMode, a.powerfulMode)
    ensures r.verticalSwing == a.verticalSwing && r.horizontalSwing == a.horizontalSwing
    ensures r.quietMode == a.quietMode && r.powerfulMode == (a.powerfulMode && !a.quietMode)
    ensures a.quietMode && a.powerfulMode ==>
      r.dirty && r.store == Write(a.store, S_PM, Encode(false))
    ensures !(a.quietMode && a.powerfulMode) ==> r.dirty == a.dirty && r.store == a.store
    ensures SameExceptFlags(a, r)
    ensures Primes(a, r)
  {
    var a1 := SetVerticalSwing(a, a.verticalSwing);
    var a2 := SetHorizontalSwing(a1, a1.horizontalSwing);
    var a3 := SetQuietMode(a2, a2.quietMode);
    var r := SetPowerfulMode(a3, a3.powerfulMode);
    PrimesTransitive(a, a1, a2);
    PrimesTransitive(a, a2, a3);
    PrimesTransitive(a, a3, r);
    ReassertExclusiveStore(a2);
    ReassertFlagsLog(a);
    r
  }

  /** The log of `restore`'s four flag re-assertions. */
  lemma ReassertFlagsLog(a: Ac)
    ensures var a1 := SetVerticalSwing(a, a.verticalSwing);
      var a2 := SetHorizontalSwing(a1, a1.horizontalSwing);
      var a3 := SetQuietMode(a2, a2.quietMode);
      var r := SetPowerfulMode(a3, a3.powerfulMode);
      r.log == WithFlagCalls(a.log, a.backend, a.verticalSwing, a.horizontalSwing,
                             a.quietMode, a.powerfulMode)
  {
    var a1 := SetVerticalSwing(a, a.verticalSwing);
    var a2 := SetHorizontalSwing(a1, a1.horizontalSwing);
    var a3 := SetQuietMode(a2, a2.quietMode);
    assert a3.powerfulMode == (a.powerfulMode && !a.quietMode);
  }

  /** What re-asserting quiet then powerful does to the store. */
  lemma ReassertExclusiveStore(a: Ac)
    ensures var a3 := SetQuietMode(a, a.quietMode);
      var r := SetPowerfulMode(a3, a3.powerfulMode);
      && (a.quietMode && a.powerfulMode ==> r.store == Write(a.store, S_PM, Encode(false)))
      && (!(a.quietMode && a.powerfulMode) ==> r.store == a.store)
  {
    var a3 := SetQuietMode(a, a.quietMode);
    var r := SetPowerfulMode(a3, a3.powerfulMode);
    if a.quietMode && a.powerfulMode {
      var w := Write(a.store, S_PM, Encode(false));
      forall at: Address ensures Read(r.store, at) == Read(w, at) {
        assert Load(r, at) == Load(a3, at);
      }
      SameReads(r.store, w);
    } else {
      forall at: Address ensures Read(r.store, at) == Read(a.store, at) {
        assert Load(r, at) == Load(a3, at) == Load(a, at);
      }
      SameReads(r.store, a.store);
    }
  }

  // ------------------------------------------------- serialisation, send

  /** The client's view of the state: the nine fields `toJson` reports. */
  datatype Snapshot = Snapshot(
    currentTemperature: real,
    currentHumidity: real,
    targetMode: string,
    targetFanSpeed: string,
    targetTemperature: int,
    verticalSwing: bool,
    horizontalSwing: bool,
    quietMode: bool,
    powerfulMode: bool)

  function SnapshotOf(a: Ac): Snapshot {
    Snapshot(a.currentTemperature, a.currentHumidity, a.targetMode, a.targetFanSpeed,
             a.targetTemperature, a.verticalSwing, a.horizontalSwing, a.quietMode, a.powerfulMode)
  }

  /** How a client reads a broadcast object: all nine keys, each with a value
      of the documented type, or nothing. */
  function ReadSnapshot(d: Json.Document): Option<Snapshot> {
    if && KeyCurrentTemperature in d && d[KeyCurrentTemperature].Num?
       && KeyCurrentHumidity in d && d[KeyCurrentHumidity].Num?
       && KeyMode in d && d[KeyMode].Str?
       && KeyFan in d && d[KeyFan].Str?
       && KeyTemperature in d && d[KeyTemperature].Int?
       && KeyVerticalSwing in d && d[KeyVerticalSwing].Bool?
       && KeyHorizontalSwing in d && d[KeyHorizontalSwing].Bool?
       && KeyQuiet in d && d[KeyQuiet].Bool?
       && KeyPowerful in d && d[KeyPowerful].Bool?
    then Some(Snapshot(d[KeyCurrentTemperature].x, d[KeyCurrentHumidity].x,
                       d[KeyMode].s, d[KeyFan].s, d[KeyTemperature].i,
                       d[KeyVerticalSwing].b, d[KeyHorizontalSwing].b,
                       d[KeyQuiet].b, d[KeyPowerful].b))
    else None
  }

  const JsonKeys: seq<string> := [
    KeyCurrentTemperature, KeyCurrentHumidity, KeyMode, KeyFan, KeyTemperature,
    KeyVerticalSwing, KeyHorizontalSwing, KeyQuiet, KeyPowerful]

  /** `toJson`: exactly the nine keys, in this order, with distinct names. */
  function ToJson(a: Ac): (p: Json.Pairs)
    ensures |p| == |JsonKeys|
    ensures forall i :: 0 <= i < |p| ==> p[i].0 == JsonKeys[i]
    ensures Json.DistinctKeys(p)
  {
    [(KeyCurrentTemperature, Json.Num(a.currentTemperature)),
     (KeyCurrentHumidity, Json.Num(a.currentHumidity)),
     (KeyMode, Json.Str(a.targetMode)),
     (KeyFan, Json.Str(a.targetFanSpeed)),
     (KeyTemperature, Json.Int(a.targetTemperature)),
     (KeyVerticalSwing, Json.Bool(a.verticalSwing)),
     (KeyHorizontalSwing, Json.Bool(a.horizontalSwing)),
     (KeyQuiet, Json.Bool(a.quietMode)),
     (KeyPowerful, Json.Bool(a.powerfulMode))]
  }

  /** `broadcast`: sends `toJson()` to every connected client. */
  function Broadcast(a: Ac): (r: Ac)
    ensures r == a.(log := a.log + [Published(ToJson(a))])
    ensures Transmissions(r.log) == Transmissions(a.log)
    ensures Invariant(a) ==> Invariant(r)
  {
    var r := a.(log := a.log + [Published(ToJson(a))]);
    TransmissionsAppend(a.log, [Published(ToJson(a))]);
    assert [Published(ToJson(a))][..0] == [];
    r
  }

  /** `send`: transmit the encoder's state, then broadcast, then save. */
  function Send(a: Ac): (r: Ac)
    ensures r.log == a.log + [Dispatch(Transmit), Published(ToJson(a))]
                          + (if a.dirty then [Committed] else [])
    ensures !r.dirty
    ensures r.store == (if a.dirty then Commit(a.store) else a.store)
    ensures r == a.(dirty := false, store := r.store, log := r.log)
    ensures Invariant(a) ==> Invariant(r) && r.store.committed == r.store.pending
    ensures KeepsUnflagged(a, r)
  {
    Save(Broadcast(Emit(a, Transmit)))
  }

  // ------------------------------------------------------------ requests

  /** `log` followed by the encoder calls of the mode, fan and temperature keys
      present in `doc`, in that order. */
  function TargetCalls(log: seq<Event>, doc: Json.Document): seq<Event> {
    var l1 := if KeyMode in doc then log + ModeCalls(ToLower(Json.AsText(doc[KeyMode]))) else log;
    var l2 := if KeyFan in doc then l1 + [FanCall(ToLower(Json.AsText(doc[KeyFan])))] else l1;
    if KeyTemperature in doc then l2 + [Dispatch(SetTemp(Json.AsInt(doc[KeyTemperature])))] else l2
  }

  /** `log` followed by the encoder calls of the swing keys present in `doc`:
      vertical, then horizontal. */
  function SwingCalls(log: seq<Event>, doc: Json.Document): seq<Event> {
    var l1 := if KeyVerticalSwing in doc then log + [Dispatch(SwingV(Json.AsBool(doc[KeyVerticalSwing])))] else log;
    if KeyHorizontalSwing in doc then l1 + [Dispatch(SwingH(Json.AsBool(doc[KeyHorizontalSwing])))] else l1
  }

  /** `log` followed by the encoder calls of the quiet and powerful keys
      present in `doc`: quiet, then powerful. */
  function ExclusiveCalls(log: seq<Event>, b: Backend, doc: Json.Document): seq<Event> {
    var l1 := if KeyQuiet in doc then QuietCalls(log, b, Json.AsBool(doc[KeyQuiet])) else log;
    if KeyPowerful in doc then PowerfulCalls(l1, b, Json.AsBool(doc[KeyPowerful])) else l1
  }

  /** `log` followed by every encoder call a request makes before `send`. It
      depends on the document and the backend only, not on the prior state. */
  function RequestCalls(log: seq<Event>, b: Backend, doc: Json.Document): seq<Event> {
    ExclusiveCalls(SwingCalls(TargetCalls(log, doc), doc), b, doc)
  }

  /** Quiet as the quiet key of `doc` alone leaves it. */
  function QuietAfterQuietKey(quiet: bool, doc: Json.Document): bool {
    if KeyQuiet in doc then Json.AsBool(doc[KeyQuiet]) else quiet
  }

  /** Powerful as the quiet key of `doc` alone leaves it: a quiet on switches it off. */
  function PowerfulAfterQuietKey(powerful: bool, doc: Json.Document): bool {
    powerful && !(KeyQuiet in doc && Json.AsBool(doc[KeyQuiet]))
  }

  /** The target fields once the mode, fan and temperature keys present in
      `doc` are applied to `a`: a present mode or fan value is lowercased and
      kept when it is a word of its vocabulary, otherwise it becomes "off" or
      "auto"; a present temperature is kept as its integer; an absent key
      leaves its field alone. */
  predicate TargetsApplied(a: Ac, r: Ac, doc: Json.Document) {
    && r.targetMode == (if KeyMode in doc then KeptMode(ToLower(Json.AsText(doc[KeyMode]))) else a.targetMode)
    && r.targetFanSpeed == (if KeyFan in doc then KeptFan(ToLower(Json.AsText(doc[KeyFan]))) else a.targetFanSpeed)
    && r.targetTemperature == (if KeyTemperature in doc then Json.AsInt(doc[KeyTemperature]) else a.targetTemperature)
  }

  /** The four persisted flags once the swing, quiet and powerful keys present
      in `doc` are applied to `a`: a present swing is kept as its bool; a true
      powerful wins over quiet, since powerful is applied last; a true quiet
      switches an earlier powerful off; an absent key leaves its flag alone. */
  predicate FlagsApplied(a: Ac, r: Ac, doc: Json.Document) {
    && r.verticalSwing == (if KeyVerticalSwing in doc then Json.AsBool(doc[KeyVerticalSwing]) else a.verticalSwing)
    && r.horizontalSwing == (if KeyHorizontalSwing in doc then Json.AsBool(doc[KeyHorizontalSwing]) else a.horizontalSwing)
    && r.quietMode == (if KeyPowerful in doc && Json.AsBool(doc[KeyPowerful]) then false
                       else if KeyQuiet in doc then Json.AsBool(doc[KeyQuiet])
                       else a.quietMode)
    && r.powerfulMode == (if KeyPowerful in doc then Json.AsBool(doc[KeyPowerful])
                          else if KeyQuiet in doc && Json.AsBool(doc[KeyQuiet]) then false
                          else a.powerfulMode)
  }

  /** What the persisted keys of `doc` do to `dirty` and the four flag bytes
      going from `a` to `r`. A step writes a flag's byte, and marks the store
      dirty, exactly when it changes that flag; so a byte ends holding its
      flag's final value when some step changed the flag, and is untouched
      otherwise. `q1` and `p1` are the pair the quiet key alone leaves. */
  predicate WritesFlags(a: Ac, r: Ac, doc: Json.Document) {
    var q1, p1 := QuietAfterQuietKey(a.quietMode, doc), PowerfulAfterQuietKey(a.powerfulMode, doc);
    && r.dirty == (|| a.dirty || r.verticalSwing != a.verticalSwing || r.horizontalSwing != a.horizontalSwing
                   || q1 != a.quietMode || p1 != a.powerfulMode || r.quietMode != q1 || r.powerfulMode != p1)
    && Load(r, S_VS) == (if r.verticalSwing != a.verticalSwing then Encode(r.verticalSwing) else Load(a, S_VS))
    && Load(r, S_HS) == (if r.horizontalSwing != a.horizontalSwing then Encode(r.horizontalSwing) else Load(a, S_HS))
    && Load(r, S_QM) == (if q1 != a.quietMode || r.quietMode != q1 then Encode(r.quietMode) else Load(a, S_QM))
    && Load(r, S_PM) == (if p1 != a.powerfulMode || r.powerfulMode != p1 then Encode(r.powerfulMode) else Load(a, S_PM))
  }

  /** A stage `a` to `t` that touches no flag, nor `dirty`, nor the store,
      followed by a stage `t` to `r`: what `r` keeps of `a`. */
  lemma RequestFrame(a: Ac, t: Ac, r: Ac, doc: Json.Document)
    requires t.verticalSwing == a.verticalSwing && t.horizontalSwing == a.horizontalSwing
    requires t.quietMode == a.quietMode && t.powerfulMode == a.powerfulMode
    requires t.dirty == a.dirty && t.store == a.store
    requires Primes(a, t) && Primes(t, r)
    requires Invariant(a) ==> Invariant(t)
    requires Invariant(t) ==> Invariant(r)
    requires KeepsUnflagged(t, r)
    requires WritesFlags(t, r, doc)
    requires TargetsApplied(a, t, doc) && FlagsApplied(t, r, doc)
    requires r.targetMode == t.targetMode && r.targetFanSpeed == t.targetFanSpeed
    requires r.targetTemperature == t.targetTemperature
    ensures TargetsApplied(a, r, doc) && FlagsApplied(a, r, doc)
    ensures Primes(a, r)
    ensures Invariant(a) ==> Invariant(r)
    ensures KeepsUnflagged(a, r)
    ensures WritesFlags(a, r, doc)
  {
    PrimesTransitive(a, t, r);
  }

  /** The seven conditional setter calls of `incomingRequest`, in source order. */
  function ApplyRequest(a: Ac, doc: Json.Document): (r: Ac)
    ensures TargetsApplied(a, r, doc)
    ensures FlagsApplied(a, r, doc)
    ensures r.log == RequestCalls(a.log, a.backend, doc)
    ensures WritesFlags(a, r, doc)
    ensures r.backend == a.backend && r.loopLastRun == a.loopLastRun
    ensures r.currentTemperature == a.currentTemperature && r.currentHumidity == a.currentHumidity
    ensures r.store.committed == a.store.committed
    ensures Primes(a, r)
    ensures Invariant(a) ==> Invariant(r)
    ensures KeepsUnflagged(a, r)
  {
    var a1 := ApplyTargets(a, doc);
    RequestFrame(a, a1, ApplyFlags(a1, doc), doc);
    ApplyFlags(a1, doc)
  }

  /** The four persisted keys of `incomingRequest`: the swings, then quiet
      and powerful. A flag's byte is rewritten, and the store marked dirty,
      exactly when a step changes that flag. */
  function ApplyFlags(a: Ac, doc: Json.Document): (r: Ac)
    ensures FlagsApplied(a, r, doc)
    ensures r.log == ExclusiveCalls(SwingCalls(a.log, doc), a.backend, doc)
    ensures WritesFlags(a, r, doc)
    ensures r.targetMode == a.targetMode && r.targetFanSpeed == a.targetFanSpeed
    ensures r.targetTemperature == a.targetTemperature && r.backend == a.backend
    ensures r.loopLastRun == a.loopLastRun
    ensures r.currentTemperature == a.currentTemperature && r.currentHumidity == a.currentHumidity
    ensures SameExceptFlags(a, r) && r.store.committed == a.store.committed
    ensures Primes(a, r)
    ensures Invariant(a) ==> Invariant(r)
    ensures KeepsUnflagged(a, r)
  {
    var s := ApplySwings(a, doc);
    var r := ApplyExclusive(s, doc);
    PrimesTransitive(a, s, r);
    WritesFlagsCompose(a, s, r, doc);
    r
  }

  /** What the swing keys do to `dirty` and the flag bytes going from `a` to
      `r`: a swing's byte is rewritten with its new value, and the store marked
      dirty, exactly when that swing changed; no other byte changes. */
  predicate SwingWrites(a: Ac, r: Ac) {
    && r.dirty == (a.dirty || r.verticalSwing != a.verticalSwing || r.horizontalSwing != a.horizontalSwing)
    && Load(r, S_VS) == (if r.verticalSwing != a.verticalSwing then Encode(r.verticalSwing) else Load(a, S_VS))
    && Load(r, S_HS) == (if r.horizontalSwing != a.horizontalSwing then Encode(r.horizontalSwing) else Load(a, S_HS))
    && forall at: Address :: at != S_VS && at != S_HS ==> Load(r, at) == Load(a, at)
  }

  /** What the quiet and powerful keys do to `dirty` and the flag bytes going
      from `a` to `r`: the store is marked dirty exactly when the quiet step
      (to `q1`, `p1`) or the powerful step changes a flag, a byte ends holding
      its flag's final value when either step changed that flag, and no other
      byte changes. */
  predicate ExclusiveWrites(a: Ac, r: Ac, doc: Json.Document) {
    var q1, p1 := QuietAfterQuietKey(a.quietMode, doc), PowerfulAfterQuietKey(a.powerfulMode, doc);
    && r.dirty == (a.dirty || q1 != a.quietMode || p1 != a.powerfulMode || r.quietMode != q1 || r.powerfulMode != p1)
    && Load(r, S_QM) == (if q1 != a.quietMode || r.quietMode != q1 then Encode(r.quietMode) else Load(a, S_QM))
    && Load(r, S_PM) == (if p1 != a.powerfulMode || r.powerfulMode != p1 then Encode(r.powerfulMode) else Load(a, S_PM))
    && forall at: Address :: at != S_QM && at != S_PM ==> Load(r, at) == Load(a, at)
  }

  /** `WritesFlags` from the swing stage `a` to `s` and the quiet and
      powerful stage `s` to `r`. */
  lemma WritesFlagsCompose(a: Ac, s: Ac, r: Ac, doc: Json.Document)
    requires s.quietMode == a.quietMode && s.powerfulMode == a.powerfulMode
    requires r.verticalSwing == s.verticalSwing && r.horizontalSwing == s.horizontalSwing
    requires SwingWrites(a, s) && ExclusiveWrites(s, r, doc)
    ensures WritesFlags(a, r, doc)
  {
    assert Load(r, S_VS) == Load(s, S_VS) && Load(r, S_HS) == Load(s, S_HS);
    assert Load(s, S_QM) == Load(a, S_QM) && Load(s, S_PM) == Load(a, S_PM);
  }

  /** The mode, fan and temperature steps of `incomingRequest`. */
  function ApplyTargets(a: Ac, doc: Json.Document): (r: Ac)
    ensures TargetsApplied(a, r, doc)
    ensures r.log == TargetCalls(a.log, doc)
    ensures r.verticalSwing == a.verticalSwing && r.horizontalSwing == a.horizontalSwing
    ensures r.quietMode == a.quietMode && r.powerfulMode == a.powerfulMode
    ensures r.backend == a.backend && r.dirty == a.dirty && r.store == a.store
    ensures r.loopLastRun == a.loopLastRun
    ensures r.currentTemperature == a.currentTemperature && r.currentHumidity == a.currentHumidity
    ensures r == a.(targetMode := r.targetMode, targetFanSpeed := r.targetFanSpeed,
                    targetTemperature := r.targetTemperature, log := r.log)
    ensures Primes(a, r)
    ensures Invariant(a) ==> Invariant(r)
  {
    var a1 := ApplyMode(a, doc);
    var a2 := ApplyFan(a1, doc);
    var r := ApplyTemperature(a2, doc);
    PrimesTransitive(a, a1, a2);
    PrimesTransitive(a, a2, r);
    r
  }

  /** `incomingRequest`'s mode key. */
  function ApplyMode(a: Ac, doc: Json.Document): (r: Ac)
    ensures r.targetMode == (if KeyMode in doc then KeptMode(ToLower(Json.AsText(doc[KeyMode]))) else a.targetMode)
    ensures r.log == (if KeyMode in doc then a.log + ModeCalls(ToLower(Json.AsText(doc[KeyMode]))) else a.log)
    ensures r == a.(targetMode := r.targetMode, log := r.log)
    ensures Primes(a, r)
    ensures Invariant(a) ==> Invariant(r)
  {
    if KeyMode in doc then SetTargetMode(a, Json.AsText(doc[KeyMode])) else a
  }

  /** `incomingRequest`'s fan key. */
  function ApplyFan(a: Ac, doc: Json.Document): (r: Ac)
    ensures r.targetFanSpeed == (if KeyFan in doc then KeptFan(ToLower(Json.AsText(doc[KeyFan]))) else a.targetFanSpeed)
    ensures r.log == (if KeyFan in doc then a.log + [FanCall(ToLower(Json.AsText(doc[KeyFan])))] else a.log)
    ensures r == a.(targetFanSpeed := r.targetFanSpeed, log := r.log)
    ensures Primes(a, r)
    ensures Invariant(a) ==> Invariant(r)
  {
    if KeyFan in doc then SetTargetFanSpeed(a, Json.AsText(doc[KeyFan])) else a
  }

  /** `incomingRequest`'s temperature key. */
  function ApplyTemperature(a: Ac, doc: Json.Document): (r: Ac)
    ensures r.targetTemperature == (if KeyTemperature in doc then Json.AsInt(doc[KeyTemperature]) else a.targetTemperature)
    ensures r.log == (if KeyTemperature in doc then a.log + [Dispatch(SetTemp(Json.AsInt(doc[KeyTemperature])))] else a.log)
    ensures r == a.(targetTemperature := r.targetTemperature, log := r.log)
    ensures Primes(a, r)
    ensures Invariant(a) ==> Invariant(r)
  {
    if KeyTemperature in doc then SetTemperature(a, Json.AsInt(doc[KeyTemperature])) else a
  }

  /** The two swing steps of `incomingRequest`. */
  function ApplySwings(a: Ac, doc: Json.Document): (r: Ac)
    ensures r.verticalSwing == (if KeyVerticalSwing in doc then Json.AsBool(doc[KeyVerticalSwing]) else a.verticalSwing)
    ensures r.horizontalSwing == (if KeyHorizontalSwing in doc then Json.AsBool(doc[KeyHorizontalSwing]) else a.horizontalSwing)
    ensures r.quietMode == a.quietMode && r.powerfulMode == a.powerfulMode && r.backend == a.backend
    ensures r.log == SwingCalls(a.log, doc)
    ensures SwingWrites(a, r)
    ensures SameExceptFlags(a, r) && r.store.committed == a.store.committed
    ensures Primes(a, r)
    ensures Invariant(a) ==> Invariant(r)
    ensures KeepsUnflagged(a, r)
  {
    var a1 := ApplyVertical(a, doc);
    var r := ApplyHorizontal(a1, doc);
    PrimesTransitive(a, a1, r);
    r
  }

  /** `incomingRequest`'s vertical swing key. */
  function ApplyVertical(a: Ac, doc: Json.Document): (r: Ac)
    ensures r.verticalSwing == (if KeyVerticalSwing in doc then Json.AsBool(doc[KeyVerticalSwing]) else a.verticalSwing)
    ensures r.log == (if KeyVerticalSwing in doc then a.log + [Dispatch(SwingV(Json.AsBool(doc[KeyVerticalSwing])))] else a.log)
    ensures r.dirty == (a.dirty || r.verticalSwing != a.verticalSwing)
    ensures Load(r, S_VS) == (if r.verticalSwing != a.verticalSwing then Encode(r.verticalSwing) else Load(a, S_VS))
    ensures forall at: Address :: at != S_VS ==> Load(r, at) == Load(a, at)
    ensures r == a.(verticalSwing := r.verticalSwing, dirty := r.dirty, store := r.store, log := r.log)
    ensures r.store.committed == a.store.committed
    ensures Primes(a, r)
    ensures Invariant(a) ==> Invariant(r)
  {
    if KeyVerticalSwing in doc then SetVerticalSwing(a, Json.AsBool(doc[KeyVerticalSwing])) else a
  }

  /** `incomingRequest`'s horizontal swing key. */
  function ApplyHorizontal(a: Ac, doc: Json.Document): (r: Ac)
    ensures r.horizontalSwing == (if KeyHorizontalSwing in doc then Json.AsBool(doc[KeyHorizontalSwing]) else a.horizontalSwing)
    ensures r.log == (if KeyHorizontalSwing in doc then a.log + [Dispatch(SwingH(Json.AsBool(doc[KeyHorizontalSwing])))] else a.log)
    ensures r.dirty == (a.dirty || r.horizontalSwing != a.horizontalSwing)
    ensures Load(r, S_HS) == (if r.horizontalSwing != a.horizontalSwing then Encode(r.horizontalSwing) else Load(a, S_HS))
    ensures forall at: Address :: at != S_HS ==> Load(r, at) == Load(a, at)
    ensures r == a.(horizontalSwing := r.horizontalSwing, dirty := r.dirty, store := r.store, log := r.log)
    ensures r.store.committed == a.store.committed
    ensures Primes(a, r)
    ensures Invariant(a) ==> Invariant(r)
  {
    if KeyHorizontalSwing in doc then SetHorizontalSwing(a, Json.AsBool(doc[KeyHorizontalSwing])) else a
  }

  /** The quiet and powerful steps of `incomingRequest`; powerful comes last.
      A step marks the store dirty exactly when it changes a flag, and each
      byte ends holding the last value written to it. */
  function ApplyExclusive(a: Ac, doc: Json.Document): (r: Ac)
    ensures r.quietMode == (if KeyPowerful in doc && Json.AsBool(doc[KeyPowerful]) then false
                            else if KeyQuiet in doc then Json.AsBool(doc[KeyQuiet])
                            else a.quietMode)
    ensures r.powerfulMode == (if KeyPowerful in doc then Json.AsBool(doc[KeyPowerful])
                               else if KeyQuiet in doc && Json.AsBool(doc[KeyQuiet]) then false
                               else a.powerfulMode)
    ensures r.log == ExclusiveCalls(a.log, a.backend, doc)
    ensures ExclusiveWrites(a, r, doc)
    ensures r.verticalSwing == a.verticalSwing && r.horizontalSwing == a.horizontalSwing
    ensures SameExceptFlags(a, r) && r.store.committed == a.store.committed
    ensures Primes(a, r)
    ensures Invariant(a) ==> Invariant(r)
    ensures KeepsUnflagged(a, r)
  {
    var a1 := ApplyQuiet(a, doc);
    var r := ApplyPowerful(a1, doc);
    PrimesTransitive(a, a1, r);
    r
  }

  /** `incomingRequest`'s quiet key. */
  function ApplyQuiet(a: Ac, doc: Json.Document): (r: Ac)
    ensures r.quietMode == QuietAfterQuietKey(a.quietMode, doc)
    ensures r.powerfulMode == PowerfulAfterQuietKey(a.powerfulMode, doc)
    ensures r.log == (if KeyQuiet in doc then QuietCalls(a.log, a.backend, Json.AsBool(doc[KeyQuiet])) else a.log)
    ensures r.dirty == (a.dirty || r.quietMode != a.quietMode || r.powerfulMode != a.powerfulMode)
    ensures Load(r, S_QM) == (if r.quietMode != a.quietMode then Encode(r.quietMode) else Load(a, S_QM))
    ensures Load(r, S_PM) == (if r.powerfulMode != a.powerfulMode then Encode(r.powerfulMode) else Load(a, S_PM))
    ensures forall at: Address :: at != S_QM && at != S_PM ==> Load(r, at) == Load(a, at)
    ensures r == a.(quietMode := r.quietMode, powerfulMode := r.powerfulMode,
                    dirty := r.dirty, store := r.store, log := r.log)
    ensures r.store.committed == a.store.committed
    ensures Primes(a, r)
    ensures Invariant(a) ==> Invariant(r)
  {
    if KeyQuiet in doc then SetQuietMode(a, Json.AsBool(doc[KeyQuiet])) else a
  }

  /** `incomingRequest`'s powerful key. */
  function ApplyPowerful(a: Ac, doc: Json.Document): (r: Ac)
    ensures r.powerfulMode == (if KeyPowerful in doc then Json.AsBool(doc[KeyPowerful]) else a.powerfulMode)
    ensures r.quietMode == (a.quietMode && !(KeyPowerful in doc && Json.AsBool(doc[KeyPowerful])))
    ensures r.log == (if KeyPowerful in doc then PowerfulCalls(a.log, a.backend, Json.AsBool(doc[KeyPowerful])) else a.log)
    ensures r.dirty == (a.dirty || r.quietMode != a.quietMode || r.powerfulMode != a.powerfulMode)
    ensures Load(r, S_QM) == (if r.quietMode != a.quietMode then Encode(r.quietMode) else Load(a, S_QM))
    ensures Load(r, S_PM) == (if r.powerfulMode != a.powerfulMode then Encode(r.powerfulMode) else Load(a, S_PM))
    ensures forall at: Address :: at != S_QM && at != S_PM ==> Load(r, at) == Load(a, at)
    ensures r == a.(quietMode := r.quietMode, powerfulMode := r.powerfulMode,
                    dirty := r.dirty, store := r.store, log := r.log)
    ensures r.store.committed == a.store.committed
    ensures Primes(a, r)
    ensures Invariant(a) ==> Invariant(r)
  {
    if KeyPowerful in doc then SetPowerfulMode(a, Json.AsBool(doc[KeyPowerful])) else a
  }

  /** `incomingRequest`: applies the present keys in the fixed order, then runs
      `send` exactly once, whatever the document holds. The contract holds for
      every document, so it covers whatever a failed or partial parse leaves. */
  function IncomingRequest(a: Ac, doc: Json.Document): (r: Ac)
    ensures var s := ApplyRequest(a, doc);
      r.log == RequestCalls(a.log, a.backend, doc) + [Dispatch(Transmit), Published(ToJson(s))]
                     + (if s.dirty then [Committed] else [])
    ensures var s := ApplyRequest(a, doc); r == s.(dirty := false, store := r.store, log := r.log)
    ensures var s := ApplyRequest(a, doc); r.store == (if s.dirty then Commit(s.store) else s.store)
    ensures r.backend == a.backend
    ensures !r.dirty
    ensures Invariant(a) ==> Invariant(r) && r.store.committed == r.store.pending
    ensures KeepsUnflagged(a, r)
  {
    Send(ApplyRequest(a, doc))
  }

  // -------------------------------------------------------- sensor, loop

  /** `getWeather`: both readings are replaced when both are numbers; if either
      is NaN (None here) nothing changes. */
  function GetWeather(a: Ac, humidity: Option<real>, temperature: Option<real>): (r: Ac)
    ensures humidity.Some? && temperature.Some? ==>
      r.currentHumidity == humidity.value && r.currentTemperature == temperature.value
    ensures humidity.None? || temperature.None? ==> r == a
    ensures r == a.(currentTemperature := r.currentTemperature, currentHumidity := r.currentHumidity)
    ensures Invariant(a) ==> Invariant(r)
  {
    if humidity.None? || temperature.None? then a
    else a.(currentTemperature := temperature.value, currentHumidity := humidity.value)
  }

  /** `currentMillis - loopLastRun` in `unsigned long` arithmetic. */
  function Elapsed(now: Millis, last: Millis): (d: Millis)
    ensures (last + d) % Two32 == now
  {
    (now - last) % Two32
  }

  /** `loop` (less the socket polling): once at least RefreshInterval has
      elapsed since the last run, refresh the readings and broadcast. */
  function Loop(a: Ac, now: Millis, humidity: Option<real>, temperature: Option<real>): (r: Ac)
    ensures Elapsed(now, a.loopLastRun) < RefreshInterval ==> r == a
    ensures Elapsed(now, a.loopLastRun) >= RefreshInterval ==>
      && r.loopLastRun == now
      && r == GetWeather(a, humidity, temperature).(loopLastRun := now, log := r.log)
      && r.log == a.log + [Published(ToJson(r))]
    ensures Invariant(a) ==> Invariant(r)
  {
    if Elapsed(now, a.loopLastRun) >= RefreshInterval then
      Broadcast(GetWeather(a.(loopLastRun := now), humidity, temperature))
    else a
  }
}
