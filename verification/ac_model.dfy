/** The state of the `Ac` class (include/ac.h): the target-state record, the
    EEPROM offset layout of the persisted fields, and the log of everything the
    object does to the outside world. */
module AcModel {
  import opened Settings
  import opened Eeprom
  import opened Ir
  import Json
  import opened Wrappers
  import opened Ascii

  /** `unsigned long` is 32 bits wide on the ESP8266. */
  const Two32: int := 0x1_0000_0000
  type Millis = n: int | 0 <= n < Two32

  /** EEPROM offsets. S_FAN is reserved for the fan speed but nothing uses it. */
  const S_FAN: Address := 210
  const S_VS: Address := 230
  const S_HS: Address := 231
  const S_QM: Address := 232
  const S_PM: Address := 233

  /** An effect on the world, in the order it happens. */
  datatype Event =
    | Dispatch(cmd: Command)        // a call into the selected IR encoder
    | Published(doc: Json.Pairs)    // `broadcastTXT` of `toJson()` to every client
    | Committed                     // `EEPROM.commit()`

  /** The whole `Ac` object. `backend` is the selector `mode`; `dirty` is
      private to the class. */
  datatype Ac = Ac(
    backend: Backend,
    loopLastRun: Millis,
    currentTemperature: real,
    currentHumidity: real,
    targetMode: string,
    targetFanSpeed: string,
    targetTemperature: int,
    verticalSwing: bool,
    horizontalSwing: bool,
    quietMode: bool,
    powerfulMode: bool,
    dirty: bool,
    store: Store,
    log: seq<Event>)

  /** The four fields that are persisted. */
  datatype Flag = VerticalSwing | HorizontalSwing | QuietMode | PowerfulMode

  /** Which persisted field, if any, lives at an offset. */
  function FlagAt(at: Address): Option<Flag> {
    if at == S_VS then Some(VerticalSwing)
    else if at == S_HS then Some(HorizontalSwing)
    else if at == S_QM then Some(QuietMode)
    else if at == S_PM then Some(PowerfulMode)
    else None
  }

  /** The EEPROM offset of a persisted field. Distinct fields have distinct
      offsets (FlagAt inverts Offset), none of them S_FAN. */
  function Offset(f: Flag): (at: Address)
    ensures FlagAt(at) == Some(f)
    ensures at != S_FAN
  {
    match f
    case VerticalSwing => S_VS
    case HorizontalSwing => S_HS
    case QuietMode => S_QM
    case PowerfulMode => S_PM
  }

  function Get(a: Ac, f: Flag): bool {
    match f
    case VerticalSwing => a.verticalSwing
    case HorizontalSwing => a.horizontalSwing
    case QuietMode => a.quietMode
    case PowerfulMode => a.powerfulMode
  }

  function Put(a: Ac, f: Flag, v: bool): (r: Ac)
    ensures Get(r, f) == v
    ensures forall g :: g != f ==> Get(r, g) == Get(a, g)
    ensures SameExceptFlags(a, r) && r.dirty == a.dirty && r.store == a.store && r.log == a.log
  {
    match f
    case VerticalSwing => a.(verticalSwing := v)
    case HorizontalSwing => a.(horizontalSwing := v)
    case QuietMode => a.(quietMode := v)
    case PowerfulMode => a.(powerfulMode := v)
  }

  /** `r` differs from `a` at most in the four flags, `dirty`, the store and the log. */
  predicate SameExceptFlags(a: Ac, r: Ac) {
    r == a.(verticalSwing := r.verticalSwing, horizontalSwing := r.horizontalSwing,
            quietMode := r.quietMode, powerfulMode := r.powerfulMode,
            dirty := r.dirty, store := r.store, log := r.log)
  }

  /** The byte a flag is stored as: `(value) ? 1 : 0`. */
  function Encode(v: bool): (b: Byte)
    ensures Decode(b) == v
  {
    if v then 1 else 0
  }

  /** How `restore` reads a stored byte: `load(...) == 1`. */
  function Decode(b: Byte): bool {
    b == 1
  }

  function Load(a: Ac, at: Address): Byte {
    Read(a.store, at)
  }

  /** The words `setTargetMode` and `setTargetFanSpeed` keep. */
  const ModeWords: set<string> := {"off", "cool", "heat", "fan", "auto", "dry"}
  const FanWords: set<string> := {"auto", "min", "max"}

  /** The word of each operating mode. */
  function ModeWord(m: OpMode): (w: string)
    ensures w in ModeWords && w != "off"
  {
    match m
    case Cool => "cool"
    case Heat => "heat"
    case FanOnly => "fan"
    case Auto => "auto"
    case Dry => "dry"
  }

  /** The word of each fan level. */
  function FanWord(l: FanLevel): (w: string)
    ensures w in FanWords
  {
    match l
    case FanAuto => "auto"
    case FanMin => "min"
    case FanMax => "max"
  }

  /** The mode a word other than "off" selects, tested in the order
      `setTargetMode` tests them. */
  function ModeOf(w: string): Option<OpMode> {
    if w == "cool" then Some(Cool)
    else if w == "heat" then Some(Heat)
    else if w == "fan" then Some(FanOnly)
    else if w == "auto" then Some(Auto)
    else if w == "dry" then Some(Dry)
    else None
  }

  /** The mode words are "off" and the words ModeOf recognises, each the
      word of the mode it selects. */
  lemma ModeVocabulary(w: string)
    ensures w in ModeWords <==> w == "off" || ModeOf(w).Some?
    ensures ModeOf(w).Some? ==> w != "off" && ModeWord(ModeOf(w).value) == w
    ensures forall m :: w == ModeWord(m) ==> ModeOf(w) == Some(m)
  {
  }

  /** The fan level a word selects, tested in the order
      `setTargetFanSpeed` tests them. */
  function FanOf(w: string): Option<FanLevel> {
    if w == "auto" then Some(FanAuto)
    else if w == "min" then Some(FanMin)
    else if w == "max" then Some(FanMax)
    else None
  }

  lemma FanVocabulary(w: string)
    ensures w in FanWords <==> FanOf(w).Some?
    ensures FanOf(w).Some? ==> FanWord(FanOf(w).value) == w
    ensures forall l :: w == FanWord(l) ==> FanOf(w) == Some(l)
  {
  }

  /** The mode and fan words are letters only. */
  lemma WordsHaveNoDigit()
    ensures forall w :: w in ModeWords ==> !HasDigit(w)
    ensures forall w :: w in FanWords ==> !HasDigit(w)
  {
  }

  /** A request value that is not a JSON string never reaches a mode or fan
      word: its text is a numeral, "null", "true" or "false". */
  lemma NonStringIsNoWord(v: Json.Value)
    requires !v.Str?
    ensures ToLower(Json.AsText(v)) !in ModeWords && ToLower(Json.AsText(v)) !in FanWords
  {
    var s := Json.AsText(v);
    if v.Int? || v.Num? {
      ToLowerKeepsDigits(s);
      WordsHaveNoDigit();
    } else {
      ToLowerOfLowerCase(s);
    }
  }

  /** Every persisted field agrees with the byte cached at its offset. */
  predicate Synced(a: Ac) {
    && a.verticalSwing == Decode(Load(a, S_VS))
    && a.horizontalSwing == Decode(Load(a, S_HS))
    && a.quietMode == Decode(Load(a, S_QM))
    && a.powerfulMode == Decode(Load(a, S_PM))
  }

  /** While the fields are synced, `load` at a field's offset decodes to the
      field's current value, whether or not it has been committed; once the
      cache is committed, flash holds that byte too. */
  lemma LoadReadsField(a: Ac, f: Flag)
    requires Synced(a)
    ensures Decode(Load(a, Offset(f))) == Get(a, f)
    ensures Decode(Commit(a.store).committed[Offset(f)]) == Get(a, f)
  {
  }

  /** What every reachable `Ac` satisfies. */
  predicate Invariant(a: Ac) {
    && a.targetMode in ModeWords
    && a.targetFanSpeed in FanWords
    && !(a.quietMode && a.powerfulMode)
    && Synced(a)
    && (!a.dirty ==> a.store.committed == a.store.pending)
  }

  /** Appended events that only prime the encoder: calls other than transmit. */
  predicate Priming(events: seq<Event>) {
    forall i :: 0 <= i < |events| ==> events[i].Dispatch? && events[i].cmd != Transmit
  }

  /** `r` reads like `a` at every offset that holds no persisted field. */
  predicate KeepsUnflagged(a: Ac, r: Ac) {
    forall at: Address :: FlagAt(at).None? ==> Load(r, at) == Load(a, at)
  }

  /** `r` continues `a`'s log with priming calls only. */
  predicate Primes(a: Ac, r: Ac) {
    |a.log| <= |r.log| && r.log[..|a.log|] == a.log && Priming(r.log[|a.log|..])
  }

  lemma PrimesTransitive(a: Ac, b: Ac, c: Ac)
    requires Primes(a, b) && Primes(b, c)
    ensures Primes(a, c)
  {
    var x, y := b.log[|a.log|..], c.log[|b.log|..];
    assert c.log == a.log + x + y;
    assert c.log[|a.log|..] == x + y;
  }

  /** The number of physical IR transmissions in a log. */
  function Transmissions(log: seq<Event>): nat {
    if |log| == 0 then 0
    else Transmissions(log[..|log| - 1]) + (if log[|log| - 1] == Dispatch(Transmit) then 1 else 0)
  }

  lemma {:induction false} TransmissionsAppend(x: seq<Event>, y: seq<Event>)
    ensures Transmissions(x + y) == Transmissions(x) + Transmissions(y)
    decreases |y|
  {
    if |y| == 0 {
      assert x + y == x;
    } else {
      var y' := y[..|y| - 1];
      assert (x + y)[..|x + y| - 1] == x + y';
      TransmissionsAppend(x, y');
    }
  }

  lemma {:induction false} PrimingTransmitsNothing(events: seq<Event>)
    requires Priming(events)
    ensures Transmissions(events) == 0
    decreases |events|
  {
    if |events| > 0 {
      PrimingTransmitsNothing(events[..|events| - 1]);
    }
  }
}
