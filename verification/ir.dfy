/** The semantic commands the engine issues to an IR protocol encoder. The
    vendor constants (`DAIKIN_COOL`, `kPanasonicAcFanMin`, `kHitachiAcFanLow`,
    `kPanasonicAcSwingVAuto`, ...) are all instances of these commands. */
module Ir {
  import opened Settings

  /** The operating modes other than off. */
  datatype OpMode = Cool | Heat | FanOnly | Auto | Dry

  datatype FanLevel = FanAuto | FanMin | FanMax

  datatype Command =
    | On
    | Off
    | SetMode(mode: OpMode)
    | SetFan(level: FanLevel)
    | SetTemp(degrees: int)
    | SwingV(enabled: bool)
    | SwingH(enabled: bool)
    | Quiet(enabled: bool)
    | Powerful(enabled: bool)
    | Transmit

  /** Whether the backend has a call for the command: the Hitachi encoder is
      never asked for quiet or powerful. */
  predicate Supported(b: Backend, c: Command) {
    !(b == Hitachi && (c.Quiet? || c.Powerful?))
  }
}
