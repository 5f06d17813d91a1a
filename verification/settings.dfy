/** Static configuration of include/settings.h: which IR protocol backend drives the unit. */
module Settings {

  /** The backend selector `mode` of the `Ac` class. The header numbers the
      backends DAIKIN = 1, PANASONIC = 2 and HITACHI = 3. */
  datatype Backend = Daikin | Panasonic | Hitachi

  /** The numeric code of each backend, as the header defines it. */
  function Code(b: Backend): (n: int)
    ensures 1 <= n <= 3
    ensures FromCode(n) == b
  {
    match b
    case Daikin => 1
    case Panasonic => 2
    case Hitachi => 3
  }

  /** The backend a numeric code selects. */
  function FromCode(n: int): (b: Backend)
    requires 1 <= n <= 3
  {
    if n == 1 then Daikin else if n == 2 then Panasonic else Hitachi
  }
}
