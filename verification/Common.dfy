/** Optional values and the clamping readers that every stored setting goes through. */
module Common {

  datatype Option<+T> = None | Some(value: T) {
    function GetOr(default: T): T {
      match this
      case Some(v) => v
      case None => default
    }
  }

  const SECONDS_PER_YEAR: real := 86400.0 * 365.0

  function MinReal(a: real, b: real): real {
    if a <= b then a else b
  }

  function MaxReal(a: real, b: real): real {
    if a >= b then a else b
  }

  function MinInt(a: int, b: int): int {
    if a <= b then a else b
  }

  function MaxInt(a: int, b: int): int {
    if a >= b then a else b
  }

  /** An integer setting: the default when absent, then the lower bound, then the upper bound. */
  function IntOrDefault(raw: Option<int>, default: int, minimum: int, maximum: int): (r: int)
    ensures minimum <= maximum ==> minimum <= r <= maximum
    ensures raw.Some? && minimum <= raw.value <= maximum ==> r == raw.value
  {
    MinInt(MaxInt(raw.GetOr(default), minimum), maximum)
  }

  /** A real setting, read the same way. */
  function FloatOrDefault(raw: Option<real>, default: real, minimum: real, maximum: real): (r: real)
    ensures minimum <= maximum ==> minimum <= r <= maximum
    ensures raw.Some? && minimum <= raw.value <= maximum ==> r == raw.value
  {
    MinReal(MaxReal(raw.GetOr(default), minimum), maximum)
  }
}
