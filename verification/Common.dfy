/** Shared result types: C++'s std::optional, std::expected and StatusCode. */
module Common {
  datatype Option<+T> = None | Some(value: T) {
    function GetOr(default: T): T {
      if Some? then value else default
    }
  }

  datatype StatusCode = InvalidArg | NotFound | Busy | State | Internal | Io | Device

  datatype Result<+T> = Ok(value: T) | Err(code: StatusCode)

  datatype Unit = Unit

  type Status = Result<Unit>

  const DONE: Status := Ok(Unit)
}
