/** Status codes, response codes and the texts the library sends. */
module Protocol {
  import opened Bytes

  datatype Status =
    | Ok
    | InvalidArg
    | InvalidState
    | BufferTooSmall
    | TooManyConnections
    | UnknownConnection
    | QueueFull
    | Closed

  const CODE_SHOT_RECEIVED: int := 200
  const CODE_PLAYER_INFO: int := 201
  const CODE_READY: int := 202
  const CODE_ROUND_ENDED: int := 203
  const CODE_FAILURE: int := 501

  predicate CodeIsOurs(code: int) {
    code == CODE_SHOT_RECEIVED || code == CODE_PLAYER_INFO || code == CODE_READY
    || code == CODE_ROUND_ENDED || code == CODE_FAILURE
  }

  const TEXT_SHOT_RECEIVED: seq<Byte> := Ascii("Shot received successfully")
  const TEXT_PLAYER_INFO: seq<Byte> := Ascii("GSPro Player Information")
  const TEXT_READY: seq<Byte> := Ascii("GSPro ready")
  const TEXT_ROUND_ENDED: seq<Byte> := Ascii("GSPro round ended")
  const TEXT_BAD_JSON: seq<Byte> := Ascii("Bad JSON data")
  const TEXT_TOO_LARGE: seq<Byte> := Ascii("Payload too large")
  const TEXT_INCOMPLETE: seq<Byte> := Ascii("Incomplete ball data")

  const WRITE_MAX: nat := 256
}
