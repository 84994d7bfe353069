/**
 * The `drizzle_return_t` enum and the status check built on it.
 * FFI numbers the symbols of an enum declared without explicit values by
 * their position, starting at 0; looking up an integer that no symbol has
 * yields `nil`.
 */
module ReturnCodes {
  import opened Wrappers

  datatype ReturnCode =
    | ReturnOk
    | ReturnIoWait
    | ReturnPause
    | ReturnRowBreak
    | ReturnMemory
    | ReturnErrno
    | ReturnInternalError
    | ReturnGetAddrInfo
    | ReturnNotReady
    | ReturnBadPacketNumber
    | ReturnBadHandshakePacket
    | ReturnBadPacket
    | ReturnProtocolNotSupported
    | ReturnUnexpectedData
    | ReturnNoScramble
    | ReturnAuthFailed
    | ReturnNullSize
    | ReturnErrorCode
    | ReturnTooManyColumns
    | ReturnRowEnd
    | ReturnEof
    | ReturnCouldNotConnect
    | ReturnNoActiveConnections
    | ReturnServerGone
    | ReturnMax

  /** The symbols in declaration order: the code at index i has the value i. */
  const Codes: seq<ReturnCode> := [
    ReturnOk, ReturnIoWait, ReturnPause, ReturnRowBreak, ReturnMemory,
    ReturnErrno, ReturnInternalError, ReturnGetAddrInfo, ReturnNotReady,
    ReturnBadPacketNumber, ReturnBadHandshakePacket, ReturnBadPacket,
    ReturnProtocolNotSupported, ReturnUnexpectedData, ReturnNoScramble,
    ReturnAuthFailed, ReturnNullSize, ReturnErrorCode, ReturnTooManyColumns,
    ReturnRowEnd, ReturnEof, ReturnCouldNotConnect, ReturnNoActiveConnections,
    ReturnServerGone, ReturnMax
  ]

  /** The integer value FFI gives a symbol (`Drizzle.return_codes[sym]`). */
  function Position(c: ReturnCode): (p: nat)
    ensures p < |Codes| && Codes[p] == c
  {
    match c
    case ReturnOk => 0
    case ReturnIoWait => 1
    case ReturnPause => 2
    case ReturnRowBreak => 3
    case ReturnMemory => 4
    case ReturnErrno => 5
    case ReturnInternalError => 6
    case ReturnGetAddrInfo => 7
    case ReturnNotReady => 8
    case ReturnBadPacketNumber => 9
    case ReturnBadHandshakePacket => 10
    case ReturnBadPacket => 11
    case ReturnProtocolNotSupported => 12
    case ReturnUnexpectedData => 13
    case ReturnNoScramble => 14
    case ReturnAuthFailed => 15
    case ReturnNullSize => 16
    case ReturnErrorCode => 17
    case ReturnTooManyColumns => 18
    case ReturnRowEnd => 19
    case ReturnEof => 20
    case ReturnCouldNotConnect => 21
    case ReturnNoActiveConnections => 22
    case ReturnServerGone => 23
    case ReturnMax => 24
  }

  /** `Drizzle.return_codes[status]`: the symbol at that position, or nil. */
  function Decode(status: int): (c: Option<ReturnCode>)
    ensures c.Some? <==> 0 <= status < |Codes|
    ensures c.Some? ==> Position(c.value) == status
  {
    if 0 <= status < |Codes| then Some(Codes[status]) else None
  }

  /**
   * The comparison `Drizzle.return_codes[status] != :DRIZZLE_RETURN_OK`, negated:
   * only the status 0 decodes to `DRIZZLE_RETURN_OK`.
   */
  predicate IsOk(status: int): (ok: bool)
    ensures ok <==> status == 0
  {
    Decode(status) == Some(ReturnOk)
  }

  /** Decoding a symbol's value gives the symbol back. */
  lemma DecodePosition(c: ReturnCode)
    ensures Decode(Position(c)) == Some(c)
  {
  }

  /** `check_error` against the status the engine wrote: returns iff the status is OK. */
  function CheckError(status: int, lastError: string): (r: Raises<()>)
    ensures r.Returned? <==> status == 0
    ensures r.Raised? ==> r.error == QueryFailed(lastError)
  {
    if IsOk(status) then Returned(()) else Raised(QueryFailed(lastError))
  }
}
