// The event on the clicks topic (internal/clickevent/clickevent.go).

module ClickEvent {

  datatype Click = Click(sub: string, count: nat, challengeId: string, tsUnix: int, displayName: string)

  /** One entry of a partition. Bytes that do not decode are kept as Malformed; `at` is
      the server clock (nanoseconds) that SubmitClicks used to check the challenge. */
  datatype Record = Malformed | Accepted(click: Click, at: int)
}
