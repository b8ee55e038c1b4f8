// The signed challenge: lifetimes and the semantic check (internal/pow/token.go).

module Token {

  /** All times are nanoseconds since the epoch. */
  const SECOND := 1_000_000_000
  const TOKEN_TTL := 300 * SECOND
  const EXP_LEEWAY := 30 * SECOND
  const MAX_BATCH := 10_000

  /** `iat` is the instant of issue; `exp` is in whole seconds, as in the payload. */
  datatype Challenge = Challenge(sub: string, iat: int, exp: int)

  datatype Verdict = Ok | Expired | WrongSub

  function Issue(sub: string, now: int): Challenge {
    Challenge(sub, now, (now + TOKEN_TTL) / SECOND)
  }

  function Verify(c: Challenge, sub: string, now: int): Verdict {
    if now > c.exp * SECOND + EXP_LEEWAY then Expired
    else if c.sub == "" || c.sub != sub then WrongSub
    else Ok
  }
}
