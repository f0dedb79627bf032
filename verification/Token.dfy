/** The persisted credential set and its freshness rules (internal/token/token.go). */
module Token {

  datatype Token = Token(accessToken: string, refreshToken: string, expiresAt: int, expiresIn: int)
  {
    predicate ExpiresWithin(now: int, seconds: int) { expiresAt < now + seconds }

    predicate ShouldRefresh(now: int) {
      expiresIn <= 0 || expiresAt < now + expiresIn / 2
    }

    predicate IsZero() { accessToken == "" && refreshToken == "" }
  }

  const ZERO_TOKEN := Token("", "", 0, 0)
}
