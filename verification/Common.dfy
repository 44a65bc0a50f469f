/** Wrappers and the published constants every component shares. */
module Common {
  datatype Option<+T> = None | Some(value: T)

  datatype Result<+T, +E> = Success(value: T) | Failure(error: E)

  function Min(a: int, b: int): int { if a <= b then a else b }

  function Max(a: int, b: int): int { if a <= b then b else a }
}

/** `libs/contracts/src/constants.ts` and the two waits built on it. */
module Contracts {
  const CLOCK_SKEW_LEEWAY_SECONDS := 60
  const JWKS_CACHE_MAX_AGE_SECONDS := 300
  const ACCESS_TOKEN_TTL_SECONDS := 900
  const JWT_SIGNING_ALGORITHM := "RS256"
  const JWT_MIN_RSA_KEY_BITS := 2048
  const DEFAULT_MIN_REFETCH_INTERVAL_SECONDS := 30

  const PROPAGATION_WAIT_SECONDS := JWKS_CACHE_MAX_AGE_SECONDS + CLOCK_SKEW_LEEWAY_SECONDS
  const RETENTION_WAIT_SECONDS := ACCESS_TOKEN_TTL_SECONDS + CLOCK_SKEW_LEEWAY_SECONDS
}
