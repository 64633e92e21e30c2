/**
 * The session a client or an auth facade hands to every request. The
 * session class itself is not part of this model; only the three values
 * requests read from it are.
 */
module Sessions {
  import opened Php

  /** The environment a session targets; `Other` is any unrecognised session type. */
  datatype SessionType = Prod | Sandbox | Stage | Other(name: string)

  datatype WishSession = WishSession(accessToken: Value, sessionType: SessionType, merchantId: Value)
}
