/** The token-expiry check. The clock is a parameter (`now`, in ms since the
    epoch) rather than a read of `Date.now()`. */
module CalendarAuth {
  import opened Wrappers

  /** Tokens are treated as expired this long before their expiry: 5 minutes. */
  const RefreshMarginMs: int := 5 * 60 * 1000

  /** The stored OAuth tokens, as far as the expiry check reads them. */
  datatype Tokens = Tokens(expiryDate: Option<int>)

  /** `tokens.expiry_date` is truthy: present and not 0. */
  predicate HasExpiry(t: Tokens) {
    t.expiryDate.Some? && t.expiryDate.value != 0
  }

  /** `isTokenExpired`: a token with no (or a zero) expiry is never expired;
      otherwise it is expired once fewer than five minutes remain. */
  function IsTokenExpired(t: Tokens, now: int): (expired: bool)
    ensures !HasExpiry(t) ==> !expired
    ensures HasExpiry(t) ==> (expired <==> t.expiryDate.value < now + 300000)
  {
    if !HasExpiry(t) then false else t.expiryDate.value < now + RefreshMarginMs
  }

  /** Once expired, a token stays expired as time goes on. */
  lemma ExpiryMonotone(t: Tokens, now: int, later: int)
    requires now <= later && IsTokenExpired(t, now)
    ensures IsTokenExpired(t, later)
  {
  }

  /** Exactly five minutes before expiry the token is not yet expired; one
      millisecond later it is. */
  lemma MarginBoundary(expiry: int, now: int)
    requires expiry != 0 && expiry == now + RefreshMarginMs
    ensures !IsTokenExpired(Tokens(Some(expiry)), now)
    ensures IsTokenExpired(Tokens(Some(expiry)), now + 1)
  {
  }

  /** A token whose expiry has already passed is expired. */
  lemma PastExpiryIsExpired(t: Tokens, now: int)
    requires HasExpiry(t) && t.expiryDate.value < now
    ensures IsTokenExpired(t, now)
  {
  }

  /** An expiry of 0 reads as missing: never expired, whatever the time. */
  lemma ZeroExpiryNeverExpires(now: int)
    ensures !IsTokenExpired(Tokens(Some(0)), now)
    ensures !IsTokenExpired(Tokens(None), now)
  {
  }
}
