/** The key-set provider: two process-wide cells, the last fetched key-set
    document and the instant it was installed, consulted on every request
    with a 12-hour time to live. The cells are `OnceLock`s, so each can be set
    once and never overwritten. Time is in nanoseconds. */
module JwkCache {
  import opened Wrappers
  import opened Timestamp

  /** `WELL_KNOWN` and `WELL_KNOWN_TTL`. */
  datatype Cache = Cache(content: Option<string>, installedAt: Option<Instant>)

  const Empty: Cache := Cache(None, None)

  const TwelveHours: int := 12 * 3600 * 1_000_000_000

  /** What `GET {OAUTH_DOMAIN}/.well-known/jwks.json` gave: the body text and
      the clock reading taken after it arrived, or a failure of the request
      or of reading its body. */
  datatype FetchOutcome = Fetched(text: string, at: Instant) | FetchFailed

  /** The cells after the call and the document text the call returns. */
  datatype Served = Served(cache: Cache, content: string)

  /** Both cells are set or neither is. */
  predicate Consistent(c: Cache) {
    c.content.Some? <==> c.installedAt.Some?
  }

  /** A fetch is due when nothing was ever installed, or the install is more
      than twelve hours old (strictly). */
  predicate NeedsFetch(c: Cache, now: Instant) {
    c.installedAt.None? || c.installedAt.value + TwelveHours < now
  }

  /** `JwkWellKnown::fetch` as written: the text is returned only when both
      write-once cells accept it; otherwise the result is empty. */
  function FetchAsWritten(c: Cache, f: FetchOutcome): Served {
    match f
    case FetchFailed => Served(c, "")
    case Fetched(text, at) =>
      if c.content.Some? then Served(c, "")
      else if c.installedAt.Some? then Served(c.(content := Some(text)), "")
      else Served(Cache(Some(text), Some(at)), text)
  }

  /** `JwkWellKnown::new` as written. */
  function NewAsWritten(c: Cache, now: Instant, f: FetchOutcome): (r: Served)
    ensures !NeedsFetch(c, now) ==> r == Served(c, c.content.GetOr(""))
    ensures c.content.Some? ==> r.cache == c
    ensures Consistent(c) ==> Consistent(r.cache)
  {
    if c.installedAt.None? then FetchAsWritten(c, f)
    else if c.installedAt.value + TwelveHours < now then FetchAsWritten(c, f)
    else Served(c, c.content.GetOr(""))
  }

  /** The first call installs a successful fetch and serves its text; a failed
      first fetch serves nothing and leaves the cells empty for the next call. */
  lemma FirstInstall(now: Instant, f: FetchOutcome)
    ensures f.Fetched? ==> NewAsWritten(Empty, now, f) == Served(Cache(Some(f.text), Some(f.at)), f.text)
    ensures f.FetchFailed? ==> NewAsWritten(Empty, now, f) == Served(Empty, "")
  {
  }

  /** Exactly twelve hours after the install the cached document is still
      served, whatever a fetch would have returned. */
  lemma TwelveHoursStillCached(doc: string, t: Instant, f: FetchOutcome)
    ensures NewAsWritten(Cache(Some(doc), Some(t)), t + TwelveHours, f).content == doc
  {
  }

  /** As written, once the install is older than twelve hours the fetch runs
      on every call but the write-once cells refuse the new document, so every
      call serves the empty text, and the cells never change again. */
  lemma RefreshAfterExpiryServesEmpty(doc: string, t: Instant, now: Instant, f: FetchOutcome)
    requires now > t + TwelveHours
    ensures NewAsWritten(Cache(Some(doc), Some(t)), now, f) == Served(Cache(Some(doc), Some(t)), "")
  {
  }

  /** The intended refresh: a successful fetch replaces both cells together
      and is served; a failed one keeps serving the stale document. */
  function FetchIntended(c: Cache, f: FetchOutcome): Served {
    match f
    case Fetched(text, at) => Served(Cache(Some(text), Some(at)), text)
    case FetchFailed => Served(c, c.content.GetOr(""))
  }

  function NewIntended(c: Cache, now: Instant, f: FetchOutcome): (r: Served)
    ensures !NeedsFetch(c, now) ==> r == Served(c, c.content.GetOr(""))
    ensures NeedsFetch(c, now) && f.Fetched? ==> r == Served(Cache(Some(f.text), Some(f.at)), f.text)
    ensures NeedsFetch(c, now) && f.FetchFailed? ==> r == Served(c, c.content.GetOr(""))
    ensures Consistent(c) ==> Consistent(r.cache)
  {
    if NeedsFetch(c, now) then FetchIntended(c, f) else Served(c, c.content.GetOr(""))
  }

  /** The served text is always the document in the cells afterwards (or
      empty when there is none): nothing is served that is not cached. */
  lemma IntendedServesCache(c: Cache, now: Instant, f: FetchOutcome)
    requires Consistent(c)
    ensures NewIntended(c, now, f).content == NewIntended(c, now, f).cache.content.GetOr("")
  {
  }

  /** Where no refresh of an installed document is involved, the intended
      provider behaves exactly as the source does. */
  lemma IntendedAgreesUntilExpiry(c: Cache, now: Instant, f: FetchOutcome)
    requires Consistent(c)
    requires c == Empty || !NeedsFetch(c, now)
    ensures NewIntended(c, now, f) == NewAsWritten(c, now, f)
  {
  }
}
