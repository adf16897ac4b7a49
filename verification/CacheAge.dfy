// The age arithmetic of HTCache.c, on values: the corrected initial age and the freshness lifetime of a
// response (sections 13.2.3 and 13.2.4 of RFC 2616), and the decision whether an entry may be used.
module CacheAge {
  const MAX_LM_EXPIRATION := 48 * 3600

  type Time = int

  // A header that the response does not have is -1.
  datatype Response = Response(date: Time, age: Time, maxAge: Time, expires: Time, lastModified: Time)

  datatype Times = Times(responseTime: Time, expires: Time, initialAge: Time, lifetime: Time)

  function Max(a: int, b: int): int {
    if a >= b then a else b
  }

  function Min(a: int, b: int): int {
    if a <= b then a else b
  }

  // Division as C has it.
  function Quotient(a: int, b: int): int
    requires b > 0
  {
    if a >= 0 then a / b else -(-a / b)
  }

  // calculate_time
  function CalculateTime(now: Time, requestDate: Time, r: Response, defaultExpiration: Time): Times {
    var apparentAge := Max(0, now - r.date);
    var initialAge := Max(apparentAge, r.age) + (now - requestDate);
    var lifetime :=
      if r.maxAge >= 0 then r.maxAge
      else if r.expires >= 0 then r.expires - r.date
      else if r.lastModified < 0 then defaultExpiration
      else Min(MAX_LM_EXPIRATION, Quotient(r.date - r.lastModified, 10));
    Times(now, r.expires, initialAge, Max(0, lifetime))
  }

  datatype HTReload = HT_CACHE_OK | HT_CACHE_VALIDATE | HT_CACHE_RANGE_VALIDATE | HT_CACHE_FLUSH | HT_CACHE_ERROR

  // The cache control of the request; -1 stands for a directive that is not there.
  datatype Control = Control(maxAge: Time, maxStale: Time, minFresh: Time)

  function CurrentAge(t: Times, now: Time): Time {
    t.initialAge + (now - t.responseTime)
  }

  // The end of HTCache_isFresh
  function AgeVerdict(t: Times, now: Time, c: Control): HTReload {
    var age := CurrentAge(t, now);
    if c.maxAge >= 0 && age > c.maxAge then HT_CACHE_VALIDATE
    else if c.minFresh >= 0 && t.lifetime < age + c.minFresh then HT_CACHE_VALIDATE
    else if t.lifetime + Max(c.maxStale, 0) > age then HT_CACHE_OK
    else HT_CACHE_VALIDATE
  }

  // ---------------------------------------------------------------------------------------------

  // By how much an entry is taken to be older than the time since its Date: the clocks may disagree, an
  // Age may be higher, and all of the delay is added.
  function Slack(now: Time, requestDate: Time, r: Response): (s: Time)
    ensures requestDate <= now ==> s >= 0
  {
    Max(Max(0, now - r.date), r.age) - (now - r.date) + (now - requestDate)
  }

  // How old a response is taken to be.
  function Age(received: Time, requestDate: Time, r: Response, now: Time): Time {
    now - r.date + Slack(received, requestDate, r)
  }

  // A response is fresh at the age a: its max-age decides if it has one, whatever its Expires says; then its
  // Expires, counted from its Date; then a tenth of the time since its last modification, and 48 hours at
  // most; and what is left is good for the default.  The negative age that a generous max-stale makes is no
  // age at all.
  predicate FreshAt(r: Response, dflt: Time, a: Time) {
    if a < 0 then true
    else if r.maxAge >= 0 then a < r.maxAge
    else if r.expires >= 0 then r.date + a < r.expires
    else if r.lastModified >= 0 then 10 * (a + 1) <= r.date - r.lastModified && a < MAX_LM_EXPIRATION
    else a < dflt
  }

  // When an entry may be used: it is not older than the request allows, it will be fresh for as long as the
  // request asks, and it is fresh, or was so within max-stale.
  predicate Usable(received: Time, requestDate: Time, r: Response, dflt: Time, now: Time, c: Control) {
    var a := Age(received, requestDate, r, now);
    && (c.maxAge >= 0 ==> a <= c.maxAge)
    && (c.minFresh >= 0 ==> FreshAt(r, dflt, a + c.minFresh - 1))
    && FreshAt(r, dflt, if c.maxStale >= 0 then a - c.maxStale else a)
  }

  lemma UsedExactly(received: Time, requestDate: Time, r: Response, dflt: Time, now: Time, c: Control)
    requires requestDate <= received <= now
    ensures Age(received, requestDate, r, now) >= 0
    ensures AgeVerdict(CalculateTime(received, requestDate, r, dflt), now, c) == HT_CACHE_OK
      <==> Usable(received, requestDate, r, dflt, now, c)
  {
    var t, a := CalculateTime(received, requestDate, r, dflt), Age(received, requestDate, r, now);
    assert CurrentAge(t, now) == a >= 0;
    OutlivesExactly(received, requestDate, r, dflt, a + c.minFresh - 1);
    OutlivesExactly(received, requestDate, r, dflt, a - c.maxStale);
    OutlivesExactly(received, requestDate, r, dflt, a);
  }

  lemma OutlivesExactly(received: Time, requestDate: Time, r: Response, dflt: Time, a: Time)
    ensures FreshAt(r, dflt, a) <==> a < CalculateTime(received, requestDate, r, dflt).lifetime
  {
  }

  // So without directives in the request:
  lemma UsedWithinMaxAge(received: Time, requestDate: Time, r: Response, dflt: Time, now: Time)
    requires r.maxAge >= 0 && requestDate <= received <= now
    ensures AgeVerdict(CalculateTime(received, requestDate, r, dflt), now, Control(-1, -1, -1)) == HT_CACHE_OK
      <==> now - r.date + Slack(received, requestDate, r) < r.maxAge
  {
    UsedExactly(received, requestDate, r, dflt, now, Control(-1, -1, -1));
  }

  lemma UsedUntilExpires(received: Time, requestDate: Time, r: Response, dflt: Time, now: Time)
    requires r.maxAge < 0 && r.expires >= 0 && requestDate <= received <= now
    ensures AgeVerdict(CalculateTime(received, requestDate, r, dflt), now, Control(-1, -1, -1)) == HT_CACHE_OK
      <==> now + Slack(received, requestDate, r) < r.expires
  {
    UsedExactly(received, requestDate, r, dflt, now, Control(-1, -1, -1));
  }

  lemma UsedWhileUnmodified(received: Time, requestDate: Time, r: Response, dflt: Time, now: Time)
    requires r.maxAge < 0 && r.expires < 0 && r.lastModified >= 0 && requestDate <= received <= now
    ensures AgeVerdict(CalculateTime(received, requestDate, r, dflt), now, Control(-1, -1, -1)) == HT_CACHE_OK
      <==> var a := now - r.date + Slack(received, requestDate, r);
           10 * (a + 1) <= r.date - r.lastModified && a < 48 * 3600
  {
    UsedExactly(received, requestDate, r, dflt, now, Control(-1, -1, -1));
  }

  lemma UsedByDefault(received: Time, requestDate: Time, r: Response, dflt: Time, now: Time)
    requires r.maxAge < 0 && r.expires < 0 && r.lastModified < 0 && requestDate <= received <= now
    ensures AgeVerdict(CalculateTime(received, requestDate, r, dflt), now, Control(-1, -1, -1)) == HT_CACHE_OK
      <==> now - r.date + Slack(received, requestDate, r) < dflt
  {
    UsedExactly(received, requestDate, r, dflt, now, Control(-1, -1, -1));
  }

  // Whatever the Date and the Age are, and whatever else the request asks for except max-stale, no entry is
  // used after it has expired.
  lemma NeverUsedExpired(received: Time, requestDate: Time, r: Response, dflt: Time, now: Time, c: Control)
    requires r.maxAge < 0 && r.expires >= 0 && c.maxStale < 0
    requires requestDate <= received <= now
    requires AgeVerdict(CalculateTime(received, requestDate, r, dflt), now, c) == HT_CACHE_OK
    ensures now < r.expires
  {
    UsedExactly(received, requestDate, r, dflt, now, c);
  }

  // With max-stale, by no more than that; but a response that had expired when it was sent counts from its
  // Date.
  lemma NeverUsedLongExpired(received: Time, requestDate: Time, r: Response, dflt: Time, now: Time, c: Control)
    requires r.maxAge < 0 && r.expires >= 0 && c.maxStale >= 0
    requires requestDate <= received <= now
    requires AgeVerdict(CalculateTime(received, requestDate, r, dflt), now, c) == HT_CACHE_OK
    ensures now < Max(r.expires, r.date) + c.maxStale
  {
    UsedExactly(received, requestDate, r, dflt, now, c);
  }

  // An entry that has to be validated has to be at every later time.
  lemma ValidationIsForGood(t: Times, c: Control, now: Time, later: Time)
    requires now <= later && AgeVerdict(t, now, c) == HT_CACHE_VALIDATE
    ensures AgeVerdict(t, later, c) == HT_CACHE_VALIDATE
  {
  }

  // min-fresh means what it says: for so long the entry will be good without it, and not necessarily longer.
  lemma MinFreshLasts(t: Times, c: Control, now: Time, later: Time)
    requires c.maxAge < 0 && c.minFresh >= 0 && now <= later < now + c.minFresh
    requires AgeVerdict(t, now, c) == HT_CACHE_OK
    ensures AgeVerdict(t, later, c.(minFresh := -1)) == HT_CACHE_OK
  {
  }
}
