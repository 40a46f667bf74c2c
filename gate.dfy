/**
 * The authentication gate in front of the protected endpoints: it looks
 * the session cookie up in the session store, for `s1` tokens compares the
 * request's fingerprint with the one hashed into the token (deleting the
 * session when they differ too much), and finally attaches the owning
 * account to the request.
 *
 * The fingerprint score is computed over exact reals; the lemmas show it
 * equals the integer test `5 * mismatches < 2 * signals`.
 */
module Gate {
  import opened Wrappers
  import opened Strings
  import opened UserAgent
  import opened Cookie
  import opened Sessions
  import opened Accounts
  import opened Store

  /** The cookie name, as the account type declares it for the API description. */
  const SessionKey := "xiler-session"
  const CookieNotFound := "'" + SessionKey + "' cookie not found"
  const NotAuthenticated := "Not authenticated"
  const NoUserAgent := "No user agent present"
  const SessionRemoved := "Anti-Cookie theft has removed this session."
  const UserGone := "User does not exist anymore."

  /** `penalty_threshold` */
  const Threshold: real := 0.6

  function Min(a: nat, b: nat): nat {
    if a <= b then a else b
  }

  /** Fields of one zipped platform pair whose digest differs from the hash of the received field. */
  function PlatformMismatch(expected: Platform, received: Platform, h: Hasher): (k: nat)
    ensures k <= 3
    ensures k == 0 <==> expected == Platform(h(received.name), h(received.version), h(received.details))
  {
    (if expected.name != h(received.name) then 1 else 0) +
    (if expected.version != h(received.version) then 1 else 0) +
    (if expected.details != h(received.details) then 1 else 0)
  }

  /** Field mismatches over the first n zipped platform pairs. */
  function PlatformMismatches(expected: seq<Platform>, received: seq<Platform>, h: Hasher, n: nat): (k: nat)
    requires n <= |expected| && n <= |received|
    ensures k <= 3 * n
    ensures k == 0 <==> forall i :: 0 <= i < n ==> PlatformMismatch(expected[i], received[i], h) == 0
  {
    if n == 0 then 0
    else PlatformMismatches(expected, received, h, n - 1) + PlatformMismatch(expected[n - 1], received[n - 1], h)
  }

  /** Mismatching extensions over the first n zipped pairs. */
  function ExtensionMismatches(expected: seq<string>, received: seq<string>, h: Hasher, n: nat): (k: nat)
    requires n <= |expected| && n <= |received|
    ensures k <= n
    ensures k == 0 <==> forall i :: 0 <= i < n ==> expected[i] == h(received[i])
  {
    if n == 0 then 0
    else ExtensionMismatches(expected, received, h, n - 1) + (if expected[n - 1] != h(received[n - 1]) then 1 else 0)
  }

  /**
   * The mismatch count k: one for the IP, up to three per zipped platform
   * pair, one per zipped extension pair; entries past the shorter list are
   * not compared.
   */
  function Mismatches(c: ParsedCookie, ua: ParsedUserAgent, ip: string, h: Hasher): (k: nat)
    ensures k <= Signals(c)
  {
    (if c.ip != h(ip) then 1 else 0) +
    PlatformMismatches(c.platforms, ua.platforms, h, Min(|c.platforms|, |ua.platforms|)) +
    ExtensionMismatches(c.extensions, ua.extensions, h, Min(|c.extensions|, |ua.extensions|))
  }

  /** The number of compared signals `1 + 3 * |platforms| + |extensions|` of the token. */
  function Signals(c: ParsedCookie): (d: nat)
    ensures d >= 1
  {
    1 + 3 * |c.platforms| + |c.extensions|
  }

  /** What one mismatch costs: `1 / signals`. */
  function Penalty(signals: nat): real
    requires signals > 0
  {
    1.0 / (signals as real)
  }

  /** The score after k mismatches. */
  function Score(k: nat, signals: nat): real
    requires signals > 0
  {
    1.0 - (k as real) * Penalty(signals)
  }

  /** k penalties subtracted one at a time. */
  function Deducted(k: nat, penalty: real): real {
    if k == 0 then 0.0 else Deducted(k - 1, penalty) + penalty
  }

  lemma {:induction false} DeductedIsProduct(k: nat, penalty: real)
    ensures Deducted(k, penalty) == (k as real) * penalty
  {
    if k > 0 {
      DeductedIsProduct(k - 1, penalty);
      assert ((k - 1) as real) * penalty + penalty == (k as real) * penalty;
    }
  }

  /** Subtracting the penalty k times from 1 gives the score of k mismatches. */
  lemma DeductedScore(k: nat, signals: nat)
    requires signals > 0
    ensures 1.0 - Deducted(k, Penalty(signals)) == Score(k, signals)
  {
    DeductedIsProduct(k, Penalty(signals));
  }

  /** `if mismatch { cookie_owner_probability -= penalty; }`, counting the mismatch in k. */
  method DeductIf(mismatch: bool, penalty: real, p0: real, k0: nat) returns (p: real, k: nat)
    requires p0 == 1.0 - Deducted(k0, penalty)
    ensures k == k0 + (if mismatch then 1 else 0)
    ensures p == 1.0 - Deducted(k, penalty)
  {
    p, k := p0, k0;
    if mismatch {
      p := p - penalty;
      k := k + 1;
    }
  }

  /**
   * The platform loop of the score: starting from probability `p0` after
   * `k0` mismatches, one penalty per mismatching field of each zipped pair.
   */
  method DeductPlatforms(expected: seq<Platform>, received: seq<Platform>, h: Hasher, penalty: real,
                         p0: real, k0: nat) returns (p: real, k: nat)
    requires p0 == 1.0 - Deducted(k0, penalty)
    ensures k == k0 + PlatformMismatches(expected, received, h, Min(|expected|, |received|))
    ensures p == 1.0 - Deducted(k, penalty)
  {
    p, k := p0, k0;
    var n := Min(|expected|, |received|);
    var i := 0;
    while i < n
      invariant 0 <= i <= n
      invariant k == k0 + PlatformMismatches(expected, received, h, i)
      invariant p == 1.0 - Deducted(k, penalty)
    {
      var e, r := expected[i], received[i];
      p, k := DeductIf(e.name != h(r.name), penalty, p, k);
      p, k := DeductIf(e.version != h(r.version), penalty, p, k);
      p, k := DeductIf(e.details != h(r.details), penalty, p, k);
      i := i + 1;
    }
  }

  /** The extension loop of the score: one penalty per mismatching zipped pair. */
  method DeductExtensions(expected: seq<string>, received: seq<string>, h: Hasher, penalty: real,
                          p0: real, k0: nat) returns (p: real, k: nat)
    requires p0 == 1.0 - Deducted(k0, penalty)
    ensures k == k0 + ExtensionMismatches(expected, received, h, Min(|expected|, |received|))
    ensures p == 1.0 - Deducted(k, penalty)
  {
    p, k := p0, k0;
    var m := Min(|expected|, |received|);
    var j := 0;
    while j < m
      invariant 0 <= j <= m
      invariant k == k0 + ExtensionMismatches(expected, received, h, j)
      invariant p == 1.0 - Deducted(k, penalty)
    {
      p, k := DeductIf(expected[j] != h(received[j]), penalty, p, k);
      j := j + 1;
    }
  }

  /**
   * The probability the source computes, starting at 1 and lowering it by
   * the penalty once per mismatch, in the order the source compares.
   */
  method OwnerProbability(c: ParsedCookie, ua: ParsedUserAgent, ip: string, h: Hasher) returns (p: real)
    ensures p == Score(Mismatches(c, ua, ip, h), Signals(c))
  {
    var penalty := Penalty(Signals(c));
    var k: nat;
    p, k := DeductIf(c.ip != h(ip), penalty, 1.0, 0);
    p, k := DeductPlatforms(c.platforms, ua.platforms, h, penalty, p, k);
    p, k := DeductExtensions(c.extensions, ua.extensions, h, penalty, p, k);
    DeductedScore(k, Signals(c));
  }

  /** `score > 0.6` is the integer test `5k < 2 * signals`. */
  lemma AcceptIff(k: nat, signals: nat)
    requires signals > 0
    ensures Score(k, signals) > Threshold <==> 5 * k < 2 * signals
  {
    var s := signals as real;
    var q := 1.0 / s;
    assert q * s == 1.0;
    var x := (k as real) * q;
    assert x * s == k as real;
    if Score(k, signals) > Threshold {
      assert x < 0.4;
      assert x * s < 0.4 * s;
    } else {
      assert x >= 0.4;
      assert x * s >= 0.4 * s;
    }
  }

  /** The score never exceeds 1, and with at most `signals` mismatches it never drops below 0. */
  lemma ScoreBounds(k: nat, signals: nat)
    requires signals > 0
    ensures Score(k, signals) <= 1.0
    ensures k <= signals ==> Score(k, signals) >= 0.0
    ensures k == 0 <==> Score(k, signals) == 1.0
  {
    var s := signals as real;
    var q := 1.0 / s;
    assert q * s == 1.0;
    assert q > 0.0;
    if k <= signals {
      assert (k as real) * q <= s * q;
    }
    if k > 0 {
      assert (k as real) * q >= q;
    }
  }

  /** More mismatches never raise the score. */
  lemma ScoreMonotone(k1: nat, k2: nat, signals: nat)
    requires signals > 0 && k1 <= k2
    ensures Score(k2, signals) <= Score(k1, signals)
  {
    var q := 1.0 / (signals as real);
    assert q > 0.0;
    assert (k1 as real) * q <= (k2 as real) * q;
  }

  /** The gate accepts the fingerprint. */
  predicate SameClient(c: ParsedCookie, ua: ParsedUserAgent, ip: string, h: Hasher) {
    Score(Mismatches(c, ua, ip, h), Signals(c)) > Threshold
  }

  /** The gate's response. `Forward` attaches the account and calls the protected service. */
  datatype Outcome = Respond(status: nat, message: string) | Forward(user: FullUser)

  /** The request is an `s1` token whose fingerprint the gate rejects. */
  predicate TheftDetected(sessions: map<string, string>, cookie: Option<string>, userAgent: Option<string>,
                          ip: string, h: Hasher)
  {
    cookie.Some? && cookie.value in sessions && StartsWith(cookie.value, VersionPrefix) &&
    userAgent.Some? && ParseBrowserCookie(cookie.value).Ok? &&
    !SameClient(ParseBrowserCookie(cookie.value).value, ParseUserAgent(userAgent.value), ip, h)
  }

  /** The gate's decision chain, on the stores as they are when the request arrives. */
  function GateOutcome(sessions: map<string, string>, users: map<string, FullUser>, cookie: Option<string>,
                       userAgent: Option<string>, ip: string, h: Hasher): (o: Outcome)
    ensures o.Respond? ==> o.status in {400, 401, 410}
    ensures o.Forward? ==> cookie.Some? && cookie.value in sessions && sessions[cookie.value] in users
                           && o.user == users[sessions[cookie.value]]
    ensures TheftDetected(sessions, cookie, userAgent, ip, h) ==> o == Respond(410, SessionRemoved)
  {
    if cookie.None? then Respond(400, CookieNotFound)
    else if cookie.value !in sessions then Respond(401, NotAuthenticated)
    else if StartsWith(cookie.value, VersionPrefix) && userAgent.None? then Respond(400, NoUserAgent)
    else if StartsWith(cookie.value, VersionPrefix) && ParseBrowserCookie(cookie.value).Err? then
      Respond(400, ParseBrowserCookie(cookie.value).error)
    else if StartsWith(cookie.value, VersionPrefix) &&
            !SameClient(ParseBrowserCookie(cookie.value).value, ParseUserAgent(userAgent.value), ip, h) then
      Respond(410, SessionRemoved)
    else if sessions[cookie.value] !in users then Respond(410, UserGone)
    else Forward(users[sessions[cookie.value]])
  }

  /**
   * `AuthenticatedMiddleware::call`. `cookie` is the `xiler-session`
   * cookie, `userAgent` the User-Agent header and `ip` the peer address.
   * Only a fingerprint rejection changes a store, and then it deletes
   * exactly the presented session.
   */
  method Authenticate(db: InMemoryDataProvider, cookie: Option<string>, userAgent: Option<string>,
                      ip: string, h: Hasher) returns (o: Outcome)
    modifies db
    ensures o == GateOutcome(old(db.sessions), old(db.users), cookie, userAgent, ip, h)
    ensures db.users == old(db.users)
    ensures TheftDetected(old(db.sessions), cookie, userAgent, ip, h) ==>
              db.sessions == old(db.sessions) - {cookie.value}
    ensures !TheftDetected(old(db.sessions), cookie, userAgent, ip, h) ==> db.sessions == old(db.sessions)
  {
    if cookie.None? {
      return Respond(400, CookieNotFound);
    }
    var token := cookie.value;
    var clientId := db.Get(token);
    if clientId.None? {
      return Respond(401, NotAuthenticated);
    }
    if StartsWith(token, VersionPrefix) {
      if userAgent.None? {
        return Respond(400, NoUserAgent);
      }
      var parsedUserAgent := ParseUserAgent(userAgent.value);
      var expected := ParseBrowserCookie(token);
      if expected.Err? {
        return Respond(400, expected.error);
      }
      var probability := OwnerProbability(expected.value, parsedUserAgent, ip, h);
      if !(probability > Threshold) {
        var _ := db.Delete(token);
        return Respond(410, SessionRemoved);
      }
    }
    var fullUser := db.GetUserById(clientId.value);
    if fullUser.None? {
      return Respond(410, UserGone);
    }
    o := Forward(fullUser.value);
  }

  /** A request presenting the fingerprint hashed into its own token has no mismatch. */
  lemma FreshTokenMatches(ip: string, ua: ParsedUserAgent, random: string, h: Hasher)
    requires '.' !in random
    ensures ParseBrowserCookie(GenerateBrowserSession(ip, ua, random, h)).Ok?
    ensures var c := ParseBrowserCookie(GenerateBrowserSession(ip, ua, random, h)).value;
            Mismatches(c, ua, ip, h) == 0 && Score(0, Signals(c)) == 1.0 && SameClient(c, ua, ip, h)
  {
    RoundTrip(ip, ua, random, h);
    var c := ParseBrowserCookie(GenerateBrowserSession(ip, ua, random, h)).value;
    var n := Min(|c.platforms|, |ua.platforms|);
    forall i | 0 <= i < n ensures PlatformMismatch(c.platforms[i], ua.platforms[i], h) == 0 {
    }
    var m := Min(|c.extensions|, |ua.extensions|);
    forall i | 0 <= i < m ensures c.extensions[i] == h(ua.extensions[i]) {
    }
    ScoreBounds(0, Signals(c));
    AcceptIff(0, Signals(c));
  }

  /**
   * A request whose fingerprint differs from the token only in the IP has
   * exactly one mismatch, and is rejected iff the token has at most two
   * signals (no platform and at most one extension).
   */
  lemma OnlyIpChanged(c: ParsedCookie, ua: ParsedUserAgent, ip: string, h: Hasher)
    requires c.ip != h(ip)
    requires |c.platforms| <= |ua.platforms| && |c.extensions| <= |ua.extensions|
    requires forall i :: 0 <= i < |c.platforms| ==> PlatformMismatch(c.platforms[i], ua.platforms[i], h) == 0
    requires forall i :: 0 <= i < |c.extensions| ==> c.extensions[i] == h(ua.extensions[i])
    ensures Mismatches(c, ua, ip, h) == 1
    ensures SameClient(c, ua, ip, h) <==> Signals(c) >= 3
  {
    AcceptIff(1, Signals(c));
  }

  /**
   * A token without the `s1` prefix skips fingerprinting: the outcome does
   * not depend on the User-Agent header or the address, and no session is
   * ever deleted for it.
   */
  lemma LegacyTokenIgnoresFingerprint(sessions: map<string, string>, users: map<string, FullUser>, token: string,
                                      ua1: Option<string>, ip1: string, ua2: Option<string>, ip2: string, h: Hasher)
    requires !StartsWith(token, VersionPrefix)
    ensures GateOutcome(sessions, users, Some(token), ua1, ip1, h) == GateOutcome(sessions, users, Some(token), ua2, ip2, h)
    ensures !TheftDetected(sessions, Some(token), ua1, ip1, h)
    ensures token in sessions && sessions[token] !in users ==>
              GateOutcome(sessions, users, Some(token), ua1, ip1, h) == Respond(410, UserGone)
  {
  }
}
