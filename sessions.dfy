/**
 * Construction of the browser session token. The hash (`xx_hash`, an
 * XxHash32 digest rendered with `to_string`) is a parameter of type
 * `Hasher`: any function whose results are non-empty decimal digit strings.
 * The 32-character random suffix is a parameter as well.
 */
module Sessions {
  import opened Wrappers
  import opened Strings
  import opened UserAgent
  import opened Cookie
  import opened Http

  predicate IsDecimal(s: string) {
    |s| > 0 && forall i :: 0 <= i < |s| ==> '0' <= s[i] <= '9'
  }

  /** A 32-bit digest written in decimal. */
  type Digest = s: string | IsDecimal(s) witness "0"

  type Hasher = string -> Digest

  const VersionPrefix := "s1"

  /** `h(name)-h(version)-h(details)` */
  function HashPlatform(p: Platform, h: Hasher): string {
    h(p.name) + "-" + h(p.version) + "-" + h(p.details)
  }

  function HashPlatforms(ps: seq<Platform>, h: Hasher): (r: seq<string>)
    ensures |r| == |ps| && forall i :: 0 <= i < |ps| ==> r[i] == HashPlatform(ps[i], h)
  {
    seq(|ps|, i requires 0 <= i < |ps| => HashPlatform(ps[i], h))
  }

  function HashExtensions(es: seq<string>, h: Hasher): (r: seq<string>)
    ensures |r| == |es| && forall i :: 0 <= i < |es| ==> r[i] == h(es[i])
  {
    seq(|es|, i requires 0 <= i < |es| => h(es[i]))
  }

  /** `generate_browser_session`: the five fields joined by `.`. */
  function GenerateBrowserSession(ip: string, ua: ParsedUserAgent, random: string, h: Hasher): (token: string)
    ensures StartsWith(token, VersionPrefix)
  {
    var fields := [VersionPrefix, h(ip), Join(HashPlatforms(ua.platforms, h), "||"),
                   Join(HashExtensions(ua.extensions, h), "_"), random];
    JoinFive(fields[0], fields[1], fields[2], fields[3], fields[4], ".");
    Join(fields, ".")
  }

  /** `create_browser_session`: a request without a User-Agent header is a bad request. */
  function CreateBrowserSession(userAgent: Option<string>, ip: string, random: string, h: Hasher)
    : (r: Result<string, HttpError>)
    ensures r.Err? <==> userAgent.None?
    ensures r.Err? ==> r.error == BadRequest("No user agent present")
    ensures r.Ok? ==> StartsWith(r.value, VersionPrefix)
    ensures r.Ok? ==> r.value == GenerateBrowserSession(ip, ParseUserAgent(userAgent.value), random, h)
  {
    match userAgent
    case None => Err(BadRequest("No user agent present"))
    case Some(agent) => Ok(GenerateBrowserSession(ip, ParseUserAgent(agent), random, h))
  }

  /** The platform triples a decoder recovers from a token: the hashed fields. */
  function HashedTriples(ps: seq<Platform>, h: Hasher): (r: seq<Platform>)
    ensures |r| == |ps|
  {
    seq(|ps|, i requires 0 <= i < |ps| => Platform(h(ps[i].name), h(ps[i].version), h(ps[i].details)))
  }

  /** A digest holds digits only. */
  lemma DigestChars(d: Digest, x: char)
    requires !('0' <= x <= '9')
    ensures x !in d
  {
  }

  /** A hashed triple has exactly three `-` parts, the three digests. */
  lemma SplitHashPlatform(p: Platform, h: Hasher)
    ensures Split(HashPlatform(p, h), "-") == [h(p.name), h(p.version), h(p.details)]
    ensures '|' !in HashPlatform(p, h) && '.' !in HashPlatform(p, h)
  {
    var a, b, c := h(p.name), h(p.version), h(p.details);
    DigestChars(a, '-');
    DigestChars(b, '-');
    DigestChars(c, '-');
    assert a + "-" + b + "-" + c == a + "-" + (b + "-" + c);
    SplitLeadingPiece(a, "-", b + "-" + c);
    SplitLeadingPiece(b, "-", c);
    SplitWithoutSep(c, "-");
    DigestChars(a, '|');
    DigestChars(b, '|');
    DigestChars(c, '|');
    DigestChars(a, '.');
    DigestChars(b, '.');
    DigestChars(c, '.');
  }

  /** Decoding the encoded triples keeps every one of them, in order. */
  lemma {:induction false} KeepHashedTriples(ps: seq<Platform>, h: Hasher)
    ensures KeepTriples(HashPlatforms(ps, h)) == HashedTriples(ps, h)
    decreases |ps|
  {
    if |ps| > 0 {
      KeepHashedTriples(ps[1..], h);
      assert HashPlatforms(ps, h)[1..] == HashPlatforms(ps[1..], h);
      assert HashedTriples(ps, h) == HashedTriples([ps[0]], h) + HashedTriples(ps[1..], h);
      SplitHashPlatform(ps[0], h);
    }
  }

  /** The platforms field splits back into the encoded triples and holds no `.`. */
  lemma PlatformsField(ps: seq<Platform>, h: Hasher)
    ensures KeepTriples(Split(Join(HashPlatforms(ps, h), "||"), "||")) == HashedTriples(ps, h)
    ensures '.' !in Join(HashPlatforms(ps, h), "||")
  {
    var hp := HashPlatforms(ps, h);
    forall i | 0 <= i < |hp| ensures '|' !in hp[i] && '.' !in hp[i] {
      SplitHashPlatform(ps[i], h);
    }
    JoinChars(hp, "||", '.');
    if |ps| == 0 {
      assert Split("", "||") == [""];
      assert Split("", "-") == [""];
      assert KeepTriples([""]) == [];
    } else {
      SplitJoin(hp, "||");
      KeepHashedTriples(ps, h);
    }
  }

  /** The extensions field splits back into the digests; no extensions give `[""]`. */
  lemma ExtensionsField(es: seq<string>, h: Hasher)
    ensures Split(Join(HashExtensions(es, h), "_"), "_") == if |es| == 0 then [""] else HashExtensions(es, h)
    ensures '.' !in Join(HashExtensions(es, h), "_")
  {
    var he := HashExtensions(es, h);
    forall i | 0 <= i < |he| ensures '_' !in he[i] && '.' !in he[i] {
      DigestChars(h(es[i]), '_');
      DigestChars(h(es[i]), '.');
    }
    JoinChars(he, "_", '.');
    if |es| == 0 {
      assert Split("", "_") == [""];
    } else {
      SplitJoin(he, "_");
    }
  }

  /**
   * A generated token has exactly five `.`-separated fields: the prefix
   * `s1`, the hashed IP, the triples joined by `||`, the extension digests
   * joined by `_` and the random suffix (which must itself hold no `.`).
   */
  lemma TokenFields(ip: string, ua: ParsedUserAgent, random: string, h: Hasher)
    requires '.' !in random
    ensures Split(GenerateBrowserSession(ip, ua, random, h), ".")
         == [VersionPrefix, h(ip), Join(HashPlatforms(ua.platforms, h), "||"),
             Join(HashExtensions(ua.extensions, h), "_"), random]
  {
    var fields := [VersionPrefix, h(ip), Join(HashPlatforms(ua.platforms, h), "||"),
                   Join(HashExtensions(ua.extensions, h), "_"), random];
    forall i | 0 <= i < |fields|
      ensures '.' !in fields[i]
    {
      if i == 1 {
        DigestChars(h(ip), '.');
      } else if i == 2 {
        PlatformsField(ua.platforms, h);
      } else if i == 3 {
        ExtensionsField(ua.extensions, h);
      }
    }
    SplitJoin(fields, ".");
  }

  /**
   * Round trip: decoding a generated token succeeds and returns the prefix,
   * the hashed IP, the hashed platform triples in order, the extension
   * digests in order (an empty extension list comes back as `[""]`) and the
   * random suffix.
   */
  lemma RoundTrip(ip: string, ua: ParsedUserAgent, random: string, h: Hasher)
    requires '.' !in random
    ensures ParseBrowserCookie(GenerateBrowserSession(ip, ua, random, h))
         == Ok(ParsedCookie(VersionPrefix, h(ip), HashedTriples(ua.platforms, h),
                            if |ua.extensions| == 0 then [""] else HashExtensions(ua.extensions, h),
                            random))
  {
    TokenFields(ip, ua, random, h);
    PlatformsField(ua.platforms, h);
    ExtensionsField(ua.extensions, h);
  }
}
