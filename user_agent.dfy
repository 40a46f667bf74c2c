/**
 * The User-Agent header as the session code sees it: a list of platform
 * descriptors (`name/version details`, each closed by `)`), followed by an
 * optional trailing blob of space-separated extension tokens.
 */
module UserAgent {
  import opened Strings

  /** One `name/version details` descriptor. */
  datatype Platform = Platform(name: string, version: string, details: string)

  datatype ParsedUserAgent = ParsedUserAgent(platforms: seq<Platform>, extensions: seq<string>)

  /**
   * What the platform scanner produces: `name` is the text before the first
   * `/`, `version` the text from there up to the next space, `details`
   * everything after that space, further `/` and spaces included.
   */
  function PlatformOf(s: string): (p: Platform)
    ensures '/' !in p.name && ' ' !in p.version
    ensures '/' !in s ==> p == Platform(s, "", "")
    ensures '/' in s && ' ' !in After(s, '/') ==> p.name + "/" + p.version == s && p.details == ""
    ensures '/' in s && ' ' in After(s, '/') ==> p.name + "/" + p.version + " " + p.details == s
  {
    var name, rest := Before(s, '/'), After(s, '/');
    var version, details := Before(rest, ' '), After(rest, ' ');
    assert '/' in s ==> name + "/" + rest == s;
    assert ' ' in rest ==> version + " " + details == rest;
    assert name + "/" + version + " " + details == name + "/" + (version + " " + details);
    Platform(name, version, details)
  }

  /**
   * What the scanner's variables hold after reading `seen`: the three
   * fields so far, and flags saying whether a `/` has been seen yet and,
   * after it, whether a space has.
   */
  predicate Scanned(seen: string, name: string, version: string, details: string,
                    isParsingPlatform: bool, isParsingVersion: bool, isParsingDetails: bool)
  {
    var rest := After(seen, '/');
    && name == Before(seen, '/')
    && version == Before(rest, ' ')
    && details == After(rest, ' ')
    && (isParsingPlatform <==> '/' !in seen)
    && (isParsingVersion <==> '/' in seen && ' ' !in rest)
    && (isParsingDetails <==> '/' in seen && ' ' in rest)
  }

  /** Before the first `/`: a `/` switches to the version, anything else extends the name. */
  lemma ScanNameChar(platform: string, k: nat, name: string, version: string, details: string)
    requires k < |platform| && Scanned(platform[..k], name, version, details, true, false, false)
    ensures platform[k] == '/' ==> Scanned(platform[..k + 1], name, version, details, false, true, false)
    ensures platform[k] != '/' ==> Scanned(platform[..k + 1], name + [platform[k]], version, details, true, false, false)
  {
    assert platform[..k + 1] == platform[..k] + [platform[k]];
    SnocFirst(platform[..k], platform[k], '/');
  }

  /** After the `/`, before a space: a space switches to the details, anything else extends the version. */
  lemma ScanVersionChar(platform: string, k: nat, name: string, version: string, details: string)
    requires k < |platform| && Scanned(platform[..k], name, version, details, false, true, false)
    ensures platform[k] == ' ' ==> Scanned(platform[..k + 1], name, version, details, false, false, true)
    ensures platform[k] != ' ' ==> Scanned(platform[..k + 1], name, version + [platform[k]], details, false, true, false)
  {
    assert platform[..k + 1] == platform[..k] + [platform[k]];
    SnocAfter(platform[..k], platform[k], '/');
    SnocFirst(After(platform[..k], '/'), platform[k], ' ');
  }

  /** In the details every character, `/` and space included, is appended. */
  lemma ScanDetailsChar(platform: string, k: nat, name: string, version: string, details: string)
    requires k < |platform| && Scanned(platform[..k], name, version, details, false, false, true)
    ensures Scanned(platform[..k + 1], name, version, details + [platform[k]], false, false, true)
  {
    assert platform[..k + 1] == platform[..k] + [platform[k]];
    SnocAfter(platform[..k], platform[k], '/');
    SnocAfter(After(platform[..k], '/'), platform[k], ' ');
  }

  /** The character scanner with its three mode flags. */
  method ParsePlatform(platform: string) returns (p: Platform)
    ensures p == PlatformOf(platform)
  {
    var name, version, details := "", "", "";
    var isParsingPlatform, isParsingVersion, isParsingDetails := true, false, false;
    for k := 0 to |platform|
      invariant Scanned(platform[..k], name, version, details,
                        isParsingPlatform, isParsingVersion, isParsingDetails)
    {
      var c := platform[k];
      if isParsingPlatform {
        ScanNameChar(platform, k, name, version, details);
        if c == '/' {
          isParsingPlatform := false;
          isParsingVersion := true;
        } else {
          name := name + [c];
        }
      } else if isParsingVersion {
        ScanVersionChar(platform, k, name, version, details);
        if c == ' ' {
          isParsingVersion := false;
          isParsingDetails := true;
        } else {
          version := version + [c];
        }
      } else if isParsingDetails {
        ScanDetailsChar(platform, k, name, version, details);
        details := details + [c];
      } else {
        assert false;
      }
    }
    assert platform[..|platform|] == platform;
    p := Platform(name, version, details);
  }

  /** No piece holds a space. */
  predicate SpacePieces(pieces: seq<string>) {
    forall i :: 0 <= i < |pieces| ==> ' ' !in pieces[i]
  }

  /**
   * `tokens` are the non-empty pieces, in order, of the split of `segment`
   * at every space: the pieces joined by single spaces give back the
   * segment (such pieces are unique, see `SplitJoin`).
   */
  ghost predicate SpaceTokens(segment: string, tokens: seq<string>) {
    exists pieces :: Join(pieces, " ") == segment && SpacePieces(pieces) && tokens == NonEmpty(pieces)
  }

  /** The tokens are determined by the segment: they are the non-empty pieces of `split(' ')`. */
  lemma SpaceTokensOfSplit(segment: string, tokens: seq<string>)
    requires SpaceTokens(segment, tokens)
    ensures tokens == NonEmpty(Split(segment, " "))
  {
    var pieces :| Join(pieces, " ") == segment && SpacePieces(pieces) && tokens == NonEmpty(pieces);
    if |pieces| == 0 {
      assert segment == "";
      assert Split(segment, " ") == [""];
    } else {
      SplitJoin(pieces, " ");
    }
  }

  /**
   * Peels the extensions off the segment list. When the last segment does
   * not end with `)` it is removed and its non-empty space-separated tokens
   * are the extensions; otherwise nothing is removed and there are none.
   * Returns the remaining segments together with the extensions.
   */
  function ParseExtensions(segments: seq<string>): (r: (seq<string>, seq<string>))
    requires |segments| > 0
    ensures var last := segments[|segments| - 1];
      && (EndsWith(last, ')') ==> r == (segments, []))
      && (!EndsWith(last, ')') ==>
            && r.0 == segments[..|segments| - 1]
            && Concat(r.1) == Remove(last, ' ')
            && (forall i :: 0 <= i < |r.1| ==> |r.1[i]| > 0 && ' ' !in r.1[i])
            && SpaceTokens(last, r.1))
  {
    var last := segments[|segments| - 1];
    if !EndsWith(last, ')') then
      var pieces := Split(last, " ");
      SplitCharPieces(last, ' ');
      RemoveJoin(pieces, ' ');
      NonEmptySubset(pieces);
      assert forall x :: x in pieces ==> ' ' !in x;
      assert forall i :: 0 <= i < |NonEmpty(pieces)| ==> NonEmpty(pieces)[i] in pieces;
      assert Join(pieces, " ") == last && SpacePieces(pieces);
      (segments[..|segments| - 1], NonEmpty(pieces))
    else
      (segments, [])
  }

  /**
   * `parse_user_agent`: cut the header after every `)`, peel the extensions
   * off the end and scan every remaining segment as a platform.
   */
  function ParseUserAgent(userAgent: string): (r: ParsedUserAgent)
    ensures userAgent == "" ==> r == ParsedUserAgent([], [])
    ensures |r.platforms| == Count(userAgent, ')')
    ensures var segments := SplitInclusive(userAgent, ')');
      |segments| > 0 ==>
        var last := segments[|segments| - 1];
        && (EndsWith(last, ')') ==> r.extensions == [])
        && (!EndsWith(last, ')') ==> SpaceTokens(last, r.extensions))
  {
    var segments := SplitInclusive(userAgent, ')');
    if |segments| == 0 then ParsedUserAgent([], [])
    else
      SplitInclusiveCount(userAgent, ')');
      var (rest, extensions) := ParseExtensions(segments);
      ParsedUserAgent(seq(|rest|, i requires 0 <= i < |rest| => PlatformOf(rest[i])), extensions)
  }

  /**
   * Every platform comes from a segment that ends with `)` and has no other
   * `)`: the i-th platform is the scan of the i-th segment of the header.
   */
  lemma PlatformSegments(userAgent: string)
    ensures var segments := SplitInclusive(userAgent, ')');
      var r := ParseUserAgent(userAgent);
      && |r.platforms| <= |segments|
      && forall i :: 0 <= i < |r.platforms| ==>
           && EndsWith(segments[i], ')')
           && ')' !in segments[i][..|segments[i]| - 1]
           && r.platforms[i] == PlatformOf(segments[i])
  {
    var segments := SplitInclusive(userAgent, ')');
    SplitInclusiveEnds(userAgent, ')');
    SplitInclusiveInner(userAgent, ')');
    if |segments| > 0 {
      var (rest, extensions) := ParseExtensions(segments);
      var r := ParseUserAgent(userAgent);
      assert r.platforms == seq(|rest|, i requires 0 <= i < |rest| => PlatformOf(rest[i]));
      forall i | 0 <= i < |rest|
        ensures rest[i] == segments[i] && EndsWith(segments[i], ')')
      {
        if EndsWith(segments[|segments| - 1], ')') {
          assert rest == segments;
        } else {
          assert rest == segments[..|segments| - 1];
        }
      }
    }
  }
}
