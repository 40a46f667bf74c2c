/**
 * Decoding of the browser session token
 * `prefix.ip.name-version-details||...||name-version-details.ext_..._ext.random`.
 */
module Cookie {
  import opened Wrappers
  import opened Strings
  import opened UserAgent

  /** The decoded token. Its platform fields hold hashes, not the raw text. */
  datatype ParsedCookie = ParsedCookie(
    prefix: string,
    ip: string,
    platforms: seq<Platform>,
    extensions: seq<string>,
    random: string)

  const InvalidCookie := "Invalid cookie"

  /** One `||`-separated platform entry: kept only when it has exactly three `-` parts. */
  function Triple(entry: string): (r: Option<Platform>)
    ensures r.Some? <==> |Split(entry, "-")| == 3
    ensures r.Some? ==> entry == r.value.name + "-" + r.value.version + "-" + r.value.details
  {
    var parts := Split(entry, "-");
    if |parts| != 3 then None
    else
      assert parts == [parts[0], parts[1], parts[2]];
      JoinThree(parts[0], parts[1], parts[2], "-");
      Some(Platform(parts[0], parts[1], parts[2]))
  }

  /** `filter_map` of `Triple` over the entries: malformed entries are dropped. */
  function KeepTriples(entries: seq<string>): (r: seq<Platform>)
    ensures |r| <= |entries|
    decreases |entries|
  {
    if |entries| == 0 then []
    else
      var rest := KeepTriples(entries[1..]);
      match Triple(entries[0])
      case Some(p) => [p] + rest
      case None => rest
  }

  /**
   * The kept platforms are exactly the well-formed entries: each one comes
   * from some entry, and every entry with three parts yields one.
   */
  lemma {:induction false} KeepTriplesMembers(entries: seq<string>)
    ensures forall p :: p in KeepTriples(entries) ==> exists e :: e in entries && Triple(e) == Some(p)
    ensures forall e :: e in entries && Triple(e).Some? ==> Triple(e).value in KeepTriples(entries)
    decreases |entries|
  {
    if |entries| > 0 {
      var rest := entries[1..];
      KeepTriplesMembers(rest);
      forall e | e in entries
        ensures e != entries[0] ==> e in rest
      {
      }
      forall p | p in KeepTriples(entries)
        ensures exists e :: e in entries && Triple(e) == Some(p)
      {
        if Triple(entries[0]).Some? && p == Triple(entries[0]).value {
          assert entries[0] in entries;
        } else {
          assert p in KeepTriples(rest);
          var e :| e in rest && Triple(e) == Some(p);
          assert e in entries;
        }
      }
    }
  }

  /** Dropping malformed entries keeps the order: it distributes over concatenation. */
  lemma {:induction false} KeepTriplesAppend(xs: seq<string>, ys: seq<string>)
    ensures KeepTriples(xs + ys) == KeepTriples(xs) + KeepTriples(ys)
    decreases |xs|
  {
    if |xs| == 0 {
      assert xs + ys == ys;
    } else {
      assert (xs + ys)[1..] == xs[1..] + ys;
      KeepTriplesAppend(xs[1..], ys);
    }
  }

  /** A single entry is kept as its three parts or dropped; nothing else can happen. */
  lemma KeepTriplesSingle(entry: string)
    ensures KeepTriples([entry]) == if |Split(entry, "-")| == 3 then [Triple(entry).value] else []
  {
    assert [entry][1..] == [];
  }

  /** `parse_browser_cookie`: five `.`-separated fields, or the error "Invalid cookie". */
  function ParseBrowserCookie(cookie: string): (r: Result<ParsedCookie, string>)
    ensures r.Err? <==> |Split(cookie, ".")| != 5
    ensures r.Err? ==> r.error == InvalidCookie
    ensures r.Ok? ==> var c := r.value;
      && '.' !in c.prefix && '.' !in c.ip && '.' !in c.random
      && |c.extensions| >= 1
      && cookie == c.prefix + "." + c.ip + "." + Split(cookie, ".")[2] + "."
                   + Join(c.extensions, "_") + "." + c.random
      && c.extensions == Split(Split(cookie, ".")[3], "_")
      && c.platforms == KeepTriples(Split(Split(cookie, ".")[2], "||"))
  {
    var fields := Split(cookie, ".");
    if |fields| != 5 then Err(InvalidCookie)
    else
      SplitCharPieces(cookie, '.');
      assert fields == [fields[0], fields[1], fields[2], fields[3], fields[4]];
      JoinFive(fields[0], fields[1], fields[2], fields[3], fields[4], ".");
      Ok(ParsedCookie(fields[0], fields[1], KeepTriples(Split(fields[2], "||")),
                      Split(fields[3], "_"), fields[4]))
  }

  /** An empty extensions field decodes to the one-element list `[""]`, not to `[]`. */
  lemma EmptyExtensionsField(cookie: string)
    requires ParseBrowserCookie(cookie).Ok? && Split(cookie, ".")[3] == ""
    ensures ParseBrowserCookie(cookie).value.extensions == [""]
  {
  }
}
