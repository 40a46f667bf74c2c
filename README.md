# Session authentication of the Xiler accounts service, in Dafny

This project models the session-authentication core of the Xiler accounts
REST service and proves properties of that model.

## What is modelled

- **Session token.** At login the service issues a token of the form
  `s1.<h(ip)>.<h(name)-h(version)-h(details)||…>.<h(ext)_…>.<random>`.
  It is built from the client's IP address and parsed User-Agent header,
  and it is stored in the session store under the account id.
- **Gate.** Every protected request passes through a gate. The gate:
  1. looks the cookie up;
  2. for `s1` tokens, re-parses the fingerprint hashed into the token and
     scores it against the request that presents it;
  3. deletes the session when the score is 0.6 or lower (cookie theft);
  4. otherwise attaches the owning account to the request.
- **Endpoints behind the gate.** They edit the account's authentication
  method map (tags are meant to be powers of two; the last method can never
  be removed), verify the email, and log in.

Modules, one per file, following the program's structure:

| file | module | models |
|---|---|---|
| `wrappers.dfy` | `Wrappers` | `Option`, `Result` |
| `strings.dfy` | `Strings` | Rust's `split`, `split_inclusive`, `join`, `starts_with`, `ends_with` on `seq<char>` |
| `user_agent.dfy` | `UserAgent` | `src/structs/user_agent.rs`; `parse_platform`, `parse_extensions`, `parse_user_agent` |
| `cookie.dfy` | `Cookie` | `src/structs/cookie.rs`; `parse_browser_cookie` |
| `http.dfy` | `Http` | the error responses used by the core |
| `sessions.dfy` | `Sessions` | `src/util/sessions.rs`, and the round trip with `parse_browser_cookie` |
| `math.dfy` | `Math` | `src/util/math.rs` at type `i16`, with bitwise `\|`/`&` on 16-bit patterns |
| `accounts.dfy` | `Accounts` | `src/structs/user.rs`: `FullUser`, `User`, `to_user` |
| `store.dfy` | `Store` | `src/util/data/providers/in_memory.rs` as a class, plus the store operations the endpoints and the gate call |
| `gate.dfy` | `Gate` | `AuthenticatedMiddleware::call` in `src/middleware/authenticated.rs` |
| `endpoints.dfy` | `Endpoints` | `src/endpoints/authentication.rs`, `verify.rs` and `login.rs` |

Parameters stand in for what the model cannot see:
- `h: Hasher` is the xxHash digest, rendered as a non-empty decimal string.
- `random` is the 32-character random suffix.
- `ip` is the peer address.
- `userAgent: Option<string>` is the User-Agent header.
- `passwordMatches` is argon2's `verify_encoded`.
- `passwordMethod` is the password tag; `ttl` is the session lifetime.
- `failure` flags stand for database driver errors.

The account store and the session store are one `InMemoryDataProvider`
object with two maps, `users` and `sessions`. The in-memory provider does
not implement every operation the core needs. The missing ones take their
meaning from the database queries: verification clears the token
(`src/util/data/providers/scylla.rs:82`), an update sets one map entry
(:85), a removal deletes one map entry (:86). Session `delete` and
`drop_all` remove keys (`src/util/data/providers/firefly.rs:37-43`).

Two behaviours of the code the model keeps as they are:
- A storage failure answers 500 with the store's own message as the body,
  for example "Could not remove authentication method!"
  (`src/endpoints/authentication.rs:31`, `:48`, `:78`;
  `src/endpoints/verify.rs:44`).
- A duplicate username or email is only an error string from the provider
  (`src/util/data/providers/in_memory.rs:45`, `:47`). No endpoint turns it
  into an HTTP status: `register.rs` is a stub.

## Model

| member | source | states |
|---|---|---|
| UserAgent.PlatformOf | src/util/parse.rs:6-40 | name holds no `/` and version no space; no `/` gives `(s, "", "")`; with both separators `name + "/" + version + " " + details` rebuilds the input, with only `/` `name + "/" + version` does |
| UserAgent.ScanNameChar | src/util/parse.rs:16-22 | before the first `/`: a `/` switches the flags to the version and keeps the fields, any other character is appended to the name; either way the variables describe the longer prefix |
| UserAgent.ScanVersionChar | src/util/parse.rs:23-29 | after the `/` and before a space: a space switches the flags to the details, any other character is appended to the version |
| UserAgent.ScanDetailsChar | src/util/parse.rs:30-32 | in the details every character, `/` and space included, is appended |
| UserAgent.ParsePlatform | src/util/parse.rs:6-40 | the character loop with three mode flags computes exactly `PlatformOf(platform)` |
| UserAgent.ParseExtensions | src/util/parse.rs:42-53 | last segment ending in `)`: nothing removed, no extensions; otherwise that segment is removed and the extensions are exactly the non-empty pieces, in order, of splitting it at every space (their concatenation is the segment without spaces) |
| UserAgent.SpaceTokensOfSplit | src/util/parse.rs:47-50 | the tokens so described are unique: they equal the non-empty pieces of `split(' ')` of the segment |
| UserAgent.ParseUserAgent | src/util/parse.rs:55-72 | the empty header gives no platforms and no extensions; the number of platforms equals the number of `)` in the header; the extensions are none when the last `split_inclusive` segment ends with `)`, and otherwise the non-empty space-separated pieces of that segment |
| UserAgent.PlatformSegments | src/util/parse.rs:56-66 | the i-th platform is the scan of the i-th `)`-terminated segment, which holds no other `)` |
| Cookie.Triple | src/util/parse.rs:86-98 | an entry gives a platform iff it has exactly three `-` parts, and the platform's fields joined by `-` rebuild the entry |
| Cookie.KeepTriples | src/util/parse.rs:84-99 | the `filter_map` never yields more platforms than entries |
| Cookie.KeepTriplesMembers | src/util/parse.rs:84-99 | every kept platform comes from an entry with three `-` parts, and every such entry yields its platform |
| Cookie.KeepTriplesAppend | src/util/parse.rs:84-99 | the filter keeps the order: the triples of `xs + ys` are those of xs followed by those of ys |
| Cookie.KeepTriplesSingle | src/util/parse.rs:86-92 | an entry without three `-` parts is dropped, not an error |
| Cookie.ParseBrowserCookie | src/util/parse.rs:76-110 | `Err("Invalid cookie")` iff the token does not have exactly five `.` fields; otherwise prefix, ip and random are fields 0, 1 and 4 verbatim, platforms are the `filter_map` of field 2 split on `\|\|`, extensions are field 3 split on `_`, and the fields rebuild the token |
| Cookie.EmptyExtensionsField | src/util/parse.rs:101 | an empty extensions field decodes to `[""]` |
| Sessions.GenerateBrowserSession | src/util/sessions.rs:10-40 | every generated token starts with `s1`, so it always takes the fingerprint branch of the gate |
| Sessions.CreateBrowserSession | src/util/sessions.rs:42-55 | an error iff the User-Agent header is absent, and then BadRequest "No user agent present"; otherwise the token generated from the parsed header |
| Sessions.TokenFields | src/util/sessions.rs:32-39 | with a `.`-free random suffix the token splits into exactly the five fields: `s1`, `h(ip)`, the triples joined by `\|\|`, the extension digests joined by `_`, the suffix |
| Sessions.PlatformsField | src/util/sessions.rs:13-24 | the third field decodes back to the hashed triples in order, including no platforms |
| Sessions.ExtensionsField | src/util/sessions.rs:26-30 | the fourth field splits back into the extension digests in order; no extensions come back as `[""]` |
| Sessions.RoundTrip | src/util/sessions.rs:32-39 | parsing a generated token succeeds with prefix `s1`, ip `h(ip)`, the hashed triples, the hashed extensions (empty as `[""]`) and the random suffix |
| Math.HasOr | src/structs/user.rs:69 | a bit of `a \| b` is set iff it is set in a or in b |
| Math.HasAnd | src/util/math.rs:7 | a bit of `a & b` is set iff it is set in both |
| Math.ClearLowestBit | src/util/math.rs:7 | for positive n, `n & (n - 1) == 0` iff n is a power of two |
| Math.IsPow2Sound | src/util/math.rs:7 | a number passing the halving test is 2^k for some k |
| Math.IsPow2Complete | src/util/math.rs:7 | every 2^k passes the halving test |
| Math.IsPow2Exactly | src/util/math.rs:7 | the halving test holds iff n is 2^k for some k |
| Math.WrappingDec | src/util/math.rs:7 | `x - 1` in a release build: the 16-bit pattern of the result is that of x minus one modulo 2^16 |
| Math.IsPowerOfTwoAsWritten | src/util/math.rs:3-7 | `x != 0 && x & (x - 1) == 0` on the 16-bit patterns with wrapping `x - 1`; for positive x it holds iff x passes the halving test |
| Math.AsWrittenAcceptsMinimum | src/util/math.rs:7 | `i16::MIN` passes the test as written |
| Math.IsPowerOfTwo | src/util/math.rs:7 | the intended test, a positive power of two, defined by halving and not by bit patterns; whatever it accepts the written test accepts too |
| Math.PositiveIsPow2 | src/util/math.rs:7 | a positive i16 passes the halving test iff it is 2^k, and then k < 15 |
| Math.CorrectedAgreesElsewhere | src/util/math.rs:7 | the two tests, defined independently, agree on every i16 except `i16::MIN`, which the written test accepts and the intended one rejects |
| Math.PositivePowerOfTwo | src/util/math.rs:7 | a positive i16 passes iff it is 2^k, and then k < 15; so 1 is accepted |
| Math.NegativeNotPowerOfTwo | src/util/math.rs:7 | every negative i16 other than `i16::MIN` is rejected |
| Math.IsPowerOfTwoIff | src/util/math.rs:7 | the corrected test accepts exactly 2^0 … 2^14; 0 and all negative values are rejected |
| Math.AndPow2 | src/util/math.rs:7 | a pattern meets 2^k under `&` iff it has bit k |
| Accounts.OrFold | src/structs/user.rs:69 | the fold of the tags' patterns under `\|` stays a 16-bit pattern |
| Accounts.OrFoldHas | src/structs/user.rs:69 | the fold sets exactly the bits set by some key |
| Accounts.OrderIrrelevant | src/structs/user.rs:69 | any two key orders (with or without repeats) give the same mask |
| Accounts.AsUsize | src/structs/user.rs:67 | `as usize` on a 64-bit target: the residue modulo 2^64, unchanged when in range |
| Accounts.ToUser | src/structs/user.rs:61-72 | id, username, email and roles carried over; creation time is the whole seconds cast to `usize`; verified iff no token is pending; an empty map gives 0; bit j of the mask is set iff some key sets it; with power-of-two keys, tag t meets the mask iff t is a key |
| Accounts.MaskFacts | src/structs/user.rs:54-57 | the mask facts for a map and an iteration order: 0 for an empty map, the set bits, and membership for power-of-two keys (a key 0 sets no bit) |
| Accounts.ToUserOrderIrrelevant | src/structs/user.rs:69 | the user view does not depend on the map's iteration order |
| Accounts.MinimumTagNegativeMask | src/structs/user.rs:61-72 | a method map holding `i16::MIN` is not all powers of two, and the mask `to_user` reports has its sign bit set, so it is negative |
| Store.WithAuthentication | src/util/data/providers/scylla.rs:85-86 | only the one account's method map changes; every other account and every id stays |
| Store.InMemoryDataProvider.constructor | src/util/data/providers/in_memory.rs:21-26 | both maps empty and the uniqueness invariant holds; no key has a session |
| Store.InMemoryDataProvider.DoesUsernameExist | src/util/data/providers/in_memory.rs:31-35 | true iff some stored account has the username |
| Store.InMemoryDataProvider.DoesEmailExist | src/util/data/providers/in_memory.rs:37-41 | true iff some stored account has the email |
| Store.InMemoryDataProvider.RegisterUser | src/util/data/providers/in_memory.rs:43-52 | a taken username gives "User already exists", checked first; a taken email gives "Email already exists"; both leave accounts unchanged; otherwise the account is filed under its id (overwriting) and both names then exist; uniqueness of usernames and emails is preserved |
| Store.InMemoryDataProvider.GetUserById | src/util/data/providers/in_memory.rs:54-57 | some iff the id is stored, and then that account |
| Store.InMemoryDataProvider.DeleteUser | src/util/data/providers/in_memory.rs:59-68 | an unknown id gives "User does not exist" and no change; a known id is removed and nothing else |
| Store.InMemoryDataProvider.GetUserByUsername | src/util/data/providers/scylla.rs:76 | some iff the username exists, then an account with it; with unique usernames it is the only one |
| Store.InMemoryDataProvider.GetUserByEmail | src/util/data/providers/scylla.rs:80 | some iff the email exists, then an account with it; with unique emails it is the only one |
| Store.InMemoryDataProvider.VerifyUser | src/util/data/providers/scylla.rs:82 | on success the account's verification token is cleared and nothing else changes; a driver error gives "Could not verify user!" and no change |
| Store.InMemoryDataProvider.GetAuthenticationMethods | src/util/data/providers/scylla.rs:221-240 | the tags of the account's method map; an error on a driver error or an unknown account |
| Store.InMemoryDataProvider.UpdateAuthenticationMethodValue | src/util/data/providers/scylla.rs:85 | sets the one entry `authentication[tag] = value`; other entries and accounts unchanged |
| Store.InMemoryDataProvider.RemoveAuthenticationMethod | src/util/data/providers/scylla.rs:86 | deletes the one entry `authentication[tag]`; other entries and accounts unchanged |
| Store.InMemoryDataProvider.Get | src/util/data/providers/in_memory.rs:73-75 | some iff the key is stored, then its value |
| Store.InMemoryDataProvider.Set | src/util/data/providers/in_memory.rs:77-80 | always true; afterwards the key maps to the value, overwriting, and every other key reads as before |
| Store.InMemoryDataProvider.Delete | src/util/data/providers/firefly.rs:37-39 | removes exactly that key |
| Store.InMemoryDataProvider.DropAll | src/util/data/providers/firefly.rs:41-43 | removes exactly the keys whose value is the owner; no key of that owner remains |
| Gate.PlatformMismatch | src/middleware/authenticated.rs:157-173 | at most 3, and 0 iff every field digest equals the hash of the received field |
| Gate.PlatformMismatches | src/middleware/authenticated.rs:157-173 | at most 3 per zipped pair, and 0 iff every zipped pair matches |
| Gate.ExtensionMismatches | src/middleware/authenticated.rs:175-183 | at most one per zipped pair, and 0 iff every zipped extension matches its hash |
| Gate.Mismatches | src/middleware/authenticated.rs:153-183 | the mismatch count never exceeds the number of signals `1 + 3P + E` |
| Gate.DeductIf | src/middleware/authenticated.rs:153-155 | one penalty is subtracted exactly when there is a mismatch, and the mismatch is counted |
| Gate.DeductPlatforms | src/middleware/authenticated.rs:157-173 | the platform loop subtracts one penalty per mismatching field of the zipped pairs |
| Gate.DeductExtensions | src/middleware/authenticated.rs:175-183 | the extension loop subtracts one penalty per mismatching zipped pair |
| Gate.DeductedIsProduct | src/middleware/authenticated.rs:145-183 | subtracting the penalty k times lowers the probability by k times the penalty |
| Gate.DeductedScore | src/middleware/authenticated.rs:145-183 | k subtractions from 1.0 give the score of k mismatches |
| Gate.OwnerProbability | src/middleware/authenticated.rs:144-183 | the probability computed is `1 - k / (1 + 3P + E)` for the mismatch count k |
| Gate.AcceptIff | src/middleware/authenticated.rs:144-185 | the score exceeds 0.6 iff `5k < 2(1 + 3P + E)` |
| Gate.ScoreBounds | src/middleware/authenticated.rs:145-183 | the score never exceeds 1, is 1 iff nothing mismatches, and is at least 0 |
| Gate.ScoreMonotone | src/middleware/authenticated.rs:145-183 | more mismatches never raise the score |
| Gate.GateOutcome | src/middleware/authenticated.rs:72-224 | only 400, 401 and 410 responses; forwarding only with a stored cookie whose owner exists, and then with that owner; a detected theft always answers 410 |
| Gate.Authenticate | src/middleware/authenticated.rs:72-224 | the response follows the decision chain on the stores as they were; accounts never change; on a theft exactly the presented session is deleted, and otherwise no session is touched (not even for a dangling owner) |
| Gate.FreshTokenMatches | src/middleware/authenticated.rs:144-185 | a request with the same address and header as at issue has no mismatch, scores 1 and is accepted |
| Gate.OnlyIpChanged | src/middleware/authenticated.rs:153-185 | a changed IP alone is one mismatch, accepted iff the token has at least three signals |
| Gate.LegacyTokenIgnoresFingerprint | src/middleware/authenticated.rs:108-217 | a token without `s1` skips fingerprinting: the outcome is independent of header and address, it is never a theft, and a dangling owner gives 410 |
| Endpoints.RemoveAuthenticationMethod | src/endpoints/authentication.rs:19-53 | a tag failing the test as written is NotFound (so `i16::MIN` is not refused here); a read error or unknown account is 500; with one method left it is BadRequest whatever the tag; an absent tag is NotFound; a present tag is removed (500 on a write error); errors change nothing; an account keeps at least one method and keeps all-power-of-two tags |
| Endpoints.UpdateAuthenticationMethod | src/endpoints/authentication.rs:56-80 | a tag failing the test as written is BadRequest; otherwise exactly `authentication[tag] := value` (500 on a write error); every tag still passes the written test; a map of powers of two stays one for every tag but `i16::MIN`, and a successful update with `i16::MIN` breaks it |
| Endpoints.VerifyUser | src/endpoints/verify.rs:18-46 | an account with no pending token is BadRequest; a wrong code is Unauthorized, checked after that; both change nothing; the right code clears the token, so `to_user` then reads verified; a write error is 500 |
| Endpoints.LoginOutcome | src/endpoints/login.rs:40-59 | success iff the account has the password method, the password matches and a User-Agent is present, and then the token generated for this request with the TTL; no password method is BadRequest; a wrong password gives the unknown-account response |
| Endpoints.AddLogin | src/endpoints/login.rs:21-60 | the account is looked up by username, then by email; no account gives "Could not find match."; success files the returned token under the account's id; every error, including a missing User-Agent, stores nothing |
| Endpoints.LoginThenAuthenticate | src/endpoints/login.rs:54-59 | a successful login followed by a request with the same header and address passes the gate as that account, and no session is deleted |

## Left out

- Hashing: `xx_hash` and argon2 call other crates; they are the parameters `h` and `passwordMatches`. The model assumes only that a digest is a non-empty decimal string.
- Random suffix, peer address, `TTL` and `PASSWORD_AUTHENTICATION` are parameters. The constants module is not part of this model. The cookie name `xiler-session` is the one the account type declares for the API description at `src/structs/user.rs:44`.
- Gate.OwnerProbability: computed over exact reals. It does not model IEEE rounding of the repeated `-= penalty` near the 0.6 threshold.
- Concurrency, `async` and the `Mutex` locks around the stores are not modelled. Each request runs alone.
- Panics are not modelled. The model leaves out `Uuid::parse_str(..).unwrap()` in `get_user_by_id`, `peer_addr().unwrap()`, `to_str().unwrap()` on the header, and `verify_encoded(..).unwrap()` on a malformed hash. Account ids are the canonical text of their UUID.
- UserAgent.ParseExtensions: the source pops the caller's vector in place. The model returns the remaining segments and the extensions as a pair.
- Accounts.ToUser: the hash map's key order is the parameter `order`. Accounts.ToUserOrderIrrelevant shows that the result does not depend on it.
- Accounts.Duration keeps whole seconds only; sub-second parts are not modelled.
- Store: database driver errors are `failure` flags. Driver errors on the username and email lookups are not modelled; those lookups always answer from the map.
- Store.InMemoryDataProvider.UpdateAuthenticationMethodValue: the database's upsert on an absent id is not modelled; the model leaves the accounts unchanged then.
- Store.InMemoryDataProvider.RemoveAuthenticationMethod: the database's upsert on an absent id is not modelled; the model leaves the accounts unchanged then.
- Store.InMemoryDataProvider.VerifyUser: the database's upsert on an absent id is not modelled; the model leaves the accounts unchanged then.
- Endpoints.AddLogin: the session store's `set` result is ignored, as in the source. The ensures names the account the lookup can return, and ties the result to it in full only when usernames and emails are unique (the store's `Valid()`).
- The thin endpoints are not modelled: `register.rs` is a stub, and `delete.rs`, `logout.rs` and `get.rs` are one call to a store operation or to `to_user`, which are modelled. Framework plumbing (actix, paperclip, route tables, the `FromRequest` impls) and the storage trait declarations are not modelled either.
- The database backend and the remote session store are not modelled. Only their query strings and operations give meaning to the store operations above.

## Findings

| source | as written | input that shows it | evidently intended | confidence | as-written member | corrected member |
|---|---|---|---|---|---|---|
| src/util/math.rs:7 | `x != 0 && x & (x - 1) == 0` at `i16`; in a release build `i16::MIN - 1` wraps to `i16::MAX` | `is_power_of_two::<i16>(-32768)`: pattern `0x8000 & 0x7FFF == 0`, so the tag is accepted (a debug build panics instead) | only positive powers of two 2^0 … 2^14 are method tags; the endpoints at `src/endpoints/authentication.rs:24` and `:62` let `i16::MIN` through, and storing it makes the user's `authentication` mask negative | not executed | Math.AsWrittenAcceptsMinimum | Math.IsPowerOfTwoIff |
