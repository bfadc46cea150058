# nextjs-starter: avatar initials and API-query keys

This project models the two pieces of real logic in the starter's
authentication and data-fetching UI code.

- **Avatar initials** (`UserMenu`, `user_menu.dfy`). The user menu shows a
  fallback text in the avatar. It is derived from the session's user record.
  The name is split on spaces. The first character of each piece is taken,
  and an empty piece gives nothing. The characters are joined, upper-cased, and
  cut to two. If the name is absent or empty, the upper-cased first character
  of the email is used. If there is no user, the result is `undefined`. If the
  name is falsy and the email is empty, `email[0]` is `undefined`, so reading
  `.toUpperCase` on it throws a `TypeError`. The model returns that throw as a
  result instead of forbidding the input. A name made only of spaces is
  truthy, so the email is not used, and the initials are the empty string.
- **API-query keys** (`ApiQuery`, `api_query.dfy`). `useApiQuery` takes a
  string or an array of strings and turns it into a list of segments. That
  list is the cache identity given to the query library. The same list,
  joined with `/` under `/api/`, is the URL string passed to `fetch`
  (called the request path below). A response with a
  failing status makes the query function throw `Error("Failed to fetch data
  for " + joined key)`. A successful response returns the parsed body
  unchanged. The query library then settles to success or error.
- `Strings` (`strings.dfy`) models the built-ins these expressions call:
  `toUpperCase` restricted to ASCII, `split` on one character, `join`, and
  `slice(0, n)`. It also proves that `split` is the unique separator-free cut
  that joins back to the string, which gives the path round trip.
- `Js` (`js.dfy`) holds `undefined` (`Option`), thrown errors (`JsError`) and
  normal-or-throw results (`Completion`).

`fetch` is a parameter of `UseApiQuery`: a function from request path to
an abstract response `{ok, body}`, where `body` stands for what
`response.json()` parsed.

The request path always carries the `/api/` prefix: `["widgets","42"]`
requests `/api/widgets/42` (`WidgetsPath`). An empty key list is not
rejected; it requests the bare `/api/` (`DegenerateKeys`).

## Model

| member | source | states |
|---|---|---|
| `Strings.UpperChar` | src/auth/components/user-menu.tsx:30 | the result is never an ASCII lower-case letter; `a`-`z` map to the matching `A`-`Z`, and every other character is kept |
| `Strings.Upper` | src/auth/components/user-menu.tsx:30 | `toUpperCase` keeps the length, upper-cases each character in place, and leaves no lower-case letter |
| `Strings.Prefix` | src/auth/components/user-menu.tsx:31 | `slice(0, n)` is a prefix of the string of length `min(n, length)` |
| `Strings.Split` | src/auth/components/user-menu.tsx:27 | `split(sep)` gives at least one piece, no piece contains the separator, and joining the pieces with the separator gives the string back |
| `Strings.Join` | src/ui/hooks/use-api-query.ts:8 | `join(sep)` of no parts is empty, of one part is that part, and otherwise starts with the first part; `Split` inverts it (`SplitJoin`, `PathRoundTrip`) |
| `Strings.SplitUnique` | src/ui/hooks/use-api-query.ts:8 | two non-empty lists of separator-free pieces with the same join are equal |
| `Strings.SplitJoin` | src/ui/hooks/use-api-query.ts:8 | splitting the join of a non-empty list of separator-free parts gives the parts back |
| `Strings.SplitAtFirst` | src/auth/components/user-menu.tsx:27 | the first piece of a split runs up to the first separator; the rest is the split of what follows it |
| `UserMenu.HasName` | src/auth/components/user-menu.tsx:25 | `user.name` is falsy exactly when it is `undefined` or the empty string |
| `UserMenu.FirstChar` | src/auth/components/user-menu.tsx:28 | `n[0]` is `undefined` exactly for the empty piece, and otherwise the piece's first character |
| `UserMenu.Render` | src/auth/components/user-menu.tsx:29 | `join` renders `undefined` as the empty string and a character as itself |
| `UserMenu.RenderedFirstChars` | src/auth/components/user-menu.tsx:28 | `map((n) => n[0])` keeps one element per piece, each the piece's `n[0]` as `join` renders it |
| `UserMenu.JoinedFirstChars` | src/auth/components/user-menu.tsx:28-29 | `map((n) => n[0]).join("")` is the first character of each non-empty piece, in order; empty pieces add nothing |
| `UserMenu.NameInitials` | src/auth/components/user-menu.tsx:26-31 | the truthy-name branch gives the upper-cased first letters of the first two words of the name, in order: at most 2 characters, none lower-case |
| `UserMenu.Initials` | src/auth/components/user-menu.tsx:25-32 | no user gives `undefined` and only then; it throws, with a `TypeError`, exactly when the name is falsy and the email is empty; otherwise the initials have at most 2 characters, none lower-case; a falsy name with a non-empty email gives the upper-cased first email character |
| `UserMenu.Words` | src/auth/components/user-menu.tsx:27 | the reference reading of a name: its words are non-empty and contain no space; `WordsKeepNonSpaces` ties them back to the name |
| `UserMenu.NonEmptyPiecesAreWords` | src/auth/components/user-menu.tsx:27 | the non-empty pieces of `name.split(" ")` are exactly the words of the name, in order |
| `UserMenu.WordsKeepNonSpaces` | src/auth/components/user-menu.tsx:27 | the words, concatenated, are the name with every space removed: no other character is lost or reordered |
| `UserMenu.JoinedFirstCharsAreLetters` | src/auth/components/user-menu.tsx:28-29 | joining the rendered first characters of the pieces with `""` gives the first letters of the non-empty pieces, in order |
| `UserMenu.InitialsFromWords` | src/auth/components/user-menu.tsx:25-31 | a truthy name gives the upper-cased first letters of its first two words, in order, so the length is `min(2, number of words)` |
| `UserMenu.SameWordsSameInitials` | src/auth/components/user-menu.tsx:27-29 | leading, trailing or repeated spaces do not change the initials |
| `UserMenu.NameTakesPrecedence` | src/auth/components/user-menu.tsx:25 | with a truthy name, the email does not affect the result |
| `UserMenu.SingleWordOneChar` | src/auth/components/user-menu.tsx:27-31 | a name without spaces gives exactly its upper-cased first character |
| `UserMenu.SpacesOnlyNameGivesEmpty` | src/auth/components/user-menu.tsx:25-31 | a name of only spaces gives the empty string and does not fall back to the email |
| `UserMenu.JaneDoe` | src/auth/components/user-menu.tsx:25-31 | "Jane Doe" gives "JD" |
| `UserMenu.JaneDoubleSpaceDoe` | src/auth/components/user-menu.tsx:27-29 | "Jane  Doe" also gives "JD" |
| `UserMenu.EmailFallback` | src/auth/components/user-menu.tsx:32 | no name, or the empty name, with "bob@x.com" gives "B" |
| `ApiQuery.Normalize` | src/ui/hooks/use-api-query.ts:4 | a string key becomes the one-element list `[key]`; an array key is used unchanged |
| `ApiQuery.QueryKey` | src/ui/hooks/use-api-query.ts:6 | the cache identity is the normalised segment list itself, passed through unchanged |
| `ApiQuery.RequestPath` | src/ui/hooks/use-api-query.ts:8 | the path starts with `/api/` and continues with the segments joined by `/` |
| `ApiQuery.QueryFn` | src/ui/hooks/use-api-query.ts:9-12 | it throws exactly when the response is not ok, with `Error("Failed to fetch data for " + join(keys, "/"))`; otherwise it returns the body unchanged |
| `ApiQuery.Settle` | src/ui/hooks/use-api-query.ts:7-12 | a value the query function returns settles the query to success with that value; an error it throws settles it to failure with that error |
| `ApiQuery.UseApiQuery` | src/ui/hooks/use-api-query.ts:3-14 | the query key is the normalised list; the query succeeds exactly when the response to `/api/` + joined key is ok, with that body; otherwise it fails with the error naming the joined key |
| `ApiQuery.SingleIsOneSegment` | src/ui/hooks/use-api-query.ts:4-8 | `"s"` and `["s"]` share one cache entry and one path |
| `ApiQuery.PathRoundTrip` | src/ui/hooks/use-api-query.ts:8 | for a non-empty list of slash-free segments, splitting the path after `/api/` on `/` recovers the segments |
| `ApiQuery.PathDeterminesCacheKey` | src/ui/hooks/use-api-query.ts:6-8 | for slash-free, non-empty keys, the same URL string passed to `fetch` means the same cache entry |
| `ApiQuery.SlashInSegmentSharesPath` | src/ui/hooks/use-api-query.ts:6-8 | `["a/b"]` and `["a","b"]` are distinct cache entries with the same path |
| `ApiQuery.FailureNamesPath` | src/ui/hooks/use-api-query.ts:8-11 | a not-ok response never succeeds; the error message is the fixed prefix followed by exactly the path after `/api/` |
| `ApiQuery.FailureMessageRecoversKey` | src/ui/hooks/use-api-query.ts:10 | for slash-free segments, the error message alone determines the key |
| `ApiQuery.DegenerateKeys` | src/ui/hooks/use-api-query.ts:4-8 | `[]` and `""` both request `/api/` but are different cache entries |
| `ApiQuery.WidgetsPath` | src/ui/hooks/use-api-query.ts:8 | `["widgets","42"]` requests `/api/widgets/42` |
| `ApiQuery.ProfileSucceeds` | src/ui/hooks/use-api-query.ts:8-12 | `"profile"` requests `/api/profile`, and an ok response settles to success with its body |
| `ApiQuery.OrdersNotFound` | src/ui/hooks/use-api-query.ts:9-11 | a not-ok response for `["orders","7"]` fails with "Failed to fetch data for orders/7" |

## Left out

- `handleSignOut` (user-menu.tsx:20-23) is a sign-out network call followed by a page reload. It is I/O.
- The dropdown and avatar markup of `UserMenu`, and the `image` and other fields of the user record, are rendering only.
- `src/auth/components/navigation.tsx` is layout, a static one-item list and an open/closed flag bound to a sheet widget. It has no logic to state.
- `src/auth/hooks/use-authenticated-user.ts` is a one-line projection of an external session hook. The model takes its `user` as the input of `Initials`.
- `fetch` and `response.json()` are I/O. They appear only as the abstract `Response{ok, body}`. A rejected `fetch` (network failure) and a body that does not parse are not modelled.
- `ApiQuery.RequestPath`: URL resolution inside `fetch` is not modelled. The URL parser cuts the string at `#` and `?`, treats `\` as `/`, removes `.` and `..` segments and percent-encodes, so distinct slash-free keys such as `["a#x"]` and `["a#y"]` can still send the same request. `RequestPath`, `PathRoundTrip` and `PathDeterminesCacheKey` are about the string passed to `fetch`, not the path the server receives.
- `ApiQuery.UseApiQuery`: the query library retries a query function that throws (three more times with backoff by default, and the hook sets no `retry` option), so a not-ok response leads to several requests before the error state. Retries are not modelled: the model assumes the response for a path is the same on every attempt, which is what makes the settled state depend on one response.
- The query library's caching, deduplication, staleness, invalidation and pending state are behaviour of an external library and are asynchronous. `Settle` stands for its rule that a returned value is success and a thrown error is failure.
- `Strings.Upper`: full Unicode upper-casing, which can change the length (`ß` becomes `SS`), is not modelled; only ASCII `a`-`z` are mapped.
- `UserMenu.FirstChar`: `n[0]` reads one UTF-16 code unit; the model treats strings as sequences of characters.
