# peer-talk core, modelled in Dafny

peer-talk is a small help-matching web app. Users sign in, post help requests with tags, and
offer to help with other users' requests. A help offer is a *match*: it is accepted when the
request's tags and the helper's skills overlap. An accepted match opens a chat between the
request's owner (the seeker) and the helper.

The model covers the logic under the web and database wiring:

- **Store** (`Db`): a `Store` class holding the user table and the help-request table (as maps
  keyed by id), the chats with their participants (a sequence), and one fresh-id counter. Its
  invariant (`Consistent`) says:
  - keys are the rows' ids, and the ids are below the counter;
  - emails are unique;
  - every request has an owner row;
  - every `skills` and `tags` column reads as a JSON list of strings;
  - chats refer to stored requests, never have the request's owner as helper, and have
    increasing ids.

  Every handler that writes keeps this invariant. On a store that keeps it, the `500` paths
  that a column which does not parse would take in the match and profile handlers cannot be
  reached (`MatchRoute.AdmitNoInternalError`, `ProfileRoute.GetNoInternalError`).
- **Match** (`MatchRoute`): `POST /api/match`. It runs the checks in the handler's order:
  signed in, the request exists, it is not the caller's own, its tags parse, the caller has a
  user row, the caller's skills parse, and finally the overlap test. The overlap test is
  case-insensitive substring containment in either direction. On success the handler creates
  the chat and then marks the request "matched". The pure `Admit` states the verdict; `Post`
  performs the steps against the store and is proved to fail exactly as `Admit` says, with
  nothing written.
- **Help requests** (`HelpRequestsRoute`):
  - the listing keeps the open requests that are public or the viewer's own, newest first, each
    exactly once;
  - creation defaults the tags to `[]` and the privacy to "public".
- **Profile** (`ProfileRoute`):
  - lookup, with the skills column decoded;
  - the partial update, where each body field is written under its own JavaScript guard:
    `name` only when truthy, `bio` and `isOnline` whenever sent, and `skills` whenever a list
    is sent.
- **Sign-in** (`Auth`):
  - credentials `authorize` finds or creates a user by email, naming a new user after the
    email's prefix before the first `@`;
  - the Google `signIn` callback creates or updates the row through `||` fallback chains;
  - the `jwt` and `session` callbacks copy the user id into the token and then the session.
- **Forms** (`ProfilePage`, `CreateRequestPage`, `CommaList`): both pages turn a comma-separated
  text field into a list with `split(",")`, `trim` and a filter that drops empty items. The
  profile page prefills that field with `join(", ")`; for clean items, parsing the prefill
  gives the list back.

Shared modules:
- `Common`: `Option`, and JavaScript truthiness and `||` for nullable strings.
- `Api`: the error kinds and the response type.
- `Text`: lower-casing, `includes`, `trim`, `split` and `join`.
- `Json`: the `JSON.stringify` text of a list of strings, a reader for it, and the round trip
  between them.

Outside effects are parameters:
- the session's user id is an `Option<UserId>`;
- the clock (`new Date()`) is a `Timestamp` argument;
- the help request's initial status, which the schema supplies, is a `status` argument.

Behaviour of the code that the model keeps as written:
- The match handler creates the chat and then updates the request's status, as two separate
  writes (app/api/match/route.ts:56 and :82), not one transaction. The model runs them in
  sequence and claims no atomicity.
- The match handler never reads the request's status, so a request that is already matched
  can be matched again; `MatchRoute.AdmitIgnoresStatus` proves the verdict does not depend on
  the status.
- The help-request handler does not set the initial status; the schema default supplies it,
  so it is a parameter here.
- Profile `PATCH` writes the row before it decodes the skills for the response, so on a row
  whose skills do not parse it would fail after the write. `Patch`'s contract says so, and
  also that this cannot happen on a store that keeps the invariant.

## Model

| member | source | states |
|---|---|---|
| Common.Or | lib/auth.ts:75 | JavaScript `a \|\| b` on nullable strings: `a` when it is a non-empty string, otherwise `b` |
| Text.Lower | app/api/match/route.ts:43-44 | `toLowerCase` keeps the length and lower-cases each character |
| Text.LowerIdempotent | app/api/match/route.ts:43-44 | lower-casing twice is lower-casing once |
| Text.Includes | app/api/match/route.ts:43-44 | `s.includes(t)` holds iff `t` occurs in `s` at some position |
| Text.Trim | app/profile/page.tsx:66 | the trimmed text is empty or starts and ends with a non-white-space character |
| Text.TrimSlice | app/profile/page.tsx:66 | `trim` keeps one contiguous slice and drops only white space before and after it |
| Text.TrimIdempotent | app/create-request/page.tsx:25 | trimming twice is trimming once |
| Text.Split | app/profile/page.tsx:65 | `split` gives at least one piece, and no piece contains the separator |
| Text.SplitPiecesIn | app/profile/page.tsx:65 | every character of every piece comes from the split text |
| Text.SplitFirst | lib/auth.ts:40 | the first piece is the text up to the first separator, or the whole text |
| Text.JoinSplit | app/profile/page.tsx:65 | joining the pieces with the separator gives the text back |
| Text.SplitConcat | app/profile/page.tsx:65 | the pieces of `a + sep + b` are the pieces of `a` followed by those of `b` |
| Text.SplitNoSep | app/profile/page.tsx:65 | a text without the separator is one piece |
| Json.DecodeEscaped | app/api/match/route.ts:29 | reading the escaped characters of a string and its closing quote gives the string back and leaves the text after it |
| Json.EncodedStringRoundTrip | app/api/help-requests/route.ts:58 | `JSON.stringify` of a string, read back by `JSON.parse`, gives that string and leaves the text after it |
| Json.DecodeList | app/api/match/route.ts:29 | the text `[]` reads as the empty list |
| Json.ParseColumn | app/api/match/route.ts:38 | `JSON.parse(col \|\| "[]")`: a null or empty column reads as the empty list |
| Json.DecodeEscapedChar | app/api/help-requests/route.ts:58 | each character's `JSON.stringify` escape reads back as that character |
| Json.ListRoundTrip | app/api/help-requests/route.ts:58 | `JSON.parse(JSON.stringify(xs))` is `xs` for every list of strings |
| Json.ColumnRoundTrip | app/api/profile/route.ts:54 | a column written as the encoding of a list reads back as that list |
| CommaList.ParseList | app/profile/page.tsx:64-67 | the `split`, `trim`, `filter` chain gives only non-empty items |
| CommaList.DropEmpty | app/profile/page.tsx:67 | the filter keeps only non-empty items, all taken from the input |
| CommaList.ParsedItemsClean | app/profile/page.tsx:64-67 | every parsed item is non-empty, equal to its own trim, and free of commas |
| CommaList.ParseListConcat | app/create-request/page.tsx:23-26 | the items before a comma come first, then those after it, in their original order |
| CommaList.ParseListField | app/create-request/page.tsx:23-26 | a comma-free field gives its trim, or nothing when the trim is empty |
| CommaList.ParseBlank | app/create-request/page.tsx:23-26 | a text made only of commas and white space, the empty text included, gives `[]` |
| CommaList.ParseJoinRoundTrip | app/profile/page.tsx:51-67 | clean items joined with `", "` parse back to the same list |
| Db.NewUser | lib/auth.ts:37-43 | a created row has the given id, email and name, and skills `"[]"` |
| Db.FindByEmail | lib/auth.ts:31-33 | the lookup finds a row with the email below the bound, or reports that none exists |
| Db.TableRows | app/api/help-requests/route.ts:12 | a table scan yields every stored row exactly once |
| Db.Store.UserByEmail | lib/auth.ts:31-33 | finds the one row with the email, or reports that none exists |
| Db.AddUserConsistent | lib/auth.ts:37-43 | a new user under the next id with an unused email and a readable skills column keeps the store invariant |
| Db.UpdateUserConsistent | app/api/profile/route.ts:49-56 | rewriting a user row with its id and email unchanged and readable skills keeps the invariant |
| Db.AddRequestConsistent | app/api/help-requests/route.ts:53-61 | a new request under the next id with a stored owner and readable tags keeps the invariant |
| Db.AddChatConsistent | app/api/match/route.ts:56-85 | a new chat for a stored request whose helper is not the owner, plus its status update, keeps the invariant |
| MatchRoute.SomeSkill | app/api/match/route.ts:42-45 | true iff some skill overlaps the tag |
| MatchRoute.HasMatchingTags | app/api/match/route.ts:41-46 | true iff some tag and some skill overlap, lower-cased, by containment either way |
| MatchRoute.HasMatchingTagsSymmetric | app/api/match/route.ts:41-46 | swapping tags and skills does not change the result |
| MatchRoute.HasMatchingTagsIgnoresCase | app/api/match/route.ts:41-46 | re-casing either list does not change the result |
| MatchRoute.Score | app/api/match/route.ts:48-53 | rejected iff the tags are non-empty with no overlap; otherwise score 1 with an overlap and 0.5 for no tags (line 87) |
| MatchRoute.Admit | app/api/match/route.ts:7-53 | the verdict: Unauthorized, request not found, own request, then a score of 1 or 0.5 only for another user's stored request |
| MatchRoute.AdmitNoInternalError | app/api/match/route.ts:29-38 | on tables that keep the store invariant, the verdict is never the `500` of a tags or skills column that does not parse |
| MatchRoute.AdmitIgnoresStatus | app/api/match/route.ts:15-48 | the request's status plays no part in the verdict |
| MatchRoute.EmptyTagsAdmitted | app/api/match/route.ts:48-53 | a request without tags is admitted with score 0.5 |
| MatchRoute.NoOverlapRejected | app/api/match/route.ts:48-53 | non-empty tags with no overlap are rejected with match score 0 |
| MatchRoute.NewChat | app/api/match/route.ts:56-65 | the chat links to the request, with the owner as seeker and the caller as helper |
| MatchRoute.RecordMatch | app/api/match/route.ts:56-85 | the two writes: one chat under a fresh id, owner as seeker and caller as helper, then the status "matched"; nothing else changes and the invariant is kept |
| MatchRoute.Post | app/api/match/route.ts:5-92 | fails exactly as `Admit` says, changing nothing; on success appends one chat, sets the status to "matched", and changes nothing else |
| HelpRequestsRoute.OnlyVisible | app/api/help-requests/route.ts:13-19 | keeps each visible row as often as it occurs, and drops the others |
| HelpRequestsRoute.Insert | app/api/help-requests/route.ts:31-33 | inserting into a newest-first list keeps it newest-first and adds exactly that row |
| HelpRequestsRoute.PrependNewest | app/api/help-requests/route.ts:31-33 | a row at least as new as the head can go in front of a newest-first list |
| HelpRequestsRoute.SortNewestFirst | app/api/help-requests/route.ts:31-33 | the sort is newest-first and a permutation of its input |
| HelpRequestsRoute.Get | app/api/help-requests/route.ts:5-36 | Unauthorized without a session; otherwise each open request that is public or the viewer's own, exactly once, newest first |
| HelpRequestsRoute.PrivateRequestsHidden | app/api/help-requests/route.ts:15-18 | another user's request whose privacy is not "public" is never listed |
| HelpRequestsRoute.NewRequest | app/api/help-requests/route.ts:53-61 | the stored row has the body's title, description and category; its tags read back as the given list or `[]`; its privacy is the given one, or "public" when that is missing or empty |
| HelpRequestsRoute.Post | app/api/help-requests/route.ts:43-78 | Unauthorized without a session; otherwise adds exactly one request under a fresh id, owned by the caller, and leaves the existing rows unchanged |
| ProfileRoute.View | app/api/profile/route.ts:29-32 | the profile carries the row's columns, with the skills decoded; it fails when they do not parse |
| ProfileRoute.NewUserView | app/api/profile/route.ts:31 | a newly created user shows an empty skill list |
| ProfileRoute.Get | app/api/profile/route.ts:5-37 | Unauthorized without a session, "User not found" without a row, otherwise the caller's own profile |
| ProfileRoute.GetNoInternalError | app/api/profile/route.ts:29-35 | on a store that keeps its invariant `GET` never fails with `500`; a caller with a row gets a profile |
| ProfileRoute.ApplyPatch | app/api/profile/route.ts:51-56 | name changes only for a non-empty name; bio and isOnline change whenever sent; skills are replaced whenever a list is sent; id, email, reputation, image and emailVerified never change |
| ProfileRoute.PatchIdempotent | app/api/profile/route.ts:49-56 | applying the same body twice is applying it once |
| ProfileRoute.EmptyPatchKeepsRow | app/api/profile/route.ts:51-56 | an empty body leaves the row as it was |
| ProfileRoute.PatchedSkillsShown | app/api/profile/route.ts:54-71 | after a skills update the response shows exactly the sent list |
| ProfileRoute.PatchKeepsViewable | app/api/profile/route.ts:49-71 | patching a row whose skills read as a list keeps them readable, so the response is a profile |
| ProfileRoute.Patch | app/api/profile/route.ts:39-76 | Unauthorized without a session; a missing row fails with nothing written; otherwise only the caller's row changes, as `ApplyPatch` says, and the response is its profile |
| Auth.EmailPrefix | lib/auth.ts:40 | the name is the part of the email before the first `@`, or the whole email when it has none |
| Auth.EmailPrefixOfAddress | lib/auth.ts:40 | the prefix of `local@domain` is `local` |
| Auth.EmailPrefixWithoutAt | lib/auth.ts:40 | an email without `@` is its own prefix |
| Auth.Authorize | lib/auth.ts:26-51 | no email gives no user and no write; a known email gives its row; a new one creates one row named by the prefix; afterwards the email belongs to the returned id |
| Auth.AuthorizeTwice | lib/auth.ts:31-44 | two calls with one email return the same user, and one row has that email |
| Auth.GoogleNewUser | lib/auth.ts:72-80 | the name falls back from the user's to the profile's to the email prefix; the image from the user's to the profile picture; the email is verified now |
| Auth.GoogleMerge | lib/auth.ts:83-90 | an empty incoming name or image keeps the stored one; an earlier verification time is kept |
| Auth.GoogleMergeIdempotent | lib/auth.ts:83-90 | a second Google sign-in, at any time, changes nothing more |
| Auth.SignIn | lib/auth.ts:64-94 | other providers pass with no write; Google creates or updates the row for the email and passes; a Google user without an email fails |
| Auth.Jwt | lib/auth.ts:95-111 | the token takes the user's id, and for Google the stored row's id for the user's email |
| Auth.SessionCallback | lib/auth.ts:112-117 | the session's user takes the token's id |
| Auth.GoogleSignInFlow | lib/auth.ts:64-117 | after a Google sign-in with a non-empty email the session carries the id of the stored row with the user's email |
| ProfilePage.FormOf | app/profile/page.tsx:48-53 | the form shows the profile's name and online flag, its bio or `""`, and a skills text starting with the first skill |
| ProfilePage.SavePayload | app/profile/page.tsx:62-77 | the body is the form's name, bio and online flag, with the skills text replaced by its parsed, clean list |
| ProfilePage.PrefillSkillsRoundTrip | app/profile/page.tsx:51-67 | the prefilled skills text parses back to the profile's clean skills |
| ProfilePage.UneditedSave | app/profile/page.tsx:42-77 | saving an unedited form keeps the name, the online flag and the clean skills, and turns a missing bio into `""` |
| CreateRequestPage.SubmitBody | app/create-request/page.tsx:22-37 | the body is the form data with the tags text replaced by its parsed, clean list |
| CreateRequestPage.InitialSubmit | app/create-request/page.tsx:9-15 | the untouched form submits no tags and privacy "public", and the request is stored that way |
| CreateRequestPage.SubmittedRequest | app/create-request/page.tsx:22-37 | the stored tags read back as the parsed list; the privacy is the form's, or "public" when it is empty |

## Left out

- Text.Lower: lower-cases ASCII letters only; `toLowerCase`'s full Unicode case mapping is not modelled.
- Json.DecodeList: reads only the text `JSON.stringify` writes for a list of strings. Other JSON (white space, numbers, nested values) reads as malformed, which the handlers turn into `InternalError`, the generic `500` path. The code would read some of it as a value and possibly fail later.
- Rendering, React hooks, navigation, `alert` and logging are not modelled, nor `app/page.tsx` and `app/help/[id]/page.tsx`, which only render.
- HTTP is not modelled: requests and `NextResponse` become parameters and the `Response` datatype, without wire status codes or the `include`/`select` projections of related rows.
- NextAuth wiring is not modelled: the provider list built from environment variables, JWT signing and passwords (accepted and never checked).
- Every handler runs to completion on its own. Transactions, races and the two-step match write are not modelled as concurrent.
- Ids are natural numbers from one counter. A provider's own user id (Google's) is taken in the same id type.
- Timestamps are integer arguments, and the initial request status is an argument, because the schema that supplies it is not part of this model.
- `reputation` is a real number carried unchanged; floating-point behaviour is not modelled.
- The schema defaults are assumed: no bio, reputation 0 and offline for a new user. A user's `name` is a string, since every creating path sets one.
- A request posted by a session whose user row is missing fails with `InternalError`, as the owner relation cannot be stored.
- HelpRequestsRoute.NewRequest: the body's `tags` is a list or missing. A falsy value of another type (`""`, `0`, `false`, `null`) would also fall back to `[]` in the code; a truthy non-list value would be stored as its JSON text. Neither is expressible in `Option<seq<string>>`.
- ProfileRoute.ApplyPatch: body values of the wrong JSON type are not modelled, such as a null `isOnline` or a non-string name. Their database errors are outside the model.
- Auth.SignIn: a Google user without an email makes the lookup throw. It is modelled as `Fail(InternalError)` rather than as NextAuth's error page.
