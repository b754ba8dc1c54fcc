# google_shared_locations: a verified model of the sign-in and roster core

`main.js` signs in to a Google account with a user name and password, then
fetches the locations that other accounts share with it. It prints one
line per user: time, id, latitude, longitude, name and photo URL.

Sign-in runs four HTTP stages in a row:

1. Fetch the sign-in page.
2. Send the e-mail address.
3. Send the password.
4. Follow the redirect.

Each stage checks three things about the response:

- a response arrived;
- the status is exactly the one the stage expects (200 for stages 1 and 2, 302 for stages 3 and 4);
- it carries `Set-Cookie` headers.

A stage that passes these checks updates three globals:

- the cookie jar `google_cookies`, an allow-list of 13 names;
- the form tokens `google_form`, which are scraped from hidden `<input>` tags;
- the pending redirect URL `google_fourth_location_url`.

After sign-in, the program fetches the locations with the whole jar. It strips the first and last line of the response, parses the JSON, reads each user from fixed positions in the nested arrays, and prints the users.

This project models that core in Dafny. It has seven modules, one file each:

- `Wrappers` (`wrappers.dfy`): `Option`.
- `Text` (`text.dfy`): JavaScript's `split` with a one-character separator and `join`, with round-trip, count and concatenation lemmas.
- `Cookies` (`cookies.dfy`):
  - the allow-list and the initial jar as a map;
  - `ParseSetCookie`, the merge and the rendering of the `Cookie:` header, with lemmas about each;
  - the class `CookieJar`, whose loop methods `SaveConnectionCookies` and `GetCookieHeader` update or read the jar. Each is proved equal to the pure merge and rendering.
- `HiddenFields` (`hidden_fields.dfy`):
  - the three hidden-input patterns, as a leftmost scan;
  - the source's "split the match on `"` and take field 5 or 7", modelled as written;
  - the proof that this is the run of characters up to the next whitespace or `"` after `value="`.
- `Stages` (`stages.dfy`):
  - the requests and the four stages as pure transitions over a `SessionState` value;
  - `connectToGoogle` as a run over a transport function, with the ordering, short-circuit and well-formedness lemmas.
- `Locations` (`locations.dfy`): the de-framing, a JSON datatype with JavaScript's indexing semantics, the user record, the roster, the output line, the location fetch and the whole query. The loops of `parseLocationData` and `emitUsers` are methods proved against those functions.
- `Session` (`session.dfy`): the class `Globals`, which holds the globals as fields and has one method per source function that updates them:
  - the four stages, each proved equal to its pure transition;
  - `connectToGoogle`, proved equal to the pure run;
  - `getSharedLocations` and `querySharedLocations`, proved equal to the pure fetch and query.

The HTTP transport is a parameter `net: Request -> Option<Response>`:

- `None` stands for a transport error or a missing response.
- A response record holds the status, the optional `Set-Cookie` list, the body and the optional `Location` header.

`JSON.parse` is a parameter `parse: string -> Option<Json>`, where `None` means the parse throws. The clock reading is a parameter `now`.

A thrown exception in the source becomes a failing result in the model, with one exception. When the roster is empty, the source throws in `emitUsers` (main.js:496 and main.js:80). The model instead uses the corrected roster described under "## Findings", so it succeeds with zero lines. A field that `join` cannot convert to text (an object with its own `toString` member, main.js:82) fails the query as the source does, after the lines of the earlier users were printed.

## Model

| member | source | states |
|---|---|---|
| Cookies.EmptyJar | main.js:40-56 | The initial jar holds exactly the 13 allow-listed names, each mapped to "". |
| Cookies.ParseSetCookie | main.js:467-468 | The name and value read from a `Set-Cookie` string contain no `;` and no `=`. When the value is absent is stated by `ParseSetCookieName`. |
| Cookies.ParseSetCookieName | main.js:467-468 | The name is the longest prefix of the header that has neither `;` nor `=`. A value is present exactly when that prefix is followed by `=`, so it is absent when the part before the first `;` has no `=`. |
| Cookies.ParseSetCookieValue | main.js:468 | The value is the text that starts right after the `=` ending the name. It ends at the next `=`, the next `;` or the end of the header. |
| Cookies.MergeOne | main.js:467-472 | One header changes the jar at most at its own name, and never its set of names. `MergeLastWins` and `MergeKeeps` state what a whole merge does. |
| Cookies.Merge | main.js:465-474 | Merging never changes the jar's set of names. |
| Cookies.MergeLastWins | main.js:465-474 | When several headers set a name, the last one wins: the name ends with the value of the last header that sets it. |
| Cookies.MergeKeeps | main.js:465-474 | A name that no header sets keeps its value. Headers naming cookies outside the allow-list change nothing. |
| Cookies.MergeClean | main.js:465-474 | After a merge, no value in the jar contains `;` or `=`. |
| Cookies.Entries | main.js:456-462 | The header has one `name=value` entry per allow-listed name, in declaration order. |
| Cookies.Render | main.js:456-462 | The header opens with the first allow-listed entry followed by `;`. `RenderRoundTrip` states that the header reads back as the jar. |
| Cookies.TerminatedJoin | main.js:458-461 | The `;`-terminated accumulation, with its last character cut, equals the entries joined by `;`. |
| Cookies.RenderRoundTrip | main.js:456-474 | Splitting the header at `;` gives back the entries. Merging those entries into any jar with the same names restores every value. |
| Cookies.RenderEmptyLength | main.js:456-462 | An all-empty jar renders as the sum of (name length + 2) over the names, minus 1. That is 97 characters. |
| Cookies.CookieJar.SaveConnectionCookies | main.js:465-474 | The loop leaves the jar equal to the pure merge of the headers in order. The jar stays valid. |
| Cookies.CookieJar.GetCookieHeader | main.js:456-462 | The loop plus `slice(0, -1)` yields exactly the rendering of the jar. |
| HiddenFields.FirstMatch | main.js:192 | The match found is leftmost: no earlier position matches. `None` means no position matches. |
| HiddenFields.MatchText | main.js:192 | There is no matched text exactly when the tag pattern matches at no position. |
| HiddenFields.ExtractField | main.js:192-193 | A field exists only when the pattern matched, and it holds no `"`. `ExtractFieldIsValue` states which text it is. |
| HiddenFields.ValueToken | main.js:192-193 | The value token is absent exactly when the tag pattern matches nowhere. The token has no whitespace and no `"`. |
| HiddenFields.LiteralsQuotes | main.js:256-259 | The fixed text of a tag holds as many `"` as the index of its value field. Its last character is `"`, the quote that opens the value. |
| HiddenFields.ExtractFieldIsValue | main.js:192-193 | Taking field 5 (or 7) of the matched text split on `"` gives exactly the value token after `value="`, for any page. |
| HiddenFields.SourceTags | main.js:192-259 | The three tags are free of `"`. Their value fields are 5, 7 and 7, which are the indices the source takes. |
| Stages.InitialSession | main.js:38-61 | The initial globals: an empty jar, all three form tokens "", and the pending URL "". |
| Stages.Admit | main.js:176-190 | A stage's guards pass exactly when a response arrived with the expected status and carries `Set-Cookie`. The other three stages repeat the same three guards. |
| Stages.FirstStage | main.js:176-204 | Stage 1 keeps the session well formed. `GuardFailure` and `FirstStageEffect` state what it does. |
| Stages.SecondStage | main.js:239-269 | Stage 2 keeps the session well formed. `GuardFailure` and `SecondStageEffect` state what it does. |
| Stages.ThirdStage | main.js:308-338 | Stage 3 keeps the session well formed. `PasswordStageRejectsOk` and `ThirdStageEffect` state what it does. |
| Stages.FourthStage | main.js:355-380 | Stage 4 keeps the session well formed. `FourthStageEffect` states what it does. |
| Stages.RunStage | main.js:129-159 | Whichever stage runs, the session stays well formed. `GuardFailure` states the shared guards. |
| Stages.GuardFailure | main.js:176-201 | A stage whose guards fail returns failure and leaves the session unchanged. A stage that succeeds got its expected status and `Set-Cookie`. This holds for all four stages, and the cited lines are stage 1's. |
| Stages.PasswordStageRejectsOk | main.js:318-321 | A 200 at stage 3 is a failure and changes nothing. |
| Stages.FirstStageEffect | main.js:190-194 | Stage 1 succeeds exactly when its guards pass and the page has the `gxf` tag. Then `gxf` becomes the value token, the cookies are merged and nothing else changes. |
| Stages.SecondStageEffect | main.js:252-259 | Stage 2 succeeds exactly when its guards pass and both tags are present. Then the cookies are merged and `ProfileInformation` and `SessionState` become their value tokens. `gxf` and the pending URL stay as they were. |
| Stages.ThirdStageEffect | main.js:318-330 | Stage 3 succeeds exactly when its guards pass. Then the cookies are merged, the pending URL becomes the `Location` header, and the form is untouched. |
| Stages.FourthStageEffect | main.js:364-373 | Stage 4 succeeds exactly when its guards pass. Then only the jar changes, by the merge. |
| Stages.FirstRequest | main.js:165-174 | The stage 1 request is a GET to the sign-in URL with no headers, no form and the query `rip=1`, `nojavascript=1`. |
| Stages.StageRequest | main.js:129-159 | Stage 1 sends a GET and stages 2-4 send a POST. Stage 4 goes to the pending URL. |
| Stages.SecondRequest | main.js:212-236 | The stage 2 request is a POST to the lookup URL with 16 form fields and `GAPS` as its `Cookie` header. `LookupRequestCarries` states the form values. |
| Stages.ThirdRequest | main.js:279-306 | The stage 3 request is a POST to the password URL with 16 form fields and `GAPS` and `GALX` in its `Cookie` header. `PasswordRequestCarries` states the form values. |
| Stages.FourthRequest | main.js:345-353 | The stage 4 request is a POST to the pending URL with the rendering of the jar as its `Cookie` header. `RedirectFollowed` ties it to stage 3. |
| Stages.LookupRequestCarries | main.js:213-236 | The stage 2 request is a POST to the lookup URL. It carries the `GAPS` cookie, the session's `gxf` and the user name. |
| Stages.PasswordRequestCarries | main.js:279-306 | The stage 3 request is a POST to the password URL. It carries `GAPS` and `GALX` in its `Cookie` header. Its form carries `GALX`, the three form tokens, the user name and the password. |
| Stages.RedirectFollowed | main.js:324-353 | After stage 3 succeeds, stage 4 POSTs to exactly the `Location` it received. Its `Cookie` header is the rendering of the jar as stage 3 left it. |
| Stages.Connect | main.js:129-159 | Sign-in always sends at least one request. `ConnectShortCircuits`, `ConnectInOrder` and `ConnectChained` state how the stages follow one another. |
| Stages.ConnectFrom | main.js:129-159 | A run from stage `k` sends at most 5 - `k` requests, and records one starting session per request. |
| Stages.ConnectRequestAt | main.js:129-159 | Request `i` of a run is the request of stage `k + i`, built on the session that stage started from. |
| Stages.ConnectLinkAt | main.js:129-159 | Each stage of a run except the last succeeded, and left the session the next stage started from. |
| Stages.ConnectEnd | main.js:129-159 | The last stage of a run determines its outcome and final session. The run authenticates exactly when that stage succeeded, which only stage 4 can. |
| Stages.ConnectKeeps | main.js:129-159 | Every session a run passes through satisfies any invariant that the stages preserve. |
| Stages.ConnectWellFormed | main.js:129-159 | Sign-in from a well-formed session passes only through well-formed sessions. |
| Stages.ConnectInOrder | main.js:129-159 | Sign-in runs stage 1 on the given session first. Request `i` is stage `i + 1`'s request, built on the session that stage started from. |
| Stages.ConnectStep | main.js:129-159 | Stage `i + 1` of sign-in starts from a well-formed session, sends that stage's request, and runs that stage's transition on the answer. |
| Stages.ConnectChained | main.js:129-159 | Every stage except the last succeeded on the answer to its own request, and handed its session to the next stage. |
| Stages.ConnectLast | main.js:129-159 | The final session is the one the last stage left. Sign-in authenticates exactly when the last stage succeeds, which happens only when four requests were sent. Otherwise the run fails at that stage. |
| Stages.ConnectShortCircuits | main.js:129-159 | The first failure ends sign-in: a run that failed at stage `k` sent exactly `k` requests. Authentication succeeds exactly when four requests were sent and stage 4 succeeded. Every earlier stage then succeeded too, by `ConnectChained`. |
| Stages.RunStageClean | main.js:465-474 | A stage keeps the jar's values free of `;` and `=`, because it only merges `Set-Cookie` strings into it. |
| Stages.ConnectClean | main.js:129-159 | Every jar a sign-in passes through stays free of `;` and `=` in its values when the starting jar is. |
| Stages.SignInHeadersReadBack | main.js:345-397 | For a sign-in from the initial globals, the `Cookie` header that stage 4 sends and the one the location fetch sends split back into the entries of the jar they render. Merging the fetch's header into an empty jar restores the jar. |
| Locations.DeframeLines | main.js:411 | A body whose lines contain no line break de-frames to its inner lines concatenated. |
| Locations.DeframeThreeLines | main.js:411 | A 3-line body de-frames to exactly its middle line. |
| Locations.DeframeShort | main.js:411 | A body of at most two lines de-frames to "". |
| Locations.Deframe | main.js:411 | The de-framed text contains no line break. `DeframeLines`, `DeframeThreeLines` and `DeframeShort` state which text it is. |
| Locations.Index | main.js:504-508 | `x[i]` throws exactly when `x` is `undefined` or `null`. |
| Locations.NatText | main.js:82 | `String(n)` of the time is a non-empty run of decimal digits. `NatTextValue` states that it reads back as `n`. |
| Locations.NatTextValue | main.js:82 | The decimal text of the time reads back as the number. |
| Locations.Path | main.js:504-508 | A chained read such as `userdata[1][1][2]`: no step gives the value itself, and a read from `undefined` or `null` throws. A read that succeeds started from a defined value. |
| Locations.ExtractUser | main.js:501-512 | A record comes only from a defined element and carries the clock reading as its time. `ExtractUserPositions` states where each field comes from. |
| Locations.ExtractUserPositions | main.js:501-512 | A record exists exactly when the element, its `[0]`, its `[1]` and `[1][1]` are all defined. Its fields are `id=[0][0]`, `photoURL=[0][1]`, `name=[0][3]`, `lat=[1][1][2]` and `long=[1][1][1]`. |
| Locations.ExampleUser | main.js:501-512 | A concrete element: longitude is read from position 1 and latitude from position 2 of the inner array. |
| Locations.MapUsers | main.js:483-492 | The roster is absent exactly when some element cannot be read. Otherwise it has one record per element, in the same order. |
| Locations.Elements | main.js:481-484 | The loop runs over elements exactly when `perlocarr` is a non-empty array, giving its items, or a non-empty string, giving one element per character. Every other value fails the `perlocarr && perlocarr.length > 0` test. |
| Locations.Roster | main.js:477-498 | This is the corrected roster of "## Findings". A `null` payload gives no roster, because indexing it throws. An empty payload `[]` gives zero records. `RosterRecords` and `RosterAgrees` state the rest. |
| Locations.RosterRecords | main.js:477-498 | An absent or empty `locationdata[0]` gives no records. An array gives one record per element, in order. |
| Locations.RosterAgrees | main.js:477-498 | The corrected roster agrees with the source wherever the source hands on users, and also wherever it crashes. |
| Locations.EmptyRosterFails | main.js:494-497 | An empty roster: `emitUsers` receives no `users` and throws, while the corrected roster emits zero lines. |
| Locations.ValueText | main.js:82 | How `join` renders a field: `null` as "", an array as its elements joined by `,`, an object as `[object Object]`. An object with its own `toString` member has no text, because converting it throws; an array has none exactly when one of its elements has none. |
| Locations.FieldText | main.js:82 | `undefined` and `null` fields print as "", and a string field prints as itself. |
| Locations.Emit | main.js:78-87 | `emitUsers` never prints more lines than there are users. `EmitPrints` states which lines it prints. |
| Locations.EmitPrints | main.js:78-87 | `emitUsers` prints the lines of the users before the first one whose line throws, in order. It reaches its callback exactly when it printed one line per user; otherwise it stopped at a user without a line. |
| Locations.UserLine | main.js:82 | A user has a line exactly when every field converts to text; an `id` that is an object with its own `toString` gives no line. A line opens with the time followed by `" , "`. `UserLineFields` states the whole line. |
| Locations.UserLineFields | main.js:82 | For a user whose fields all convert, the line is `time , id , lat , long , name , photoURL`. When no field contains a comma, splitting the line at commas gives back the six fields in that order, padded by the separator's spaces. |
| Locations.JoinPadded | main.js:82 | Joining with `" , "` is the same as joining the space-padded fields with `,`. |
| Locations.FetchRequest | main.js:386-397 | The location query carries the rendering of the whole jar as its `Cookie` header. |
| Locations.Fetch | main.js:399-423 | A fetch yields users only after a 200. It uses the corrected roster of "## Findings": an empty roster gives zero users where the source goes on to throw. `FetchMiddleLine` states what is parsed. |
| Locations.FetchNeedsOk | main.js:405-409 | The fetch fails unless the status is exactly 200. |
| Locations.FetchMiddleLine | main.js:405-411 | With a 200 and a three-line body, the parser sees exactly the middle line. |
| Locations.ParseLocationData | main.js:477-498 | The loop produces exactly the corrected roster of `locationdata[0]`. |
| Locations.EmitUsers | main.js:78-87 | The loop prints exactly the lines `Emit` gives, one per user in order, and stops with failure at the first line that throws. |
| Locations.Query | main.js:111-127 | The query keeps the session well formed. A query that fails before the fetch completes prints nothing, and a successful query sent exactly five requests. It uses the corrected roster of "## Findings". `QueryAfterSignIn` states the order of events. |
| Locations.QueryAfterSignIn | main.js:111-127 | The fetch is sent only after sign-in authenticates, as the one request after the four stages, with the jar sign-in left. A failed fetch prints nothing; after a successful one the lines and the flag are those of `emitUsers` on the records, and success needs a 200. With the corrected roster of "## Findings", an empty roster prints zero lines and succeeds. |
| Session.Globals.constructor | main.js:38-61 | The globals start as the initial session. |
| Session.Globals.ConnectFirstStage | main.js:162-205 | The stage sends the stage 1 request and leaves the globals equal to stage 1's transition on the answer. |
| Session.Globals.ConnectSecondStage | main.js:208-270 | The stage sends the stage 2 request and leaves the globals equal to stage 2's transition on the answer. |
| Session.Globals.ConnectThirdStage | main.js:273-339 | The stage sends the stage 3 request and leaves the globals equal to stage 3's transition on the answer. |
| Session.Globals.ConnectFourthStage | main.js:342-382 | The stage renders the jar, POSTs to the pending URL, and leaves the globals equal to stage 4's transition. |
| Session.Globals.ConnectToGoogle | main.js:129-159 | The outcome, the requests sent and the new globals are those of the pure sign-in run. |
| Session.Globals.GetSharedLocations | main.js:385-423 | The request is the location query with the current jar. The users are the pure fetch's result, with the corrected roster of "## Findings". |
| Session.Globals.QuerySharedLocations | main.js:111-127 | The success flag, the printed lines, the requests and the new globals are those of the pure query, with the corrected roster of "## Findings". |

## Left out

- The `request` library, the network and `logout` (main.js:426-453) are left out. Responses come from the `net` parameter.
- Console output, the `process.exit` codes, argv handling (main.js:24-30, 89-102) and the 60-second watchdog (main.js:105-107) are left out. They are process glue.
- `JSON.parse` (main.js:411) is the `parse` parameter. A parse that throws is `None`, and then the fetch fails.
- The clock `Math.floor(new Date()/1000)` (main.js:503) is a parameter `now` in seconds. The source reads the clock once per user; the model uses one reading for all users of a fetch.
- Callback style is modelled as sequential calls with return values. Only the `err` flag of each callback is modelled.
- Numbers in the JSON are opaque: they are kept as the text JavaScript prints. No floating point is modelled.
- The regular expressions are modelled only for the fixed patterns the source uses:
  - each pattern is a run of literals separated by whitespace, then `value="` and a non-whitespace tail;
  - whitespace is JavaScript's `\s` set, written out;
  - the search finds the leftmost match, and only the first match is used;
  - other regular-expression features (backtracking, flags) are not modelled.
- A `null` match (main.js:193, 257, 259) makes the source throw. In the model, that stage fails instead. Stage 2 keeps what it had stored before the throw: the merged cookies, and `ProfileInformation` when only the second tag is missing.
- A `Set-Cookie` header without `=` makes the source store `undefined` (main.js:468). The model skips that header. Values are strings, so `undefined` cannot be represented.
- Indexing that throws while reading a user (main.js:504-508) ends the whole fetch with failure, as the uncaught TypeError does. `undefined` fields that do not throw are kept as `None` and print as "".
- A `locationdata[0]` that is an object with its own `length` member is treated like any other object: as no elements. Arrays and strings are modelled exactly.
- Strings are sequences of Unicode code points, not UTF-16 code units. A string roster element is indexed by code point.
- Only the single cookie domain `google.com` is modelled, so the jar is one map.
- Stage 4 with an `undefined` pending URL (when there was no `Location` header) sends `url` as `None`. What the transport does with that is up to `net`.
- The source's `userdataobjarr[i]` fill by index is modelled as an append, which gives the same array because `i` counts up from 0. The unreachable error callback of that loop (main.js:486-488) is left out.
- Locations.Fetch: an empty roster gives zero users, where the source goes on to throw a TypeError (main.js:496 and main.js:80). The model follows the corrected roster of "## Findings"; `EmitAsWritten` models the throw.
- Locations.Query: an empty roster gives a successful query with zero lines, where the source throws in `emitUsers` (main.js:80). This is the same corrected roster; `Session.Globals.GetSharedLocations` and `Session.Globals.QuerySharedLocations` inherit it.

## Findings

| source | as written | input that shows it | evidently intended | confidence | as-written member | corrected member |
|---|---|---|---|---|---|---|
| main.js:496 | With nothing to loop over, `parseLocationData` calls back with no `users`. `emitUsers` then reads `users.length` of `undefined` and throws. | A 200 response whose body parses to `[[]]`, meaning no user shares a location. | Print zero lines and finish successfully. | not executed | Locations.EmitAsWritten, shown by Locations.EmptyRosterFails | Locations.Roster, through Locations.RosterRecords and Locations.RosterAgrees |
