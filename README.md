# Profile dashboard: session flow and activity charts

This project models the browser script `index.js` of a small profile
dashboard for the 01 school platform. The dashboard stores a session token
in a cookie and checks it against the platform's GraphQL endpoint. It signs
the user in and out. Once signed in, it turns the user's skill records and
XP transactions into an XP line chart and one doughnut chart per skill.

The model has five modules:

- `Strings` (`strings.dfy`): the string operations the script uses, namely
  `startsWith`, `includes` and `split` on one character, with `Join` as the
  inverse of `Split`.
- `Cookie` (`cookie.dfy`): `getToken` as a function of the cookie text; the
  cookie text that results from writing `token=<value>`; and the "token
  cleared" effect of the cookie filter.
- `Session` (`session.dfy`): `validateJWT`, `logOut` and `signIn`.
  - Each is stated as a function on a `Page` value. `Page` holds:
    - the cookie text;
    - which panels are shown (the sign-in form, the content panel and the
      error banner);
    - whether the log-out button is disabled;
    - the message slot;
    - the requests sent so far.
  - Each is also written as a method of the class `Dashboard`, which keeps
    the same state in fields. Every method is proved to reach the state
    that its function gives.
  - Network replies are inputs:
    - `NetworkFailure`, `ResponseWithErrors` or `ResponseOk` for the
      validation query;
    - `SignInNetworkFailure`, `SignInRejected(error)` or `SignInOk(token)`
      for the sign-in call.
- `Activity` (`activity.dfy`): the data transformation in `showInfo`.
  - The skills object is built with `Object.fromEntries`.
  - The transaction array is reversed in place (an `array` and a loop).
  - The first `forEach` collects the day-boundary labels (`dates`).
  - The second `forEach` builds the cumulative-XP object (`xp`) and
    `total`.
  - A JavaScript object is a `Dict`: its keys in insertion order, and the
    values at the same positions.
- `Charts` (`charts.dfy`): what the charts are given, namely the line
  chart's labels and points, each skill's heading, and its two doughnut
  slices.

Each day label comes from `toLocaleString()`, cut at the first `", "`. That
function depends on the browser's locale and time zone. The model therefore
takes it as a parameter `dayOf: string -> D`, with labels of any type `D`
that supports equality.

The comment above `getToken` (index.js:260-264) says it "Returns the value
of the token cookie", and undefined when the cookie is not found. The code
is narrower, and the model follows the code. `split('=')[1]` is the text
between the first and the second `=` of the segment, so `token=a=b` yields
`a`. A segment that starts with `token` but holds no `=` yields no token,
even though a cookie segment was found.

## Model

| member | source | states |
|---|---|---|
| Strings.StartsWith | index.js:269 | `s.startsWith(prefix)`: the prefix is at most as long as `s` and equals its first characters (a definition; `StartsWithContains` relates it to `Contains`) |
| Strings.Contains | index.js:175 | `s.includes(sub)`: `sub` occurs at some position of `s` (a definition) |
| Strings.StartsWithContains | index.js:175 | a string that starts with `piscine-go`, or any other text, contains it |
| Strings.Split | index.js:267-268 | `split` on one character: always at least one part, no part holds the separator, and joining the parts gives the string back |
| Strings.SplitJoin | index.js:267-268 | round trip: parts without the separator are recovered by splitting their join |
| Cookie.Segments | index.js:267-268 | the cookie text split on `;`, with nothing trimmed; `Split`'s contract gives at least one segment, none holding `;`, joining back to the cookie |
| Cookie.FindFirst | index.js:269 | `find(startsWith(prefix))`: absent exactly when no segment starts with the prefix, otherwise the index of the first segment that does |
| Cookie.GetToken | index.js:266-271 | a found token never holds `;` or `=` |
| Cookie.GetTokenSpec | index.js:266-271 | a token is present exactly when the first segment starting with `token` holds a `=`; it is then the text between that segment's first and second `=`; it is absent when no segment starts with `token` |
| Cookie.HasToken | index.js:11 | `!token` is false exactly when a token was found and is not empty (a definition; `EmptyTokenCookie` shows that `token=` fails it) |
| Cookie.TokenCookie | index.js:92 | the cookie text read back after `token=<value>` is written (a definition; its partner is `TokenCookieRoundTrip`) |
| Cookie.TokenCookieRoundTrip | index.js:92 | a value without `;` or `=`, once written as `token=<value>`, is read back unchanged |
| Cookie.EmptyTokenCookie | index.js:58 | after `token=` is written, `getToken` yields the empty string, which counts as no token |
| Cookie.EmptyCookie | index.js:266-271 | an empty cookie string holds no token |
| Cookie.NoTrimming | index.js:268-269 | segments are not trimmed: a `token` entry after `"; "` starts with a space and is not found |
| Cookie.NonTokenSegments | index.js:32-34 | the filter keeps exactly the segments that do not start with `token`, as a set; order and repeats are given by `NonTokenSegmentsAppend` |
| Cookie.NonTokenSegmentsAppend | index.js:32-34 | the filter works segment by segment: the kept segments of two lists put together are those of the first followed by those of the second, and one segment is kept exactly when it does not start with `token`, so order and repeats are kept |
| Cookie.StripToken | index.js:32-34 | after the token segments are filtered out, no token is found, and the other segments are read back unchanged |
| Session.InfoShown | index.js:98-100 | the start of `showInfo` shows the content and sends the profile query with the current token, and changes nothing else |
| Session.Validated | index.js:9-52 | returns true exactly when a non-empty token is stored and the reply has no errors; sets log-out disabled and leaves no usable token on every false path; hides sign-in, enables log-out and shows the content on the true path; with no token, shows sign-in and sends nothing; a network failure shows the error banner and drops the token; an error reply shows sign-in and drops the token; a failed validation of a stored token keeps the content panel as it was; only a network failure touches the error banner, so a banner already shown stays up after a later successful validation |
| Session.LoggedOut | index.js:57-62 | log-out leaves an empty token, shows sign-in, hides the content and disables log-out, and sends nothing |
| Session.SignedIn | index.js:71-96 | a valid session sends no credentials and ends as validation left it; otherwise the credentials are sent once; an unreachable server stops the call with only the credentials request added; a rejection shows the server's message and keeps log-out disabled; an accepted sign-in stores the token, hides sign-in, enables log-out and shows the content, and keeps the message slot and error banner as validation left them, so an earlier rejection's text stays |
| Session.LogOutThenValidate | index.js:57-62 | validating right after log-out returns false, ends logged out and sends no request |
| Session.SignInThenValidate | index.js:71-96 | after a sign-in that stores a well-formed token, validation succeeds, and a second sign-in sends only the validation and profile queries with that token |
| Session.Dashboard.ShowInfo | index.js:98-100 | the fields reach `InfoShown` of the prior state |
| Session.Dashboard.ValidateJWT | index.js:9-52 | the fields and the result are those `Validated` gives |
| Session.Dashboard.LogOut | index.js:57-62 | the fields reach `LoggedOut` of the prior state |
| Session.Dashboard.SignIn | index.js:71-96 | the fields reach `SignedIn` of the prior state |
| Activity.Dict.Put | index.js:177 | `obj[k] = v`: a new key goes last and an existing key keeps its place; `k` then holds `v`; every other key keeps its value |
| Activity.PutDistinct | index.js:177 | writing a key never lists a key twice |
| Activity.SkillKey | index.js:158 | `slice(6)` drops the first six characters, or gives `""` for a shorter type |
| Activity.SkillKeyStripsPrefix | index.js:158 | a `skill_<name>` type gives the key `<name>` |
| Activity.SkillEntries | index.js:158 | the `map` of the skill records: one `[key, amount]` pair per record, in order, with the key from `SkillKey` |
| Activity.FirstOccurrences | index.js:157-159 | (a definition) the distinct keys at the places of their first occurrence; it holds the same elements as its input and lists none twice; partner of `FromEntriesKeyOrder` |
| Activity.EntryKeys | index.js:157-159 | (a definition) the key of each entry, in order |
| Activity.FromEntries | index.js:157-159 | `Object.fromEntries`: every key that occurs is present, holding the value of its last entry, and no key is listed twice |
| Activity.FromEntriesKeyOrder | index.js:157-159 | the keys of `Object.fromEntries` are the entry keys in first-occurrence order |
| Activity.FromEntriesOnlyGiven | index.js:157-159 | `Object.fromEntries` adds no key that no entry has |
| Activity.SkillsMap | index.js:157-159 | each record's key is present; a key that no later record repeats holds that record's amount; no key is listed twice |
| Activity.SkillsKeyOrder | index.js:157-159 | the skills object's keys are the stripped record types in first-occurrence order, the order `Object.entries` gives at index.js:225 |
| Activity.SkillsOnlyGiven | index.js:157-159 | the skills object has no key that no record gives |
| Activity.LaterRecordWins | index.js:157-159 | two records of one type give one key, holding the later amount |
| Activity.Excluded | index.js:175 | a transaction is excluded when its path contains `piscine-go`, the test at lines 168 and 175 (a definition) |
| Activity.Reversed | index.js:166 | the reversal has the same length, and position `k` holds position `n-1-k` of the original |
| Activity.ReverseInPlace | index.js:166 | `reverse()` leaves the array holding the reversal of its old contents |
| Activity.Kept | index.js:174 | the kept transactions are no more than the input, and none of them is excluded (the full filter is `KeptPositions`) |
| Activity.KeptPositions | index.js:174 | `Kept` is the filter: its elements are the input's elements at increasing positions, and those positions are exactly the ones whose transaction is not excluded |
| Activity.KeptDays | index.js:167-168 | (a definition) the days of the non-excluded transactions, in order; `KeptDaysAt` gives its meaning |
| Activity.KeptDaysAt | index.js:167-168 | the kept days are the days of the kept transactions, position by position |
| Activity.Day | index.js:163-167 | (a definition) the day label of a transaction's timestamp, through the `dayOf` parameter |
| Activity.DayScan | index.js:163-172 | there are no more labels than kept transactions; with no label, `prevDate` is still the initial day; otherwise the first label is the initial day |
| Activity.Runs | index.js:167-171 | the runs are no longer than the input, and the last run is the last day |
| Activity.RunsAdjacentDiffer | index.js:168-170 | neighbouring labels differ: a label is pushed only where the day changes |
| Activity.RunsRepeatedHead | index.js:163-165 | a starting day equal to the first day adds no run |
| Activity.DayScanRuns | index.js:163-172 | the labels followed by the final `prevDate` are the runs of the initial day followed by the kept days, so the final day is never pushed |
| Activity.DatesCount | index.js:166-172 | the number of labels is the number of runs less one, that is, the number of day changes |
| Activity.CountedSum | index.js:161-178 | `total` after the loop: it grows by each amount that is not excluded (a definition; `TotalIsKeptSum` proves it is the sum of the kept amounts) |
| Activity.XpOf | index.js:173-179 | the `xp` object after the loop: one value per key; its meaning is proved in `XpOfSnoc`, `XpLastWrite`, `XpHasKeptDays`, `XpOnlyKeptDays` and `XpKeysAreRuns` |
| Activity.XpOfSnoc | index.js:173-179 | an excluded transaction changes neither `xp` nor `total`; a kept one writes the running total, including its own amount, under its day |
| Activity.XpDistinct | index.js:173-179 | `xp` never lists a day twice |
| Activity.XpHasKeptDays | index.js:173-179 | every kept transaction's day is a key of `xp` |
| Activity.XpOnlyKeptDays | index.js:174-177 | a day is a key of `xp` only when a kept transaction falls on it, so excluded transactions create no entry |
| Activity.TotalIsKeptSum | index.js:174-179 | after the loop, `total` is the sum of the amounts that are not excluded |
| Activity.XpLastWrite | index.js:173-179 | last write wins: a day holds the running total up to and including its last kept transaction |
| Activity.LastKeyIsLastKeptDay | index.js:173-179 | with days in runs, the last key is the last kept transaction's day, and it holds the whole total |
| Activity.ExcludedLast | index.js:175 | an excluded last transaction leaves `xp` and `total` exactly as the earlier ones made them |
| Activity.KeptLast | index.js:176-178 | a kept last transaction whose day is new, or is already the last key, leaves that day as the last key holding the whole total |
| Activity.RepeatedDayIsLastKey | index.js:173-179 | with days in runs, a kept transaction whose day is already present falls on the last key |
| Activity.XpMonotone | index.js:173-179 | with days in runs and no negative kept amount, the `xp` values in key order never decrease and none exceeds the total |
| Activity.XpKeysStep | index.js:174-178 | one more transaction adds its day to the keys unless it is excluded or the day is already present |
| Activity.XpKeysAreRuns | index.js:173-179 | with days in runs, the `xp` keys are the runs of the kept days |
| Activity.DatesMissFinalDay | index.js:163-179 | with days in runs and the oldest transaction kept, the labels followed by the final day are the `xp` keys, so there is one label fewer than there are `xp` values |
| Activity.FirstKeptDay | index.js:163-165 | the first kept day is the oldest transaction's day when that transaction is kept |
| Activity.DayBoundaries | index.js:161-172 | the first `forEach` gives exactly the labels and final `prevDate` of `DayScan` |
| Activity.AccumulateXp | index.js:173-179 | the second `forEach` gives exactly the `xp` and `total` of `XpOf` and `CountedSum` |
| Activity.TransformActivity | index.js:154-179 | the array is reversed; the skills, the labels seeded with the oldest transaction's day, `xp` and `total` are their specification functions of the reversed array |
| Charts.XpChartAsWritten | index.js:187-194 | (a definition) the line chart as built, the `dates` labels against every `xp` value; its consequences are proved in `FinalDayUnlabelled`, `LabelsAsWritten` and `ExcludedOldestMislabels` |
| Charts.FinalDayUnlabelled | index.js:163-194 | with days in runs and the oldest transaction kept, the chart as built has one point more than labels; the labels are the `xp` days but the last; the unlabelled point is the total |
| Charts.TwoDaysOneLabel | index.js:163-194 | two kept transactions on two days give the labels `["d1"]` against the points `[10, 30]` |
| Charts.LabelsAsWritten | index.js:163-194 | with days in runs, the chart as built labels its points with the runs of the oldest transaction's day followed by the kept days, all but the last, while the points are the values under the runs of the kept days |
| Charts.ExcludedOldestMislabels | index.js:163-194 | an excluded oldest transaction on day P before 10 XP on day K gives labels `["P"]` against points `[10]`, and P is no `xp` day |
| Charts.XpChart | index.js:187-194 | (a definition) the corrected chart, one label per point, the label being the `xp` day at that position; its meaning is proved in `XpChartLabelsEveryPoint` |
| Charts.XpChartLabelsEveryPoint | index.js:173-194 | in the corrected chart every kept day has a label and each point is the value stored under its label; with days in runs, the labels are the kept days' runs and the last point is the total, on the day of the last kept transaction |
| Charts.SkillLabel | index.js:230 | a known skill shows its display name; the heading equals the key exactly when the key is unknown |
| Charts.DoughnutSlices | index.js:243 | two slices: the amount, and what is left of 100; both lie in 0..100 when the amount does |
| Charts.SkillPanels | index.js:225-243 | one panel per skill key, in key order, with the key as canvas id, its heading and its slices; no two panels share a canvas id when the object lists each key once, as `SkillsMap` guarantees |

## Left out

- Strings are modelled as sequences of Unicode characters, while JavaScript
  counts UTF-16 code units in `slice`, `startsWith`, `includes` and `split`.
  No behaviour is lost: every fixed string the core compares or cuts at
  (`;`, `=`, `token`, `piscine-go`, and the `skill_` prefix that the
  query's `_like: "skill_%"` guarantees) is ASCII, one unit per character.
- Network I/O is not modelled. `fetch`, the GraphQL query texts, the HTTP
  headers and the `btoa` Basic-auth encoding become reply inputs. The
  requests sent are recorded as values.
- The compound profile query of `showInfo` (index.js:101-147) and its
  error branch (index.js:148-152) are not modelled: they are network I/O.
  The transformation starts from the query's data.
- A failure of `res.json()` is not modelled. Nor is a sign-in reply whose
  body is not a string; its text is taken as given. A network failure of the
  sign-in `fetch` is modelled: nothing catches it, so `signIn` stops after
  the credentials are sent.
- Concurrency is not modelled. `async`/`await` is shown as sequential
  steps. The `showInfo` call that `validateJWT` does not await is modelled
  only up to its first `await`: the content is shown, then the profile
  query is sent.
- The browser's cookie jar is not modelled. `cookie` is the text that
  `document.cookie` reads back.
  - A token write is modelled as the read-back becoming `token=<value>`.
    Other cookies and cookie attributes are not modelled, nor is the
    browser cutting a value at `;`.
  - The filter assignments (index.js:32-34, 41-43) assign an array. They
    are modelled as their evident effect: the segments that do not start
    with `token`, joined with `;`. That is what the code means to do, not
    what the browser does. The array is converted with `toString()`, which
    joins with `,`, and a cookie of only `token=abc` becomes the assignment
    `document.cookie = ""`, which deletes nothing.
- The DOM is not modelled: element lookups, class lists, `innerHTML`, the
  user's profile fields (index.js:181-186), canvas creation and Chart.js
  rendering. The page state keeps only the flags the session flow sets.
- `e.preventDefault()` and how the form fields are read are not modelled.
  The username and password are inputs.
- `toLocaleString()` and `Date` parsing are not modelled. The day label is
  the parameter `dayOf`.
  - The labels' second `split(', ')[0]` (index.js:190) is not modelled. It
    is assumed to leave a label that is already cut at `", "` unchanged.
- Floating point is not modelled. Amounts are integers, so `Math.floor` is
  the identity.
- JavaScript's ordering of integer-like object keys is not modelled. Keys
  are kept in insertion order.
- The `event` object (index.js:154-156) is not modelled: the code never
  uses it.
- `console.log` output is not modelled.
- Activity.TransformActivity: requires a non-empty transaction array.
  The script reads `transaction[transaction.length - 1]` without a guard,
  so it fails on an empty list.
- Charts.SkillLabel: does not model keys inherited from
  `Object.prototype` (such as `constructor`). For those keys,
  `skillNames[key]` is truthy and is shown instead of the key.
- Activity.XpMonotone and Activity.XpKeysAreRuns: both need the days of the
  kept transactions to form runs (`DaysContiguous`). With days A, B, A the
  day A keeps its first position, and the values need not increase along
  the keys.
- Excluded-transaction invariance is stated per step (`XpOfSnoc`) and
  through `XpOnlyKeptDays`. There is no lemma that removing every
  excluded transaction at once leaves `xp` unchanged.

## Findings

| source | as written | input that shows it | evidently intended | confidence | as-written member | corrected member |
|---|---|---|---|---|---|---|
| index.js:163-194 | the line chart's labels are `dates`, which never receives the final day, against every value of `xp` | two kept transactions of 10 and 20 XP on days d1 and d2: labels `["d1"]`, points `[10, 30]` | every point labelled with its day, the last point (the total) included | not executed | Charts.FinalDayUnlabelled | Charts.XpChartLabelsEveryPoint |
| index.js:163-165 | `prevDate` starts at the oldest transaction's day even when that transaction is excluded, so its day is pushed as the first label | 5 XP on day P with path `piscine-go/a`, then 10 XP on day K with path `/x`: labels `["P"]`, points `[10]` | each point labelled with the day its value is stored under | not executed | Charts.ExcludedOldestMislabels | Charts.XpChartLabelsEveryPoint |
