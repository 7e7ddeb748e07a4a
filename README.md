# Community waste-reporting backend, modelled in Dafny

This project models the domain core of a neighbourhood waste-reporting service
(`backend/index.js`). Residents (`warga`) of a neighbourhood (an RT) submit one
report per day with four waste quantities. The report earns points and waits
as `pending`. An administrator (`pengurus`) of the same RT approves or rejects it.
The leaderboard ranks RTs by the points of their approved reports.
Beside that core sit a rule-based waste classifier and a per-IP rate limiter.

Modules, one per component of the source:

- `Common` (`common.dfy`): `Option`, `Result`, and JavaScript's `Math.round` on reals.
- `Scoring` (`scoring.dfy`): quantities, the daily cap and the points formula.
- `Classifier` (`classifier.dfy`): `/classify`, keyword matching, recommendation, eco-score and suggestion.
- `RateLimit` (`rate_limit.dfy`): the rate-limiting middleware. It is a class over the map from IP to window, with the clock passed as a parameter.
- `Tables` (`tables.dfy`): the rows of the four tables, the table constraints, and `.get()` as "first matching row".
- `Queries` (`queries.dfy`): the read-only endpoints `/login` and `/pending-reports/:rt_id`, and the pengurus check.
- `Leaderboard` (`leaderboard.dfy`): the `/leaderboard` group-by as pure functions, with lemmas on how decisions and insertions move it.
- `Sorting` (`sorting.dfy`): `ORDER BY ... DESC`, a permutation that is non-increasing in the key.
- `Store` (`store.dfy`): the database as class `Database`. It holds the tables as sequences plus the AUTOINCREMENT counters. Its methods are the endpoints that write: `/register`, `/report`, `/approve-report` and `/challenges/complete`.

Quantities are modelled as whole numbers. This is an assumption, listed under
"Left out": the source accepts any number. With whole numbers the points formula,
read over the reals, is the integer expression
`max(0, (5*organic + 2*plastic + electronic + other + 5) div 10)`.
The eco-score `round(max(0, 100 - (3p + 5e + 2x + 0.5o)))` likewise has an exact
integer form. Lemmas prove that each integer form equals the real-valued formula
rounded as `Math.round` rounds. The source computes in doubles; where that differs
is listed under "Left out".

The model keeps these behaviours of the code as written:

- Approving a report does not check the approver's `status`, and it does not refuse a report that was already decided. A decided report is decided again, so an approved report can become rejected and its points leave the total (`Leaderboard.RejectingApprovedReport`).
- Any action other than `"approve"` rejects.
- A challenge award is a report row with no user and default status `pending`. Its points therefore count only after approval. It never appears in the pending list, which inner-joins on `users`.
- The leaderboard has no tie-break. `Leaderboard.Ranking` returns one permitted order, and its contract admits every order that is sorted by total.

The database follows two assumptions about the SQLite build, listed under
"Left out". First, foreign keys are declared but not enforced, so registration
and challenge completion accept an RT id that does not exist. Login joins users
with `rts`, so a user whose RT does not exist cannot log in. Second, the SQL's
double-quoted `"active"` and `"pengurus"` are read as string literals.

## Model

| member | source | states |
|---|---|---|
| `Common.RoundHalfUp` | backend/index.js:172 | `Math.round`: the result is the integer n with n - 0.5 <= x < n + 0.5 |
| `Common.RoundTenths` | backend/index.js:172 | rounding k tenths equals (k + 5) div 10 |
| `Common.RoundHalves` | backend/index.js:269 | rounding k halves equals (k + 1) div 2 |
| `Scoring.Points` | backend/index.js:172 | points are never negative |
| `Scoring.PointsIsRoundedWeightedSum` | backend/index.js:172 | the integer formula equals max(0, round(0.5*organic + 0.2*plastic + 0.1*electronic + 0.1*other)) for every integer quantity |
| `Scoring.PointsMonotone` | backend/index.js:172 | raising any quantity never lowers the points |
| `Scoring.PointsWithinCap` | backend/index.js:167-172 | a report within the 50-per-category cap earns at most 45 points |
| `Scoring.PointsExample` | backend/index.js:172 | organic 10 and plastic 5 earn 6 points |
| `Classifier.Lower` | backend/index.js:250 | the result has the same length and no ASCII capital; each capital becomes the small letter at the same place in the alphabet; every other character is kept |
| `Classifier.LowerIdempotent` | backend/index.js:250 | lower-casing twice is lower-casing once |
| `Classifier.ContainsIffOccurs` | backend/index.js:251 | the `includes` scan succeeds exactly when the word occurs at some position of the text |
| `Classifier.CategoryIsFirstMentioned` | backend/index.js:247-260 | the category is mentioned in the lower-cased text, no category of higher priority (plastic, then organic, then electronic) is, and `other` means none is |
| `Classifier.CategoryIgnoresCase` | backend/index.js:250 | texts equal after lower-casing get the same category |
| `Classifier.EcoScore` | backend/index.js:264 | the eco-score is never negative |
| `Classifier.EcoScoreIsRoundedClampedPenalty` | backend/index.js:264-269 | the integer eco-score equals round(max(0, 100 - (3p + 5e + 2x + 0.5o))) |
| `Classifier.EcoScoreInRange` | backend/index.js:264-269 | for non-negative quantities the eco-score lies in [0, 100] |
| `Classifier.EcoScoreAntitone` | backend/index.js:264 | raising any quantity never raises the eco-score |
| `Classifier.Suggestion` | backend/index.js:270 | the "reduce" suggestion exactly when the total waste exceeds 10, the "good job" one otherwise |
| `Classifier.Classify` | backend/index.js:243-272 | the response carries the category of the text (the first mentioned group, by `CategoryIsFirstMentioned`), the eco-score and the suggestion of the quantities; its recommendation is its category's, the category is `other` exactly when no keyword group is mentioned, the eco-score is in [0, 100] for non-negative quantities, and the suggestion follows the total |
| `Classifier.ClassifyBottleExample` | backend/index.js:251-253 | "botol plastik bekas" is classified as plastic |
| `Classifier.EcoScoreExample` | backend/index.js:264-269 | organic 20 alone scores 90 |
| `RateLimit.Admit` | backend/index.js:15-36 | a request passes unless the IP's unexpired window is full; a new or expired window restarts at count 1, ending windowMs from now; inside a live window a passed request adds one and a refused one changes nothing |
| `RateLimit.AdmitKeepsBound` | backend/index.js:19-35 | every decision keeps the count at least 1 and, with a limit of at least 1, at most the limit |
| `RateLimit.LiveWindowAllowance` | backend/index.js:25-35 | while the window is live, the requests that pass plus the window's count never exceed the limit |
| `RateLimit.AtMostMaxPerWindow` | backend/index.js:13-41 | from a fresh IP, at most max(maxRequests, 1) requests pass within windowMs of the first one, and the first always passes |
| `RateLimit.AppLimiterAllowsThirtyPerMinute` | backend/index.js:41 | the installed limiter (30 requests, 60000 ms) lets at most 30 requests from a fresh IP through within a minute of its first |
| `RateLimit.RateLimiter.constructor` | backend/index.js:12-13 | the limiter starts with an empty map and its two parameters |
| `RateLimit.RateLimiter.Request` | backend/index.js:14-37 | the answer and the IP's new window are those of `Admit`; a refusal changes nothing; no other IP's entry changes; counts stay within the limit |
| `Tables.Find` | backend/index.js:158 | `.get()`: the first row that matches, or none exactly when no row matches |
| `Sorting.Insert` | backend/index.js:186 | inserting into a sorted sequence keeps it sorted and adds exactly that element |
| `Sorting.SortDesc` | backend/index.js:186 | `ORDER BY ... DESC`: the result is sorted non-increasingly and is a permutation of the input |
| `Queries.Login` | backend/index.js:124-130 | an empty phone is refused; a success is an active user with that phone joined with their existing RT; "not found" exactly when no such pair exists |
| `Queries.LoginFindsPhoneOwner` | backend/index.js:127-129 | with unique phones and RT ids, login returns exactly the active owner of the phone and the name of their RT |
| `Queries.AuthorizedFor` | backend/index.js:196-197 | authorized exactly when some user has the id, role pengurus and that RT, whatever their status |
| `Queries.PendingJoin` | backend/index.js:199-202 | every row is a pending report of the RT joined with its user's name, and every such report that joins with a user has its row |
| `Queries.PendingReports` | backend/index.js:191-205 | refused exactly when the caller is not a pengurus of the RT; otherwise a permutation of the joined pending reports, newest first |
| `Queries.PendingListContents` | backend/index.js:199-203 | a report is listed exactly when it is a pending report of the RT whose user exists; a report without a user (a challenge award) is never listed |
| `Queries.PendingJoinOncePerReport` | backend/index.js:199-203 | the join gives each row as many times as its report occurs in the table: one row per report occurrence, never duplicated by the join |
| `Queries.PendingRowsDistinct` | backend/index.js:199-203 | with strictly ascending report ids (the AUTOINCREMENT key), every row of the pending list occurs exactly once |
| `Leaderboard.Ranking` | backend/index.js:178-188 | the rows are the per-RT groups, in non-increasing order of total points |
| `Leaderboard.RankingOneRowPerRt` | backend/index.js:183-185 | exactly one row per RT, RTs without reports included, each holding that RT's approved-points sum and approved and pending counts |
| `Leaderboard.ReplaceEffect` | backend/index.js:180-182 | replacing one report changes an RT's total and counts by the old row's share out and the new row's share in |
| `Leaderboard.DecidingPendingReport` | backend/index.js:180-182 | approving a pending report adds its points and moves it from pending to approved in its RT's row; rejecting only removes it from pending; other RTs are unaffected |
| `Leaderboard.RejectingApprovedReport` | backend/index.js:218-220 | rejecting an already approved report takes its points out of its RT's total |
| `Leaderboard.AddingPendingReport` | backend/index.js:180-182 | a new pending report (a submission or challenge award) only adds one to its RT's pending count |
| `Store.DecidedStatus` | backend/index.js:218 | "approve" gives approved; every other action gives rejected, never pending |
| `Store.Database.constructor` | backend/index.js:97-120 | the seeded database: three RTs, two residents and two pengurus, one 50-point challenge, no reports |
| `Store.Database.Register` | backend/index.js:132-146 | refused when a field is missing or the phone is taken; otherwise one active `warga` user with the next id is appended and nothing else changes; the new user can log in when their RT exists |
| `Store.Database.Submit` | backend/index.js:153-176 | fails at the first failing check (user id missing, no active user, already reported that day, a category over 50) with no change; otherwise appends exactly one pending report in the user's RT with the day, quantities and computed points, and returns its id and points |
| `Store.Database.Decide` | backend/index.js:207-223 | fails with no change on a missing field, an unknown report or a caller who is not a pengurus of the report's RT; otherwise only that report's status (approved for "approve", rejected otherwise) and verifier change, even if it was already decided |
| `Store.Database.CompleteChallenge` | backend/index.js:231-240 | fails with no change on a missing field or an unknown challenge; otherwise appends one pending report with no user, the given RT, today's date and the challenge's points, and returns the points and its id |
| `Store.SubmitTwice` | backend/index.js:161-164 | after a successful submission, a second one by the same user for the same day is refused |
| `Store.ApproveAndRank` | backend/index.js:218-220 | approving a pending report adds its points to its RT's leaderboard total |

Every `Store.Database` method keeps `Valid()`. `Valid()` holds when RT ids are
unique, user and report ids increase and stay below the next id, and phones are
unique. It also requires at most one user report per (user, date), and that
every user report is within the cap and carries the points of its quantities.

## Left out

- HTTP transport: Express, CORS, body parsing, the request-logging middleware and `app.listen`. These are I/O.
- The default arguments of `rateLimit` (60 requests per 60000 ms, backend/index.js:13). The only call passes both values (backend/index.js:41), so the defaults never apply; `APP_MAX_REQUESTS` and `APP_WINDOW_MS` are the values used.
- The SQLite driver, the DDL and transactions. The tables are sequences. Concurrent check-then-insert races are outside sequential semantics.
- `/rts` and `/challenges`, which return `SELECT *` unchanged, and are not modelled as operations.
- Store.Database.Register: assumes foreign keys are not enforced, so an unknown `rt_id` registers successfully. A build that enforces them would answer with the 500 "Registration failed" branch (backend/index.js:143) and insert nothing; that branch is not modelled.
- Store.Database.CompleteChallenge: assumes foreign keys are not enforced, so an unknown `rt_id` gets an award row. A build that enforces them would throw at the insert (backend/index.js:238) and insert nothing.
- Queries.Login: assumes the double-quoted `"active"` is a string literal. A build that rejects double-quoted strings would fail to prepare the query (backend/index.js:127).
- Store.Database.Submit: assumes the double-quoted `"active"` is a string literal (backend/index.js:158); otherwise every submission would fail after the user-id check.
- Store.Database.Decide: assumes the double-quoted `"pengurus"` is a string literal (backend/index.js:215); otherwise every decision would fail after the report lookup.
- Queries.PendingReports: assumes the double-quoted `"pengurus"` is a string literal (backend/index.js:196); otherwise every listing would fail.
- The clock. `now` (milliseconds, and `created_at` instants) and `today` (the calendar day) are parameters. Timestamps are abstract naturals ordered as the ISO strings are, and a NULL `created_at` sorts last in a descending order.
- Scoring.Points: quantities are modelled as integers and the weighted sum is computed exactly over the reals. The source accepts fractional numbers (a column with INTEGER affinity stores 1.5 as REAL), and it sums in doubles. The IEEE-754 rounding of `0.2` and `0.1` makes some whole-number inputs land just below a half, so the source awards one point less than `Points`: organic 1, plastic 9, electronic 3, other 9 sums to 3.4999999999999996 in doubles, which `Math.round` turns into 3, while `Points` gives 4 (the exact sum is 3.5). This affects 22,962 of the 51^4 within-cap tuples. The eco-score formula has no such case for quantities in [-5, 50].
- Classifier.EcoScore: the same integer assumption. `/classify` stores nothing and computes in doubles on whatever numbers it receives.
- JavaScript coercion of request fields. Ids are optional integers and "missing" is absent or 0 (`Present`). A missing date is the empty string. Missing quantities arrive as 0. Numeric strings and string concatenation in `totalWaste` are not modelled.
- Unicode `toLowerCase`. Only ASCII letters are lower-cased.
- The IP lookup `req.ip || req.connection.remoteAddress`. The IP is a parameter. `rateLimitMap` is shared by every limiter the module would create; the application installs one, modelled as one `RateLimiter` object.
- `.get()` returns the first matching row in table (rowid) order. With unique ids and phones there is at most one match wherever that matters.
