# Golf scorecard core, modelled in Dafny

The app is a golf scorecard with a small social side. Its core has four parts:

- **The scoring engine** (`lib/scoring.ts`) computes several results from a player's playing handicap and each hole's par, gross score and stroke index:
  - the handicap strokes received on each hole,
  - the net score,
  - the app's points for the hole,
  - gross, net and points totals over a list of holes, with a front/back split.
- **The Victorian course importer** (`scripts/importVicCourses.ts`):
  - It reads a CSV of tees with these columns: club, course, suburb, tee name, 18 pars, 18 yardages, 18 stroke indexes and a slope.
  - It splits each line into fields. Quotes toggle whether a comma separates fields.
  - It skips short lines.
  - It groups tees into courses keyed by club and course.
  - It gives each course a slug id.
- **The course service** (`lib/courseService.ts`) works over the fixed course list:
  - search by text,
  - lookup by id,
  - a tee's pars and their total.
- **The app store** (`contexts/AppContext.tsx`) holds the signed-in user's chip balance, the feed of posts, the giveaways and the queue of coin animations. It provides the operations the screens call on them.

The Dafny modules mirror that layout:

- `Scoring` (`scoring.dfy`)
- `Courses` (`courses.dfy`)
- `VicImport` (`importer.dfy`)
- `AppContext` (`app_context.dfy`)

They rest on three small modules:

- `Wrappers` holds `Option`.
- `Seqs` holds `find`, `filter` and `reduce` as `FirstWhere`, `Filter` and `Sum`.
- `Text` holds the JavaScript string operations the core uses:
  - the white space that `\s` matches and `trim` removes (one set, since the two coincide),
  - `toLowerCase`,
  - `trim`,
  - `includes`.

Each source file is modelled in its own form:

- The scoring and course functions are Dafny functions.
- `calculateTotals` and `calculateSplit` are methods. Each loop is proved against a recursive specification function.
- `parseCsvLine` and the loop of `parseCSV` are likewise methods with invariants, proved against specification functions.
- The store is a class. Its fields are the React state, and each callback is a method with `modifies this`.

Observations about the source that the model makes precise:

- **The points table is inverted.** `stablefordPoints` gives `4 + (net - par)`, clamped to 0..6. A net bogey scores 5 points and a net eagle 2. A scratch player who pars every hole scores 4 a hole. A player off 18 who pars every hole is a net birdie on each, and scores only 3 a hole.
  - The model follows the code: `StablefordPoints`, `StablefordRisesWithNet`, `Handicap18LevelParRound`.
- **The par check in the importer can never fire.** `parseCSV` only gets past its column check with at least 58 fields, and then the par slice always has 18 entries, so the `par.length !== 18` test always passes. For the same reason, yardages and stroke indexes are always present.
- **Rows are grouped by the string `club-course`, not by the pair.** Two different club/course pairs whose joined strings coincide are merged into one course (`EqualKeysMerge`).

## Model

| member | source | states |
|---|---|---|
| Scoring.ShotsReceived | lib/scoring.ts:7-20 | 0 to 2 strokes. None for a handicap of 0 or less. Up to 18, exactly one stroke on the holes whose index is at most the handicap. Above 18, one on every hole and a second exactly where the index is at most handicap-18 |
| Scoring.ShotsOnIndexesCount | lib/scoring.ts:7-20 | for every n, the strokes over indexes 1..n total min(n, handicap), or n + min(n, handicap-18) above 18 |
| Scoring.TotalShotsAllocated | lib/scoring.ts:7-20 | over the 18 indexes the strokes handed out equal the handicap clamped to 0..36 |
| Scoring.ShotsAreRoundRobin | lib/scoring.ts:7-20 | for handicaps 0..36 the allocation is handicap/18 on every hole plus one on the handicap%18 hardest |
| Scoring.NetScore | lib/scoring.ts:22-24 | net score plus strokes received is the gross score; receiving strokes never raises the score above gross |
| Scoring.StablefordPoints | lib/scoring.ts:26-40 | points lie in 0..6. A net of 0 (unplayed) scores 0. Otherwise the points are 4 + (net - par), clamped to 0..6 |
| Scoring.StablefordRisesWithNet | lib/scoring.ts:26-40 | among played holes, a higher net score never earns fewer points |
| Scoring.CalculateHoleScore | lib/scoring.ts:42-58 | strokes are always computed. An unplayed hole (gross <= 0) has net and points 0. A played hole's net plus its strokes is its gross, and its points follow the table. Points lie in 0..6 |
| Scoring.RoundTotals | lib/scoring.ts:60-90 | the points total of n holes lies in 0..6n |
| Scoring.CalculateTotals | lib/scoring.ts:60-90 | the loop's three running sums equal the totals of the whole list |
| Scoring.TotalsAppend | lib/scoring.ts:60-90 | the totals of a concatenation are the sum of the totals of its parts |
| Scoring.GrossTotalIgnoresHandicap | lib/scoring.ts:80 | the gross total does not depend on the handicap |
| Scoring.UnplayedRoundTotalsNothing | lib/scoring.ts:60-90 | a round with no hole played totals zero on every count |
| Scoring.PlayedRoundNetTotal | lib/scoring.ts:60-90 | once every hole is played, net total = gross total - strokes received |
| Scoring.ScratchLevelParRound | lib/scoring.ts:53-55 | a scratch player parring every hole scores 4 points a hole, net equal to gross |
| Scoring.Handicap18LevelParRound | lib/scoring.ts:53-55 | a player off 18 parring every hole scores 3 points a hole, net one below gross per hole |
| Scoring.CalculateSplit | lib/scoring.ts:92-113 | out = totals of the first splitAt holes, in = totals of the rest, total = all holes and also out plus in; with splitAt past the end, in is zero |
| Seqs.FirstWhere | lib/courseService.ts:47 | the index found satisfies the predicate and no earlier one does; none exactly when nothing satisfies it |
| Seqs.Filter | lib/courseService.ts:38-43 | the kept elements satisfy the predicate and come from the input, in order (a subsequence), and every element that satisfies it is kept as often as it occurs |
| Seqs.Sum | lib/courseService.ts:61 | a sum of non-negative values is non-negative |
| Seqs.SumBounds | lib/courseService.ts:61 | a sum of n values in lo..hi lies in n*lo..n*hi |
| Text.LowerChar | lib/courseService.ts:37 | an upper-case letter A-Z becomes its lower-case partner (code point + 32); any other character is unchanged; white space and word characters stay what they are |
| Text.Lower | lib/courseService.ts:37 | same length; each letter A-Z becomes its lower-case partner a-z (code point + 32), every other character is unchanged |
| Text.LowerAppend | lib/courseService.ts:37 | lower-casing distributes over concatenation |
| Text.LowerIdempotent | lib/courseService.ts:37 | lower-casing twice is lower-casing once |
| Text.Trim | lib/courseService.ts:33 | the result neither starts nor ends with white space; it is the slice between the leading and the trailing white space |
| Text.TrimKeeps | scripts/importVicCourses.ts:47 | trimming only removes characters |
| Text.TrimIdentity | scripts/importVicCourses.ts:47 | a string that neither starts nor ends with white space trims to itself |
| Text.TrimEmpty | lib/courseService.ts:33 | a string trims to nothing exactly when it is all white space |
| Text.Contains | lib/courseService.ts:40-42 | the empty needle is in every string; a needle that is in a string is no longer than it |
| Text.ContainsOccurs | lib/courseService.ts:40-42 | `includes` holds exactly when the needle occurs at some index |
| Courses.CourseService.ListVicCourses | lib/courseService.ts:32-44 | a blank query returns every course. Otherwise the result is the courses, in order, whose lower-cased club, course or suburb includes the lower-cased query, each as often as in the list, and no others |
| Courses.IsBlankQuery | lib/courseService.ts:33 | a query is blank exactly when it is absent or consists only of white space (the empty string included) |
| Courses.Matches | lib/courseService.ts:39-42 | a course matches exactly when the query occurs at some position in its lower-cased club, course or suburb |
| Courses.CourseService.GetCourseById | lib/courseService.ts:46-49 | the first course with the id; none exactly when no course has it |
| Courses.GetTee | lib/courseService.ts:64-66 | the first tee with the name; none exactly when no tee has it |
| Courses.GetPars | lib/courseService.ts:51-57 | the named tee's pars; else the first tee's; a course without tees gives no pars |
| Courses.GetTotalPar | lib/courseService.ts:59-62 | a course without tees totals 0 |
| Courses.TotalParBounds | lib/courseService.ts:59-62 | 18 holes of par 3..5 total 54..90 |
| Courses.ListIgnoresQueryCase | lib/courseService.ts:37 | the search gives the same courses for a query and its lower-cased form |
| VicImport.StripSymbols | scripts/importVicCourses.ts:44 | the result is the input with every character other than word characters, white space and '-' deleted: a subsequence of the input, only kept characters, and each kept character as often as in the input; a string of such characters is unchanged |
| VicImport.SquashFrom | scripts/importVicCourses.ts:45-46 | every output character is '-' or an input character outside the run class; the empty suffix gives nothing; the output starts with '-' at a run and with the character itself elsewhere |
| VicImport.SquashRuns | scripts/importVicCourses.ts:45-46 | every output character is '-' or an input character outside the run class (how runs and other stretches are rewritten: SquashKeeps, SquashRun) |
| VicImport.SquashKeeps | scripts/importVicCourses.ts:45-46 | a stretch without run characters is copied into the output unchanged, in order |
| VicImport.SquashRun | scripts/importVicCourses.ts:45-46 | a maximal run of class characters becomes exactly one '-' |
| VicImport.SquashNoDoubleDash | scripts/importVicCourses.ts:46 | after squashing dash runs no two dashes are adjacent |
| VicImport.SquashIdentity | scripts/importVicCourses.ts:45-46 | squashing leaves unchanged a string whose run characters are isolated dashes |
| VicImport.StrippedLower | scripts/importVicCourses.ts:43-44 | after lower-casing and stripping, only lower-case word characters, white space and '-' remain |
| VicImport.Slugify | scripts/importVicCourses.ts:41-48 | every slug consists of a-z, 0-9, '_' and '-', has no two adjacent dashes, and contains no white space |
| VicImport.SlugifyWords | scripts/importVicCourses.ts:41-48 | two words separated by white space slugify to the lower-cased words joined by one '-' ("Royal Melbourne" to "royal-melbourne") |
| VicImport.SlugifyIdentity | scripts/importVicCourses.ts:41-48 | a string that is already a slug is its own slug |
| VicImport.SlugifyIdempotent | scripts/importVicCourses.ts:41-48 | slugifying twice is slugifying once |
| VicImport.CsvFields | scripts/importVicCourses.ts:50-70 | a line always yields at least one field |
| VicImport.ParseCsvLine | scripts/importVicCourses.ts:50-70 | the loop's fields equal the field specification of the line |
| VicImport.ScanChar | scripts/importVicCourses.ts:58-65 | a character adds one field exactly when it is a comma outside quotes, and flips the quoting exactly when it is a quote |
| VicImport.ScanCount | scripts/importVicCourses.ts:55-66 | the fields a scan adds are the commas outside quotes in the rest of the line |
| VicImport.CsvFieldCount | scripts/importVicCourses.ts:50-70 | a line has one field more than it has commas outside quotes |
| VicImport.ScanCharClean | scripts/importVicCourses.ts:58-65 | one step keeps every completed field trimmed and quote-free |
| VicImport.ScanClean | scripts/importVicCourses.ts:55-66 | a scan keeps every completed field trimmed and quote-free |
| VicImport.CsvFieldsClean | scripts/importVicCourses.ts:50-70 | every field is trimmed and contains no quote character |
| VicImport.SplitOn | scripts/importVicCourses.ts:74 | at least one part, none containing the separator |
| VicImport.JoinSplitOn | scripts/importVicCourses.ts:74 | joining the parts with the separator gives back the string |
| VicImport.TrimAll | scripts/importVicCourses.ts:61 | each part trimmed, in order |
| VicImport.DataLines | scripts/importVicCourses.ts:74 | the data lines are the non-blank lines of the file, in order, each as often as it occurs |
| VicImport.ScanQuoteFree | scripts/importVicCourses.ts:55-66 | without quotes, the scan from any state outside quotes splits at every comma and trims |
| VicImport.QuoteFreeLineIsSplit | scripts/importVicCourses.ts:50-70 | a line without quotes parses to its comma-separated parts, each trimmed |
| VicImport.Numbers | scripts/importVicCourses.ts:88-90 | each field converted in place |
| VicImport.ParseRow | scripts/importVicCourses.ts:81-96 | no row exactly when there are fewer than 58 fields. Otherwise: club, course, suburb and tee from the first four fields; 18 pars, 18 yardages and 18 stroke indexes, each converted from fields 4-21, 22-39 and 40-57; a slope exactly when a 59th field exists and is non-empty |
| VicImport.RowsOf | scripts/importVicCourses.ts:78-96 | no more rows than lines |
| VicImport.NewCourse | scripts/importVicCourses.ts:101-110 | the new course has the row's key |
| VicImport.CourseId | scripts/importVicCourses.ts:99 | every course id is a slug |
| VicImport.AddRow | scripts/importVicCourses.ts:101-119 | one course more exactly when the key is new; existing courses keep their keys; the row's tee is appended to the tees of the course with its key, which is a new course when the key is new |
| VicImport.GroupRows | scripts/importVicCourses.ts:76-120 | no more courses than rows |
| VicImport.GroupRowsAppend | scripts/importVicCourses.ts:78-120 | grouping one more row is adding that row to the grouping so far |
| VicImport.AddRowNew | scripts/importVicCourses.ts:101-119 | a row with an unseen key appends a new course holding just its tee |
| VicImport.ReadRow | scripts/importVicCourses.ts:81-96 | the destructuring, the column check and the par check give the row `ParseRow` describes; the check for 18 pars never fails |
| VicImport.AddRowTo | scripts/importVicCourses.ts:98-119 | the insert-or-extend step gives the specification's grouping step |
| VicImport.ParseCsv | scripts/importVicCourses.ts:72-123 | the courses returned are those of the specification of the file's content |
| VicImport.GroupLines | scripts/importVicCourses.ts:78-122 | the loop from the second data line builds the grouping of the rows of all lines after the header |
| VicImport.TeesFor | scripts/importVicCourses.ts:113-119 | a key collects no more tees than there are rows |
| VicImport.TeesForAppend | scripts/importVicCourses.ts:113-119 | a new row adds its tee to its own key's tees only |
| VicImport.TeesForAbsent | scripts/importVicCourses.ts:113-119 | a key no row has has no tees |
| VicImport.CourseForAppend | scripts/importVicCourses.ts:101-119 | how one more row changes the course described for a key |
| VicImport.KeysSpec | scripts/importVicCourses.ts:76-122 | keys are distinct, and a key is listed exactly when some row has it |
| VicImport.CourseForKey | scripts/importVicCourses.ts:98-110 | the course described for a key has that key |
| VicImport.KeysAppend | scripts/importVicCourses.ts:101 | a row adds its key exactly when it is new, at the end |
| VicImport.DescribedKeys | scripts/importVicCourses.ts:122 | the j-th course has the j-th key in first-appearance order |
| VicImport.AddRowToKnown | scripts/importVicCourses.ts:112-119 | a row with a known key keeps the grouping correct |
| VicImport.AddRowToNew | scripts/importVicCourses.ts:101-119 | a row with a new key keeps the grouping correct |
| VicImport.GroupRowsSpec | scripts/importVicCourses.ts:76-122 | the result has one course per key, in first-appearance order. Each course takes club, course, suburb and id from the key's first row, and its tees are the tees of all rows with that key, in order |
| VicImport.ImportedAreGrouped | scripts/importVicCourses.ts:72-123 | the import is the grouping of the accepted rows |
| VicImport.RowsWellFormed | scripts/importVicCourses.ts:86-119 | every accepted row's tee has 18 pars, 18 yardages and 18 stroke indexes |
| VicImport.TeesForWellFormed | scripts/importVicCourses.ts:113-119 | grouping keeps tees well-formed |
| VicImport.TeesForHas | scripts/importVicCourses.ts:112-119 | each row's tee lands among its key's tees |
| VicImport.ImportedCourseShape | scripts/importVicCourses.ts:98-119 | every imported course has state VIC, an id that is the slug of its club and course, at least one tee, and only well-formed tees |
| VicImport.ImportedKeysDistinct | scripts/importVicCourses.ts:76-122 | no two imported courses share a key |
| VicImport.EveryRowImported | scripts/importVicCourses.ts:112-119 | every accepted row's tee is in the course of its key |
| VicImport.EqualKeysMerge | scripts/importVicCourses.ts:98-119 | two rows with the same joined key become one course with both tees, even when their club and course differ |
| AppContext.LikeToggled | contexts/AppContext.tsx:47-60 | one post out per post in |
| AppContext.LikeToggledEffect | contexts/AppContext.tsx:47-60 | matching posts flip their flag, and their likes move by one toward the new flag; other posts and other fields are unchanged |
| AppContext.LikeToggledTwice | contexts/AppContext.tsx:47-60 | toggling twice restores the posts |
| AppContext.LikeToggledKeepsOthersLikes | contexts/AppContext.tsx:54 | likes minus the user's own like never change |
| AppContext.Commented | contexts/AppContext.tsx:62-82 | one post out per post in |
| AppContext.CommentedEffect | contexts/AppContext.tsx:62-82 | matching posts get exactly the new comment at the end of their comments; nothing else changes |
| AppContext.CommentedNoMatch | contexts/AppContext.tsx:62-82 | without a matching post the posts are unchanged |
| AppContext.Entered | contexts/AppContext.tsx:88-98 | one giveaway out per giveaway in |
| AppContext.EnteredEffect | contexts/AppContext.tsx:88-98 | matching giveaways gain exactly one entry; nothing else changes |
| AppContext.WithoutAnimation | contexts/AppContext.tsx:43-45 | no animation with the id remains; every other one stays, in order and as often as it was queued |
| AppContext.WithoutAbsent | contexts/AppContext.tsx:43-45 | removing an id that is not queued changes nothing |
| AppContext.WithoutAnimationIdempotent | contexts/AppContext.tsx:43-45 | removing twice is removing once |
| AppContext.QueueThenRemove | contexts/AppContext.tsx:29-45 | queueing an animation under a fresh id and removing it by that id restores the queue |
| AppContext.AppState.constructor | contexts/AppContext.tsx:17-21 | the initial user, posts and giveaways, no animations, 3 notifications |
| AppContext.AppState.UpdateChips | contexts/AppContext.tsx:23-41 | the balance moves by the amount; an animation is queued exactly for a gain with a position; animations stay positive |
| AppContext.AppState.RemoveCoinAnimation | contexts/AppContext.tsx:43-45 | the queue loses exactly the animations with the id; the rest of the state is unchanged |
| AppContext.AppState.ToggleLike | contexts/AppContext.tsx:47-60 | the posts are toggled; the rest of the state is unchanged |
| AppContext.AppState.AddComment | contexts/AppContext.tsx:62-84 | the comment by the current user goes on the matching posts; the user earns 10 chips even when no post matched; giveaways and animations are unchanged |
| AppContext.AppState.EnterGiveaway | contexts/AppContext.tsx:86-103 | Entry succeeds exactly when the balance covers the cost. Success adds one entry and takes the cost from the balance, which stays non-negative for a non-negative cost. Failure changes nothing. Posts and animations never change |

## Left out

- The last-used-course storage (`saveLastUsedCourse`, `getLastUsedCourse`, `clearLastUsedCourse` in `lib/courseService.ts:68-99`) is left out. It is asynchronous device storage with JSON encoding.
- Loading the course list from the bundled JSON file, and the exported service singleton, are left out. A `CourseService` value is built from any list of courses.
- The service's `async` wrappers are left out. The search and the lookup are modelled as plain functions.
- Reading the CSV file, the importer's `main`, writing the JSON output and the console warnings are left out. `ParseCsv` starts from the file's content.
- The warning branches are kept as skips.
- `Number(...)` is left out and becomes the parameter `num`, a function from a field to an integer. NaN and fractional values are outside the model.
- JavaScript numbers (doubles) are modelled as unbounded integers. Fractional pars, scores and handicaps are not modelled.
- Scoring.StablefordPoints: the final fallback `return 0` is reached only when every comparison fails: a fractional difference strictly between two of the table's integers, or a NaN net or par. Neither exists on integers, so the model has no such branch.
- Scoring.CalculateSplit: `splitAt` is a natural number. The negative and fractional values that `slice` would accept are not modelled.
- `toLowerCase` is modelled on ASCII letters only. Other letters are kept as they are. So are characters whose JavaScript lower-case form is ASCII, such as the Kelvin sign.
- `Date.now()` and `new Date().toISOString()` become the parameters `now` and `timestamp`. Id collisions between calls in the same millisecond are not modelled.
- AppContext.AppState.AddComment uses one `now` and one `timestamp` for every matching post. The source calls `Date.now()` and `new Date().toISOString()` once per matching post, so the ids and timestamps could differ between posts.
- React's asynchronous, batched state updates are not modelled: each store method applies its updates at once. The stale closure in `enterGiveaway` is not modelled either. That closure reads `user.chips` from the last render, so two entries in one render can both pass the check.
- The hook wrapper (`useApp`, the memoised value) and the UI components are left out. So are the mock users, posts and giveaways, the user's badges and statistics, and the read-only `notifications` count beyond its initial value.
