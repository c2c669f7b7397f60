# LeetCode profile scraper core, modelled in Dafny

The scraper logs into LeetCode with a headless browser. It opens a user's
profile page and listens to the browser's network events for the two GraphQL
requests the page issues: the recent accepted submissions and the contest
ranking history. Once both have finished loading, it fetches their response
bodies and converts the decoded entries into the service's submission and
contest records. A helper, `evaluateUnixTimeStamp`, turns relative phrases such
as "2 years 3 months" into instants.

This project models the three pieces of logic in `main.go` that do not drive
the browser:

- `relative_time.dfy` (module `RelativeTime`) models `evaluateUnixTimeStamp`.
  It is an imperative method with the source's loop, which steps over the words
  two at a time and updates `seconds`, `second` and `err`. The method is proved
  against a functional specification (`Step`, `Scan`, `Evaluate`). The lemmas
  about that specification cover the per-unit weights, the
  "second"/"seconds" quirk, the error of the last parse, ignored words,
  monotonicity and an end-to-end round trip through rendered phrases. The clock
  is an injected integer `now`, in seconds.
- `strings.dfy` (`Strings`) and `strconv.dfy` (`Strconv`) model the library
  calls the parser depends on: `strings.Contains`, `strings.Split(s, " ")` and
  `strconv.ParseInt(s, 10, 64)`. The ParseInt model keeps Go's error values:
  0 on a syntax error, the clamped bound on a range error. Each call has a
  partner: `Join` for Split, and a decimal renderer for ParseInt, each with a
  round-trip lemma.
- `correlator.dfy` (`ResponseCorrelator`) models the `ListenTarget` closure of
  `fetchDetails`. It is a class whose fields are the captured variables, plus
  one handler method per event kind. The `done` channel becomes a count of
  sends. A pure `Step`/`Run` specification describes a whole event stream, and
  the lemmas about it cover binding and re-binding, the count-down, readiness,
  and false or repeated signals.
- `records.dfy` (`Records`) models the end of `fetchDetails`. Two loops append
  submission and contest records. A method retrieves the bodies by the bound
  ids and decodes them; retrieval and JSON decoding are injected functions.
- `wrappers.dfy` holds `Option` and `Result`.

The model keeps the code's behaviour where it departs from what the code
evidently means to do:

- The hour unit is spelled "houbyter", so the singular "hour" is not recognised.
- A "second"/"seconds" pair adds the magnitude kept from the previous parse,
  not its own.
- A failed magnitude does not discard the total: the instant is returned
  together with the error of the last parse, and a later successful parse
  clears an earlier failure.
- A later matching request re-binds a tracked id.
- While an id is unbound it is the empty string, so a finish carrying the
  empty id counts down.
- The readiness signal is sent again on every later finish while the count is
  zero.
- Submission timestamps are copied verbatim, with status "AC".

## Model

| member | source | states |
|---|---|---|
| `Strings.Contains` | main.go:103 | true exactly when the needle occurs at some offset of the text (the test behind the marker check and the payload tests) |
| `Strings.Split` | main.go:108 | at least one piece, no piece contains a space, and joining the pieces with single spaces gives the input back |
| `Strings.SplitJoin` | main.go:108 | splitting the space-joined list of space-free words gives the words back |
| `Strconv.AccumulateDigits` | main.go:119 | the digit loop succeeds exactly on all-digit strings whose value fits in 64 bits and then yields that value; a range error (value 2^64-1) exactly when an all-digit prefix exceeds 2^64-1 before any non-digit is met (`PrefixOverflows`), otherwise a non-digit is a syntax error with value 0 |
| `Strconv.ParseInt` | main.go:119 | result always within int64; no error exactly when the string is an optional sign followed by digits whose value fits in int64, and then the value is that number; a syntax error with value 0 exactly when the string is not a signed digit string and its digits do not overflow before the first non-digit ("", "-", "abc", "12x"); a range error gives MinInt64 after a '-' sign and MaxInt64 otherwise |
| `Strconv.ParseDecimalString` | main.go:119 | every int64 rendered in decimal parses back to itself without error |
| `RelativeTime.EvaluateUnixTimeStamp` | main.go:101-153 | a phrase containing "few seconds ago" gives `now` and no error; otherwise it gives `now` minus the total `Scan` accumulates over the `Split` words (`Scan` repeats `Step`, which adds `UnitSeconds` times the parsed magnitude), together with the error of the last parse, even when that error is set; the result is always `Evaluate(timeString, now)`, the function the lemmas below are about |
| `RelativeTime.FewSecondsAgoIsNow` | main.go:103-105 | any phrase containing the marker evaluates to exactly `now` with no error |
| `RelativeTime.ScanAppend` | main.go:112-151 | reading an even number of words first and then the rest equals reading all words |
| `RelativeTime.TrailingWordIgnored` | main.go:112 | an unpaired last word never changes the total, the kept value or the error |
| `RelativeTime.RecognisedPairAddsWeight` | main.go:115-145 | a pair with a weighted unit adds its parsed magnitude times the weight (year 31536000, month 2592000, week 604800, day 86400, "houbyter"/"hours" 3600, minute 60), keeps the magnitude, and sets the error to this parse's outcome, clearing any earlier one |
| `RelativeTime.SecondsPairAddsLastParse` | main.go:146-149 | a "second"/"seconds" pair adds the value kept from the last parse, and its own magnitude token has no effect on the rest of the evaluation |
| `RelativeTime.UnrecognisedPairIgnored` | main.go:115-150 | inserting a pair with any other unit (including the singular "hour") anywhere on a pair boundary changes nothing |
| `RelativeTime.StepMonotone` | main.go:115-150 | one pair with a magnitude parsing to at least as much never lowers the total or the kept value |
| `RelativeTime.ScanMonotone` | main.go:112-151 | words with the same units and magnitudes parsing to at least as much give a total at least as large |
| `RelativeTime.EvaluateMonotone` | main.go:101-153 | for a fixed `now`, raising magnitudes never makes the instant later |
| `RelativeTime.ScanSpanWords` | main.go:112-151 | the words of rendered (magnitude, unit) spans accumulate the spans' offset (weighted magnitudes, plus for each "seconds" span the nearest weighted magnitude before it) with no error |
| `RelativeTime.EvaluateRendered` | main.go:101-153 | the phrase rendered from int64 spans with space-free units never holds the "few seconds ago" marker and evaluates to `now` minus their `Offset`, with no error |
| `RelativeTime.OffsetIsWeightedSum` | main.go:115-145 | without "second"/"seconds" spans the offset is the sum of magnitude times weight |
| `RelativeTime.TwoYearsThreeMonths` | main.go:101-153 | "2 years 3 months" evaluates to `now` - (2 * 31536000 + 3 * 2592000), with no error |
| `ResponseCorrelator.Correlator.constructor` | main.go:198-202 | both ids start as the empty string, the count at 2 and no signal sent |
| `ResponseCorrelator.Correlator.OnRequestWillBeSent` | main.go:206-212 | a payload containing "recentAcSubmissions" binds the submissions id; otherwise one containing "userContestRankingInfo" binds the contest id; the count and the signals are untouched |
| `ResponseCorrelator.Correlator.OnLoadingFinished` | main.go:214-225 | a finish of either bound id lowers the count by exactly one, any other id leaves it; a signal is sent whenever the count is then zero |
| `ResponseCorrelator.Correlator.Handle` | main.go:203-228 | the listener's new state is `Step` (the type switch of the closure) applied to the old state |
| `ResponseCorrelator.Listen` | main.go:198-228 | a fresh listener fed a stream of events ends in `Run(Initial, events)`, the steps applied in order |
| `ResponseCorrelator.RequestsNeverCount` | main.go:206-212 | a stream without finish events changes neither the count nor the signals |
| `ResponseCorrelator.RemainingNeverIncreases` | main.go:214-221 | the count never rises and falls by at most one per event |
| `ResponseCorrelator.SubmissionIdIsLastMatch` | main.go:208-209 | the submissions id is the id of the last request whose payload contains the submissions marker |
| `ResponseCorrelator.ContestIdIsLastMatch` | main.go:210-211 | the contest id is the id of the last request whose payload contains the contest marker but not the submissions marker (the submissions test takes precedence) |
| `ResponseCorrelator.UnboundIdsUnchanged` | main.go:206-221 | with no binding request in the stream, the ids keep their values |
| `ResponseCorrelator.BoundIdsComeFromRequests` | main.go:198-212 | every id held is the empty string or the id of a request in the stream that bound it |
| `ResponseCorrelator.UnrelatedFinishesNeverSignal` | main.go:214-225 | from the start, a stream whose finish events all carry non-empty ids that no request in the stream bound keeps the count at 2 and sends no signal |
| `ResponseCorrelator.TrackedPairSignalsOnce` | main.go:198-225 | two distinct requests with one marker each, sent and finishing in either order: the first finish leaves the count at 1 with no signal, the second brings it to 0 with exactly one signal |
| `ResponseCorrelator.TrackedPairOneAtATime` | main.go:198-225 | the same two requests, each finishing before the other is sent, in either order: the first finish leaves the count at 1 with no signal, the second brings it to 0 with exactly one signal |
| `ResponseCorrelator.SignalRepeatsAfterCompletion` | main.go:223-225 | once the count is zero, every further finish of an id that is not bound leaves the state as it is but sends one more signal |
| `ResponseCorrelator.NoSignalBelowZero` | main.go:216-225 | once the count is below zero (a bound id finished more than once), no further event sends a signal |
| `ResponseCorrelator.EmptyIdMatchesUnbound` | main.go:198-220 | in any state, a finish with the empty id counts down by one exactly when one of the two ids is still unbound (""), and otherwise leaves the count |
| `Records.Int32Of` | main.go:295 | the int32 conversion gives a value in the int32 range, congruent to the input modulo 2^32, and equal to the input when the input fits |
| `Records.NormalizeSubmissions` | main.go:271-280 | one record per raw submission, in order, with the title as problem name, the timestamp unchanged, status "AC", and the code URL built from the fixed prefix and the id |
| `Records.NormalizeContests` | main.go:283-300 | the records are `AttendedRecords(entries)`: `ContestRecordOf` of each attended entry, in input order |
| `Records.AttendedIndices` | main.go:285-290 | the positions kept are increasing, all attended, and include every attended position |
| `Records.AttendedRecordsSelect` | main.go:285-297 | the k-th record of `AttendedRecords` is `ContestRecordOf` the k-th attended entry, and there are as many records as attended entries |
| `Records.AttendedRecordsAppend` | main.go:285-300 | converting a concatenation gives the two parts' records in order |
| `Records.ContestIdIsTitle` | main.go:292-296 | every contest record's id equals its name, the contest title |
| `Records.MiddleUnattendedDropped` | main.go:287-290 | of three entries with the middle one not attended, exactly the first and the third give records, in that order |
| `Records.FetchRecords` | main.go:242-300 | the submissions body is fetched by the submissions id and decoded first, then the contest body by the contest id; the first failure is returned alone; on success the records are the normalised entries of the right body |

## Left out

- `logIntoLeetCode` (main.go:79-99) is a fixed list of browser actions (navigate, type, click, sleep) with no logic of its own.
- `listenForNetworkEvent` (main.go:155-185) is never called. It fetches and prints response bodies from inside the callback.
- `getSubmissionDetails` and `fetchAdditionalSubmissionDetails` (main.go:187-194, 310-327) navigate and scrape the page.
- `getBar`, `logWithTimeStamp` and `main` (main.go:329-394) handle progress bars, logging, environment loading, contexts and timeouts.
- In `fetchDetails`, the navigation and its `log.Fatal` (main.go:230-234) are left out, and so is the blocking receive on `done` (main.go:239).
- `network.GetResponseBody` is the injected `retrieve`, which gives a body or nothing.
- `json.Unmarshal` is the injected decoders, which give the entries or nothing. Go's error values are reduced to the failing request id.
- `RelativeTime.EvaluateUnixTimeStamp` uses unbounded integers for the total. Go's int64 wrap-around is not modelled: not in `second * weight`, not in `seconds`, and not in the `time.Duration` nanosecond conversion. The clock (`time.Now`) is the parameter `now`, and the RFC 3339 formatting is left out.
- The text functions (`Strings.Contains`, `Strings.Split`, `Strconv.ParseInt`) work on characters where Go works on bytes. This agrees with Go for ASCII input.
- Concurrency is not modelled. The listener runs on the browser's event goroutine, and a second send on the unbuffered `done` channel blocks it. The model only counts the sends.
- Events other than RequestWillBeSent and LoadingFinished are the single `Ignored` event, and the model does not record their content.
- `UserContestRankingHistory.Rating` (main.go:62) is the only floating-point value the model carries. It is an opaque 64-bit value (`ContestHistoryEntry.rating`) that is copied into the contest record and never computed with. The fields of `ConsestData` (main.go:49-54) are not modelled, because the code never reads them. Its `Rating` and `TopPercentage` are among them.
- The contest response type is corrupt as written. The `ConsestData` declaration at main.go:48 has stray text, and it lacks the `UserContestRankingHistory` field that main.go:284 reads. The model takes the decoded contest payload to be the list of `UserContestRankingHistory` entries (main.go:56-69).
- The `serviceUtilities` record types are not part of this model. Their fields are the ones the code sets (main.go:273-278, 291-297, 317-319).
