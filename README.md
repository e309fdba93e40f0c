# heimon: a Dafny model of the probe's parser, states, checks and tracker

heimon watches a Furcadia game server. Each cycle it does four things:

- It logs a character in and walks the connection through a small state
  machine: Dragonroar, then AUTH, then the `which` test, then closing.
- It parses the replies to the `which` command into heimdall, horton and
  tribble records.
- It runs a chain of result checks that raise alerts.
- It keeps a tracklist of heimdalls, so it can tell when one has stopped
  showing up.

This project models those parts and proves what they promise. It is split
into these modules:

- `Wrappers`: `Option` and `Result`.
- `PyText`: the Python built-ins the core relies on, on byte strings:
  - `bytes.split`, with and without a split limit
  - `bytes.isdigit` and `int()`
  - `str()` of an integer
  - `str.replace` of one character
- `Regex`: the part of Python's `re` that the three reply grammars use.
  - The grammars use literal bytes, an unescaped `.`, and the groups
    `(\d+)`, `(.*)` and `(\w*)`.
  - `MatchAt` is a greedy backtracking matcher.
  - `FindFirst` is the leftmost hit, i.e. `findall(...)[0]`.
  - `Occurs` / `Matches` is an independent relational reading.
  - Lemmas prove that the matcher and the relational reading agree.
- `Parsers`: `WhichStringParser`.
  - the three grammars
  - coercion of the captured groups (`int` when all digits, else text)
  - the record builders
  - `parse`, which tries the grammars in dictionary order and reports only
    the first one that matches
- `States`: the connection states, each a class with the fields its
  handlers update.
  - The session a state drives is a `Session` object that keeps a trace of
    the calls made on it.
  - What one line does to a state is also given as a pure function; the
    handlers are proved against those functions.
- `Alerts`: the alert messages, and the alert buffer with `alert` and
  `flush_alert_buffer`.
- `Tracker`: `HeimdallTracklist`, as a class over a dictionary of entries.
  Functions on values specify it: insertion, "seen", and the stamping of
  missing entries.
- `Checks`: the seven result checks, the `TestRunner` chain that stops at
  the first check that does not pass, and a runner class that drives the
  shared tracker and alert buffer.

Conventions used throughout the model:

- Times are `real` seconds, passed in as `now` wherever the source calls
  `time()`.
- A byte string is a `string` with one character per byte.
- A Python exception that leaves a handler or a check is an explicit
  outcome: `ValueError`, `IndexError`, `TypeError` or `KeyError`.

## Model

| member | source | states |
|---|---|---|
| PyText.ShowNat | heimon/states.py:65 | `str(n)` of a natural is a non-empty run of digits that starts with `0` only for zero |
| PyText.DecimalValueShowNat | heimon/states.py:65 | reading back the digits `str` writes gives the same natural number |
| PyText.PyIntShowInt | heimon/states.py:65 | `int()` of the text `str()` writes for any integer, negative ones included, gives that integer back |
| PyText.PyIntOfDigits | heimon/parsers.py:23 | on a non-empty run of digits, `int()` succeeds and equals the decimal value |
| PyText.TrimLeft | heimon/states.py:65 | what is left after dropping leading white space is a suffix of the input that does not start with white space |
| PyText.TrimRight | heimon/states.py:65 | what is left after dropping trailing white space is a prefix of the input that does not end with white space |
| PyText.Split | heimon/states.py:65 | `split(sep)` gives at least one piece, and no piece contains the separator |
| PyText.JoinSplit | heimon/states.py:65 | joining the pieces of `split(sep)` with the separator gives the input back |
| PyText.SplitJoin | heimon/states.py:65 | splitting the join of separator-free pieces gives those pieces back |
| PyText.SplitCount | heimon/states.py:65 | `split(sep)` yields one more piece than there are separators |
| PyText.Find | heimon/states.py:123 | the index found holds the first occurrence of the byte; with no index, the byte does not occur |
| PyText.SplitMax | heimon/states.py:123 | `split(sep, maxsplit)` gives between 1 and maxsplit + 1 pieces |
| PyText.SplitMaxPieces | heimon/states.py:123 | every piece of `split(sep, maxsplit)` except the last is free of the separator, and the last is too when fewer than maxsplit splits were made |
| PyText.JoinSplitMax | heimon/states.py:123 | joining the pieces of `split(sep, maxsplit)` gives the input back |
| PyText.SplitMaxCount | heimon/states.py:123 | `split(sep, maxsplit)` makes exactly min(occurrences, maxsplit) splits |
| PyText.Replace | heimon/states.py:94-95 | `replace(a, b)` keeps the length and changes exactly the occurrences of `a`, each into `b` |
| PyText.ShowIntNoSpace | heimon/states.py:65 | the decimal text of an integer holds no space |
| Regex.Run | heimon/parsers.py:3-10 | a greedy group run stays inside the text, covers only bytes the group accepts, and stops at the first byte it does not accept |
| Regex.AtomPieces | heimon/parsers.py:3-10 | the literal lead-in of a field contributes one piece per atom and no capture |
| Regex.MatchAtSound | heimon/parsers.py:16 | every hit of the backtracking matcher satisfies the relational reading of the grammar, with its captures |
| Regex.BacktrackSound | heimon/parsers.py:16 | every hit found by backing off a greedy group satisfies the relational reading |
| Regex.SkipThenRest | heimon/parsers.py:3-10 | a literal or `.` piece, followed by a match of the rest, is a match of the whole |
| Regex.CaptureThenRest | heimon/parsers.py:3-10 | a group capture of allowed bytes, followed by a match of the rest, is a match of the whole with that capture first |
| Regex.MatchAtComplete | heimon/parsers.py:16 | whenever the grammar fits the text at a start position, the backtracking matcher finds a hit there |
| Regex.BacktrackReaches | heimon/parsers.py:16 | backing off from a longer greedy run reaches every shorter run length at which the rest matches |
| Regex.SearchFromSound | heimon/parsers.py:16 | a hit of the leftmost search is a match of some segment at or after the start |
| Regex.SearchFromComplete | heimon/parsers.py:16 | if any segment at or after the start matches, the leftmost search finds a hit |
| Regex.SearchFromLeftmost | heimon/parsers.py:16-24 | the captures the search returns, as `findall(...)[0]`, are those the matcher finds at some start, and no stretch of the line starting earlier fits the grammar with any captures |
| Regex.NoMatchWhereMatcherFails | heimon/parsers.py:16 | where the matcher fails at a position, no stretch starting there fits the grammar |
| Regex.BacktrackGreedy | heimon/parsers.py:16 | a leading group with room for `k` bytes takes the most bytes after which the rest of the grammar matches: the rest matches at its end and at no longer take, and the hit is that group's text followed by the rest's captures |
| Regex.MatchAtGreedy | heimon/parsers.py:16 | a match starting with a group gives the group the longest run of fitting bytes after which the rest of the grammar matches |
| Regex.FindFirstIffOccurs | heimon/parsers.py:16-17 | `findall` is non-empty exactly when the grammar occurs somewhere in the line, and its first hit fits there |
| Regex.SearchIgnoresSurroundings | heimon/parsers.py:16-17 | a line that embeds a matching segment between arbitrary text is matched |
| Regex.GroupsAppend | heimon/parsers.py:3-10 | the groups of concatenated pieces are the concatenation of the groups |
| Regex.GroupsOfAtoms | heimon/parsers.py:3-10 | literal lead-ins hold no capture group |
| Regex.FieldGroups | heimon/parsers.py:3-10 | a grammar has exactly one capture group per field |
| Regex.GroupsOfFlatten | heimon/parsers.py:3-10 | the groups of the expanded grammar are the fields' groups, in order |
| Regex.MatchesShape | heimon/parsers.py:16 | a match has one capture per group, each of the length and bytes its group allows |
| Regex.FindFirstShape | heimon/parsers.py:16-24 | the first hit has one capture per field, and each capture fits its group |
| Parsers.Coerce | heimon/parsers.py:23 | a capture becomes an integer exactly when it is all digits, in which case it is `int()` of it and non-negative; otherwise it stays the text |
| Parsers.CoerceShowNat | heimon/parsers.py:23 | the decimal text of a natural number is coerced back to that number |
| Parsers.ParseHeimdall | heimon/parsers.py:29-43 | the heimdall record holds the seven captured values, each in its named field, none lost or reordered |
| Parsers.ParseHorton | heimon/parsers.py:45-58 | the horton record holds the seven captured values, each in its named field |
| Parsers.ParseTribble | heimon/parsers.py:60-75 | the tribble record holds the nine captured values, each in its named field |
| Parsers.Build | heimon/parsers.py:79-83 | the record built for a grammar is of that grammar's kind |
| Parsers.TryHandle | heimon/parsers.py:14-27 | data is produced exactly when the grammar occurs in the line; there is one value per group, and every `(\d+)` group yields an integer |
| Parsers.Handle | heimon/parsers.py:85-88 | a reply produced by trying one grammar is of that grammar's kind |
| Parsers.HandleMisses | heimon/parsers.py:85-88 | trying one grammar yields nothing exactly when that grammar does not occur in the line |
| Parsers.FirstSome | heimon/parsers.py:85-89 | the first present result is absent exactly when all results are absent, and otherwise is one of them |
| Parsers.FirstSomeHit | heimon/parsers.py:85-88 | a result that follows only absent ones is the first present one |
| Parsers.Parse | heimon/parsers.py:77-89 | `parse` returns true exactly when some grammar matches; the callback then runs once, with the first matching grammar's record, and otherwise never |
| Parsers.ParseNoMatch | heimon/parsers.py:85-89 | `parse` finds nothing exactly when none of the three grammars occurs in the line |
| Parsers.ParseFirstWins | heimon/parsers.py:79-88 | when a grammar occurs and no earlier grammar in dictionary order does, `parse` reports that grammar's record |
| Parsers.HeimdallFieldsAreInts | heimon/parsers.py:4 | every `(\d+)` field of a parsed heimdall record is an integer |
| Parsers.HortonFieldsAreInts | heimon/parsers.py:7 | every `(\d+)` field of a parsed horton record is an integer |
| Parsers.TribbleFieldsAreInts | heimon/parsers.py:10 | every `(\d+)` field of a parsed tribble record is an integer |
| States.Session.Record | heimon/states.py:17 | each call a state makes on its session is appended to the session's trace |
| States.ParseUsercount | heimon/states.py:65 | reading `#<current> <max>` fails only with ValueError, and succeeds only when the text holds exactly one space |
| States.ParseUsercountShow | heimon/states.py:65 | the text `<current> <max>` that a server writes reads back as that pair |
| States.UsercountReportsAppend | heimon/states.py:64-67 | the number of user count reports in two traces adds up |
| States.DragonroarOnLine | heimon/states.py:60-71 | once the user count is read it stays read; a `#` line before any count raises ValueError, reports nothing and leaves the flag down exactly when its two numbers do not parse, and otherwise reports exactly the parsed pair and raises the flag; the banner line, and only it, moves to AUTH with the credentials; every other line changes nothing |
| States.DragonroarReadsUsercount | heimon/states.py:64-67 | the line `#<current> <maximum>` the server writes, seen before any count, reports exactly those two numbers, raises the flag and raises no exception |
| States.DragonroarReports | heimon/states.py:64-67 | one line reports the user count exactly when it sets the read flag: at most once, and never when the count was already read |
| States.UsercountReportedOnce | heimon/states.py:64-67 | over any sequence of lines, the user count is reported at most once, and not at all when it was already read |
| States.DragonroarState.constructor | heimon/states.py:52-55 | a new Dragonroar state holds the credentials and has not yet read the user count |
| States.DragonroarState.Process | heimon/states.py:60-71 | handling a line appends to the trace and updates the flag exactly as the one-line function says, and raises what it raises |
| States.DragonroarState.Exit | heimon/states.py:73-75 | leaving the state clears the credentials |
| States.DragonroarState.Idle | heimon/states.py:77-79 | a quiet connection before the banner reports the Dragonroar timeout error |
| States.SanitizeCreds | heimon/states.py:87-95 | sanitised credentials contain no space; each space in the name becomes `\|`, each in the password becomes `_`, and nothing else changes |
| States.SanitizeIdempotent | heimon/states.py:87-95 | sanitising twice is the same as sanitising once |
| States.ConnectLineFields | heimon/states.py:106-111 | the `connect` line of sanitised credentials splits on spaces into exactly the command word, the name and the password |
| States.RejectionMessage | heimon/states.py:123 | the third space-separated field fails with IndexError exactly when the line holds fewer than two spaces |
| States.RejectionMessageOf | heimon/states.py:122-124 | on a rejection `<a> <b> <message>`, the message comes back whole, spaces included |
| States.AuthOnLine | heimon/states.py:118-127 | a `]#` line with fewer than two spaces raises IndexError; one with two or more reports exactly one error, the text after its second space; the ready marker, and only it, moves to the which test, timed at `now`, and does nothing else; every other line does nothing |
| States.AuthReportsRejection | heimon/states.py:122-124 | a rejection `]#<code> <word> <message>` reports the whole message, spaces included, as its one error |
| States.AuthState.constructor | heimon/states.py:97-99 | a new AUTH state holds the credentials it was given |
| States.AuthState.Enter | heimon/states.py:104-112 | entering sends `connect <name> <password>` with the sanitised credentials and then forgets them; without credentials it raises TypeError and sends nothing |
| States.AuthState.Idle | heimon/states.py:114-116 | a quiet connection during AUTH reports the AUTH timeout error |
| States.AuthState.Process | heimon/states.py:118-127 | handling a line appends to the trace exactly what the one-line function says, and raises what it raises |
| States.TimeoutEffects | heimon/states.py:168-176 | a timeout fires exactly when more than 5 seconds have passed; it then reports the delay and moves to closing, and it never reports a which result |
| States.WhichResultsAppend | heimon/states.py:151-152 | the number of reported which results in two traces adds up |
| States.NoWhichResults | heimon/states.py:151-152 | a trace without which-result calls reports none |
| States.WhichOnLine | heimon/states.py:148-162 | the counter grows by one exactly on a parsed line, which is reported first; the state closes exactly when 3 lines have been parsed or more than 5 seconds have passed, after reporting the delay; the effects are exactly the reported reply, then either the delay and the change to closing (3 lines reached) or what the timeout check adds |
| States.WhichCountsReplies | heimon/states.py:148-166 | over any sequence of lines and idle ticks, the counter never decreases and grows by exactly the number of which results reported; the state closes only after 3 successes or an event more than 5 seconds after the start |
| States.WhichTestState.constructor | heimon/states.py:134-138 | a new which test starts its clock at the time of construction, with a zero counter |
| States.WhichTestState.Enter | heimon/states.py:143-146 | entering resets the counter and sends `which` |
| States.WhichTestState.MaybeTimeout | heimon/states.py:168-176 | the timeout test answers true exactly after more than 5 seconds, and appends the timeout effects |
| States.WhichTestState.Process | heimon/states.py:148-162 | handling a line parses it, and updates the counter and the trace exactly as the one-line function says of the parse result |
| States.WhichTestState.OnParsed | heimon/states.py:151-162 | given the parse result, the counter and trace follow the one-line function |
| States.WhichTestState.Idle | heimon/states.py:164-166 | a quiet connection during the which test only applies the timeout test |
| States.ClosingState.constructor | heimon/states.py:180-181 | a closing state is bound to its session |
| States.ClosingState.Enter | heimon/states.py:186-188 | entering the closing state sends `quit` |
| States.NullState.constructor | heimon/states.py:40-41 | a null state is bound to its session |
| States.NullState.Enter | heimon/states.py:25-26 | entering the null state makes no call on the session |
| States.NullState.Process | heimon/states.py:22-23 | the null state ignores every line |
| States.NullState.Idle | heimon/states.py:31-32 | the null state does nothing when idle |
| States.NullState.Exit | heimon/states.py:28-29 | leaving the null state does nothing |
| Alerts.AlertBuffer.constructor | monitor.py:116 | the alert buffer starts empty |
| Alerts.AlertBuffer.Alert | monitor.py:119-124 | each alert is appended to the end of the buffer |
| Alerts.AlertBuffer.Flush | monitor.py:127-132 | flushing hands back every buffered alert in order and leaves the buffer empty |
| Tracker.Inserted | monitor.py:73-80 | adding an id stores a fresh entry for it (added now, never seen, never reported), leaves other entries alone, keeps the insertion order, and keeps the tracklist well formed |
| Tracker.InsertedAll | monitor.py:67-71 | adding a list of ids keeps the tracklist well formed |
| Tracker.InsertedAllHolds | monitor.py:67-71 | after adding a list of ids, exactly the old ids and the listed ones are tracked; listed ones are fresh, the others unchanged |
| Tracker.MissingAmong | monitor.py:88-93 | the filter only yields tracked ids |
| Tracker.MissingAmongIff | monitor.py:88-93 | an id is yielded by the filter exactly when it is in the order and missing: more than 60 seconds since it was added or last seen |
| Tracker.MissingIdsIff | monitor.py:85-100 | an id is found missing exactly when it is tracked and more than 60 seconds have passed since it was added or last seen |
| Tracker.StampEntry | monitor.py:96-97 | stamping sets the reported-missing time to now exactly for a missing entry, and changes nothing else |
| Tracker.StampAlong | monitor.py:96-97 | stamping keeps the set of tracked ids |
| Tracker.StampAlongEach | monitor.py:96-97 | the stamping loop stamps every entry whose id it visits, and leaves the rest alone |
| Tracker.Stamped | monitor.py:96-97 | the stamped tracklist keeps the order and the tracked ids |
| Tracker.StampedEntries | monitor.py:96-97 | stamping applies the per-entry stamp to every entry and keeps the tracklist well formed |
| Tracker.MissingIdsStamped | monitor.py:85-100 | stamping does not change which heimdalls are missing, at any time |
| Tracker.StampedIdempotent | monitor.py:85-100 | stamping twice at the same time is the same as stamping once |
| Tracker.Seen | monitor.py:102-108 | marking an id seen tracks it (adding it first when unknown), sets its last-seen time to now, clears its reported time, and leaves every other entry alone |
| Tracker.SeenNotMissing | monitor.py:88-108 | a heimdall seen at `t` is not missing at any time up to 60 seconds later |
| Tracker.SeenNotReported | monitor.py:85-108 | a heimdall seen at `t` is not found missing at any time up to 60 seconds later |
| Tracker.StampLoop | monitor.py:93-97 | the loop over the filter stamps exactly as the stamping function says, and visits exactly the missing ids, in order |
| Tracker.Tracklist.constructor | monitor.py:67-71 | a new tracklist holds every listed id, fresh, in order, with the last check at now |
| Tracker.Tracklist.Add | monitor.py:73-80 | `add` inserts a fresh entry as the insertion function says and keeps the tracklist valid |
| Tracker.Tracklist.Get | monitor.py:82-83 | `get` returns the entry exactly when the id is tracked, and nothing otherwise |
| Tracker.Tracklist.FindMissing | monitor.py:85-100 | `find_missing` as its caller needs it (see Findings): it stamps the missing entries and returns the list of the missing ids in insertion order, where the code returns its already-consumed filter over the entries |
| Tracker.Tracklist.UpdateHeimdall | monitor.py:102-108 | `update_heimdall` marks the id seen, and raises the unknown-heimdall alert exactly when the id was not tracked |
| Tracker.Tracklist.UpdateLastCheck | monitor.py:110-111 | `update_last_check` sets the last check time and changes no entry |
| Checks.NoErrorCheck | heimon/tests.py:48-53 | the check fails exactly on an error result, and then alerts with the error message |
| Checks.UserCountPresentCheck | heimon/tests.py:63-67 | the check fails exactly when no user count was collected, and then raises the "not available" alert |
| Checks.UserCountAboveThresholdCheck | heimon/tests.py:80-88 | the check never fails; it alerts exactly when the current count is at or below the threshold; without a threshold it reports the missing setting; with a threshold but no count it raises TypeError |
| Checks.AllComponentsPresentCheck | heimon/tests.py:96-113 | without a heimdall record the check fails with a bug alert; otherwise it alerts once for each absent horton or tribble, and fails exactly when one is absent |
| Checks.WhichDelayCheck | heimon/tests.py:127-137 | the check fails exactly when the delay is above the threshold, reporting the delay and the threshold; without a threshold it reports the missing setting and passes; a missing delay raises KeyError |
| Checks.GlobalIdInSyncCheck | heimon/tests.py:148-158 | the check fails exactly when the heimdall, horton and tribble global ids differ (an absent component counts as -1), and then reports all three; without a heimdall record it raises KeyError |
| Checks.MissingAlerts | heimon/tests.py:182-185 | there is one alert per missing id, in order, giving how long ago that heimdall was last seen |
| Checks.NoHeimdallsMissingCheck | heimon/tests.py:171-187 | without a tracker the check fails with a bug alert; otherwise it records the check time; without a heimdall record it raises KeyError; with one it passes |
| Checks.TrackerPass | heimon/tests.py:177-185 | the tracker pass records the check time and tracks the result's heimdall besides the old ids |
| Checks.NoHeimdallsMissingCheckAsWritten | heimon/tests.py:171-187 | as written, the check leaves the tracker and the verdict as the corrected check does; without a tracker it fails with the bug alert; without a heimdall record it raises KeyError; otherwise its alerts are exactly `update_heimdall`'s unknown-id alert, if any; so it drops the "has been missing" alerts that end the corrected check's list and never raises one |
| Checks.NoHeimdallsMissingUpdates | heimon/tests.py:177-185 | with a tracker and a heimdall record, the new tracker is the tracklist with that heimdall marked seen and the missing entries stamped, at check time now; it tracks the old ids plus that heimdall; there are as many alerts as unknown-id alerts plus missing ids |
| Checks.NoHeimdallsMissingReports | heimon/tests.py:177-185 | an id is reported missing exactly when it is missing after the result's heimdall was marked seen, and the result's own heimdall is never reported |
| Checks.MissingAlertsFor | heimon/tests.py:182-185 | some alert names an id exactly when that id is among the missing ones |
| Checks.MissingHeimdallUnreportedAsWritten | monitor.py:93-100 | with heimdalls 1 and 2 added at time 0 and only 2 reporting at time 100, heimdall 1 is missing, yet the check as written raises no alert for it |
| Checks.ExamplePass | heimon/tests.py:171-187 | illustration on the Findings input: there, the corrected check alerts that heimdall 1 has been missing for 100 seconds |
| Checks.AddTwo | monitor.py:73-80 | illustration, the first step of the Findings input: adding two different ids at one time tracks both in that order, the first one fresh |
| Checks.ExampleMissing | monitor.py:85-100 | illustration on the Findings input: only heimdall 1 is missing |
| Checks.ExampleReport | heimon/tests.py:182-185 | illustration on the Findings input: the alert reports heimdall 1 as last seen 100 seconds ago |
| Checks.RunChecks | heimon/tests.py:21-26 | the runner invokes at most as many checks as there are; it runs all of them unless one stopped it; an exception stops it; a non-empty chain invokes at least the first check |
| Checks.ChainFirst | heimon/tests.py:21-26 | the chain begins with the first check's outcome, and continues only when that check passed |
| Checks.RunStopsAtFirstFailure | heimon/tests.py:21-26 | once a prefix of the checks has stopped the run, appending more checks changes nothing |
| Checks.RunContinues | heimon/tests.py:21-26 | when a prefix of the checks did not stop, the run over a longer list is that prefix's run followed by the run of the rest |
| Checks.ErrorStopsMonitorChecks | heimon/tests.py:40-53 | on an error result, the monitor's chain invokes only the first check and raises only the cycle-failed alert |
| Checks.MonitorChecksRaiseOnlyWithoutDelay | heimon/tests.py:80-158 | the earlier checks guard every other read, so the only exception the monitor's chain can let escape is KeyError, from a result without a delay while a delay threshold is set |
| Checks.ComponentsGuardRaise | heimon/tests.py:96-158 | from the component check on, an absent heimdall record stops the chain before anything raises, so the chain raises only KeyError, and only for an absent delay with a delay threshold set |
| Checks.DelayGuardRaise | heimon/tests.py:127-158 | from the delay check on, with a heimdall record, the chain raises only KeyError, and only when a delay threshold is set but the delay is absent |
| Checks.LastChecksNeverRaise | heimon/tests.py:148-187 | with a heimdall record, the last two checks never raise |
| Checks.TestRunner.constructor | heimon/tests.py:14-19 | a new runner holds its checks and alert sink, an empty configuration and no tracker |
| Checks.TestRunner.Emit | monitor.py:119-124 | raising a list of alerts appends them to the buffer in order |
| Checks.TestRunner.NoHeimdallsMissing | heimon/tests.py:171-187 | on the shared tracker object, the check produces exactly the alerts, tracker and verdict of the corrected check function |
| Checks.TestRunner.ReportMissing | heimon/tests.py:182-185 | the alert loop appends exactly one alert per missing id, in order |
| Checks.TestRunner.RunOne | heimon/tests.py:36-187 | running one check alerts, updates the tracker and returns the verdict exactly as that check's function says |
| Checks.TestRunner.Test | heimon/tests.py:21-26 | `test` emits exactly the alerts of the chain, leaves the tracker as the chain does, and lets escape exactly the exception the chain raises |

## Left out

- The session class that owns the states, `change_state`'s exit-then-enter
  ordering, sockets, `read_chars` / `readini`, and the main loop of
  `monitor.py` are not part of this model. The states record the calls
  they make on the session as a trace of effects instead.
- `time()` is an argument `now`. `sleep`, logging, `print`, `asctime`,
  `sys.stderr` and `do_email` are left out because they are I/O.
- Alerts are structured values, one constructor per message. The
  `%`-formatting of their text, including `%d` applied to floats, is not
  modelled.
- Times and thresholds are exact reals. Floating-point rounding is not
  modelled.
- Bytes are modelled as characters. `.decode('utf-8')` is taken as the
  identity, so a decoding failure on non-ASCII bytes is not modelled.
- `G_RESULT_TESTS` (monitor.py:58) names `TestNoLongerMissingHeimdalls`,
  which is defined nowhere. Building the list would raise NameError. The
  model's `MonitorChecks` is the seven defined checks.
- `freshly_missing_threshold` (monitor.py:162) is read by no check, so it
  is not part of the model's configuration.
- The tracklist's last-check time is written and never read. It is kept
  as a field, and no property depends on it.
- `TestUserCountPresent` tests the truth of `result['usercount']`. The
  model's `None` stands for every falsy value; a count of zero is not a
  separate case.
- The credential dictionary's missing-key `KeyError` in `AuthState.enter`
  is not modelled, because credentials always carry a name and a password.
- `WhichTestState` takes its start time when it is constructed. The model
  follows that code, not a start time taken on `enter`.
- The state handlers that a subclass inherits unchanged from `State`
  (`enter`, `exit`, `idle`) are only modelled where they do something
  beyond `print`.
- The parser relies on dictionaries iterating in insertion order
  (heimdall, horton, tribble), as Python 3.7 and later guarantee.
- Tracker.Tracklist.FindMissing, Checks.TestRunner.NoHeimdallsMissing,
  Checks.TestRunner.RunOne and Checks.TestRunner.Test model the corrected
  `find_missing` (the list of missing ids) and so the corrected
  `TestNoHeimdallsAreMissing`. The code as written, whose check raises no
  "has been missing" alert, is modelled by
  `Checks.NoHeimdallsMissingCheckAsWritten` and listed under Findings.
- `Checks.TestRunner.Test` does not carry the tracklist's validity
  invariant across the run. Its contract ties the run to the chain
  function, which is stated on the tracker's value.

## Findings

| source | as written | input that shows it | evidently intended | confidence | as-written member | corrected member |
|---|---|---|---|---|---|---|
| monitor.py:93-100 with heimon/tests.py:182-185 | `find_missing` returns the `filter` iterator that its own stamping loop has already consumed, so the check's alert loop runs zero times and no missing heimdall is ever alerted | heimdalls 1 and 2 added at time 0; a result for heimdall 2 at time 100 | return the list of the missing ids, so that each one raises a "has been missing" alert (a list of the entries would make `tracker.get(h_id)` at heimon/tests.py:183 fail, since a dictionary is not hashable) | not executed | Checks.NoHeimdallsMissingCheckAsWritten (shown by Checks.MissingHeimdallUnreportedAsWritten) | Checks.NoHeimdallsMissingCheck (proved by Checks.NoHeimdallsMissingReports and Checks.ExamplePass) |
