# check_redis: a verified model of the probe's logic

check_redis is a Nagios probe for a Redis server. It fetches the server's
`INFO` statistics snapshot. It compares named metrics of that snapshot
against warning and critical limits. It prints a status block with
performance data and exits with the Nagios code (0 OK, 1 WARNING,
2 CRITICAL, 3 UNKNOWN). The repository holds two generations of the probe.
This project models the logic of both, from the fetched snapshot to the
returned report, and proves what that logic does.

- `check_redis_2.py` (modules `Checks`, `Reporter`, `Resolver`, `Setup`):
  - `Check` objects carry a value, two limits, a direction and min/max bounds.
  - `Redis` resolves each check's value from the snapshot. It has the derived
    metrics `hit_ratio`, `total_keys` and `total_keys_<db>`, and coerces
    values with `int()`, then `float()`, then keeps the string.
  - `main` assembles the check set from `--include`, `--exclude` and
    `--check-config`.
  - `NagiosReporter.process` visits the checks in sorted name order. It
    returns the status code and the text it prints.
- `check_redis.py` (module `LegacyProbe`):
  - Each requested command gives one value.
  - That value is compared with the limit strings at the same position
    (`<` means below, `>` or no sign means above).
  - The report carries the most severe state over all commands.

Supporting modules:
- `Base`: `Option`, and `Result` with the Python exceptions the code can raise.
- `Text`: `str.split`, `str.replace`, `str.join`, the decimal `int()` and
  `float()` parsers, and number rendering.
- `Info`: the snapshot. It is a sequence of `(name, value)` items in the
  order `keys()` yields them.
- `Ordering`: `sorted()` on strings.

Python exceptions are modelled as `Fail` results rather than excluded by
preconditions. Each such path behaves exactly where the code raises:
KeyError, ValueError, TypeError, ZeroDivisionError, and AttributeError for
the `latency` command. Methods follow the loops of the source. Each one is
proved equal to a specification function, and the lemmas state the
properties of those functions.

Where the repository's description of intended behaviour and the code
differ, the model follows the code. Each difference is pinned down by a
lemma:
- **Status reset.** `process` is not a maximum fold. Every check with a
  value that takes neither the ERROR nor the WARNING branch sets the status
  back to OK. A check skips those branches when the status is already at
  that level or when its limit does not fire. A check without a value, or
  a skipped unforced string, leaves the status alone. So of two critical
  checks the second is never tested as an error, and the run reports OK
  (`Reporter.StepRule`, `Reporter.ResetToOk`, `Reporter.TwoErrorsReportOk`). Only `check_redis.py` takes the maximum
  (`LegacyProbe.WorstIsMaximum`).
- **`total_keys` is not a sum.** It is the `keys` count of the first
  `db`-prefixed item holding a dictionary, because the `return` sits inside the loop
  (`Resolver.TotalKeysIsNotASum`).
- **`total_keys` is not a default check.** Without `--include`, only the
  snapshot's names and `hit_ratio` are offered
  (`Resolver.ListedNamesResolve`).
- **Floats become integers.** `int()` is tried before `float()`, so a hit
  ratio of 0.8 is stored as 0 (`Resolver.CoerceTruncatesFloats`).
- **Configuration fields.** A `--check-config` entry reads the minimum from
  the critical field and the maximum from field 3. The direction comes from
  field 5 only, so the documented `key,warning,critical,d,...` raises
  ValueError (`Setup.ConfigureFields`, `Setup.DirectionLetterRaises`).
- **The core can raise.** A run raises only through a forced value that
  `float()` cannot read, and only when one of its limits is set and
  actually tested. Its error limit is tested only while the status is below ERROR,
  and its warning limit only while it is below WARN (`Reporter.RunRaises`,
  `Reporter.StepRule`). A dictionary item raises TypeError in `int()`, so a
  run without `--include` fails on any server that reports a `db0`
  keyspace, unless `db0` is excluded (`Setup.DefaultRunWithDictRaises`,
  `Setup.DefaultRunWithKeyspaceRaises`). `check_redis.py` divides by zero
  for a server without lookups (`LegacyProbe.HitRatioOfCounters`).

## Model

| member | source | states |
|---|---|---|
| Info.Lookup | check_redis_2.py:143-144 | the lookup finds nothing exactly when no item has the name; otherwise its value is that of an item with the name |
| Info.LookupIsFirst | check_redis_2.py:143-144 | the item found is the first with the name |
| Info.Keys | check_redis_2.py:168 | one name per snapshot item, in the snapshot's order |
| Text.RemoveAll | check_redis.py:50-52 | the result holds no removed character, and exactly the other characters of the input |
| Text.RemoveAllConcat | check_redis.py:50-52 | removal works piece by piece, keeping the pieces in order |
| Text.RemoveAllSingle | check_redis.py:50-52 | a single character is dropped exactly when it is the removed one |
| Text.JoinSplit | check_redis.py:26-31 | joining the parts of a split with the separator gives the original string back |
| Text.SplitJoin | check_redis_2.py:248 | splitting a join of separator-free parts gives those parts back |
| Text.ParseIntRoundTrip | check_redis_2.py:160 | `int()` of the decimal text of an integer is that integer |
| Text.ReadsPointNine | check_redis.py:66-67 | `float()` reads `0.9` as 0.9 |
| Text.ReadsPointNineFive | check_redis_2.py:253-254 | `float()` reads `0.95` as 0.95 |
| Text.ReadsTwoDigits | check_redis_2.py:253-254 | `float()` reads two decimal digits as their two-digit number |
| Text.SplitThree | check_redis_2.py:248 | splitting three separator-free fields joined by the separator gives them back |
| Text.ParseRealNonEmpty | check_redis_2.py:162-163 | only non-empty text reads as a number |
| Text.ParseIntThenReal | check_redis_2.py:160-163 | a string `int()` reads is read by `float()` as the same number |
| Ordering.SortedKeys | check_redis_2.py:66 | the names of the set, each once, in strictly increasing lexicographic order |
| Ordering.SortedPair | check_redis_2.py:66 | two names are visited smaller first |
| Checks.FiringRule | check_redis_2.py:33-44 | a limit fires exactly when value and limit are present, the value reads as a number, and that number is strictly beyond the limit in the check's direction; it raises exactly when the value does not read |
| Checks.EqualityNeverFires | check_redis_2.py:36-38 | a value equal to the limit never fires, ascending or descending |
| Checks.AbsentNeverFires | check_redis_2.py:33-35 | a check without a value is neither a warning nor an error; a missing limit never fires |
| Checks.DirectionsMirror | check_redis_2.py:36-38 | for a numeric value at most one direction fires, and neither fires exactly when the value equals the limit |
| Reporter.ProcessCheck | check_redis_2.py:67-92 | one loop iteration equals the step function: skip, error, warning, unknown or OK branch, the short-circuit order, then the performance entry |
| Reporter.Process | check_redis_2.py:62-97 | the code and text returned equal those of the step function folded over the checks in sorted name order, or the first exception |
| Reporter.RunFailPersists | check_redis_2.py:72-75 | once a check raises, the run ends with that exception |
| Reporter.RunStatus | check_redis_2.py:63-81 | the status stays in -1..2 and is -1 exactly when no check so far was reported with a value |
| Reporter.RunPerformance | check_redis_2.py:68-92 | the performance list holds exactly one entry per check that is not skipped, in visiting order |
| Reporter.StepRule | check_redis_2.py:68-81 | a skipped check changes nothing; below ERROR a firing error limit sets ERROR with an ERROR line and its exception propagates; otherwise below WARN a firing warning limit sets WARN with a WARNING line, its exception likewise; a missing value keeps the status with an UNKNOWN line; a valued check neither branch takes sets OK; every unskipped check appends its performance entry |
| Reporter.ErrorRaises | check_redis_2.py:72-74 | appending a firing error check to a run below ERROR gives ERROR, its ERROR line and its performance entry |
| Reporter.WarningRaises | check_redis_2.py:75-77 | appending a firing warning check whose error limit does not fire to a run below WARN gives WARN, its WARNING line and its performance entry |
| Reporter.RunQuietThenError | check_redis_2.py:67-92 | a quiet valued check followed by a firing error check ends in ERROR with that one ERROR line and both entries in order |
| Reporter.QuietThenErrorReportsCritical | check_redis_2.py:62-97 | for such a pair in name order the report is code 2 with the ERROR line, a newline and a vertical bar, and both entries joined by a newline |
| Reporter.StatusWitness | check_redis_2.py:72-77 | an ERROR status has a reported check whose error limit fired; a WARN status has one whose warning limit fired and error limit did not |
| Reporter.ResetToOk | check_redis_2.py:80-81 | a valued check that can no longer raise the status puts it back to OK, even right after ERROR |
| Reporter.NoLimitsNoAlerts | check_redis_2.py:72-81 | without limits nothing raises or fires; the feedback is the UNKNOWN lines alone and the status is OK once a check has a value |
| Reporter.RunRaises | check_redis_2.py:72-75 | a run raises only through a reported non-numeric value with a limit, and then with ValueError; without such a check it cannot raise |
| Reporter.InOrderCovers | check_redis_2.py:66-67 | every visited check is in the set and every check of the set is visited |
| Reporter.InconclusiveInOrder | check_redis_2.py:66-67 | no visited check has a reported value exactly when no check of the set has one |
| Reporter.ProcessedCode | check_redis_2.py:95-97 | the code lies in 0..3 and is 3 exactly when no check of the set is reported with a value |
| Reporter.ProcessedReport | check_redis_2.py:83-97 | the text is the feedback, a newline and a vertical bar, and the reported checks' performance entries in sorted order joined by newlines; the code is the final status, 3 if never set |
| Reporter.InOrderPair | check_redis_2.py:66 | two checks are visited in name order |
| Reporter.RunTwoErrors | check_redis_2.py:72-81 | after an error, a second error check cannot fire and resets the status to OK |
| Reporter.TwoErrorsReportOk | check_redis_2.py:72-97 | a run of two critical checks returns code 0 |
| Reporter.PerfEntryFields | check_redis_2.py:83-92 | a performance entry splits on `;` into label=value (`U` when absent), warning, critical, minimum and maximum, absent ones empty |
| Resolver.HitRatioOfCounters | check_redis_2.py:116-125 | for integer counters the ratio is None exactly when they sum to zero; otherwise it times the sum is the hits, and it lies in [0, 1] for non-negative counters |
| Resolver.HitRatioWithoutTraffic | check_redis_2.py:124-125 | zero hits and zero misses give None, not 0 and not an exception |
| Resolver.TotalKeysScan | check_redis_2.py:128-137 | the loop returns the count of the first database item, or None when there is none |
| Resolver.FirstDbKeysIsFirst | check_redis_2.py:129-137 | the result is None exactly when no item is a `db` dictionary; otherwise it is the `keys` count (0 when missing) of the first such item |
| Resolver.TotalKeysIsNotASum | check_redis_2.py:129-137 | with `db0` holding 3 keys and `db1` holding 4, `total_keys` is 3 |
| Resolver.GetValueOrder | check_redis_2.py:142-151 | a snapshot item wins as it is; then `hit_ratio` gives the ratio as a float, None, or the ratio's exception; then `total_keys_<db>` gives the database count as an integer, None, or its exception; then `total_keys` gives the first database's count or None; any other name is None |
| Resolver.TotalKeysOfDb | check_redis_2.py:138-148 | with no item of that name, `total_keys_<db>` is None for an absent database, its `keys` count for a dictionary holding one, KeyError for one without, TypeError for a non-dictionary |
| Resolver.DbKeysExample | check_redis_2.py:138-148 | `total_keys_db0` is the `keys` count of `db0`; `total_keys_db1` without `db1` is None |
| Resolver.Truncate | check_redis_2.py:160 | `int()` of a float truncates toward zero |
| Resolver.CoerceTruncatesFloats | check_redis_2.py:159-160 | every float value becomes an integer; 0.8 becomes 0 |
| Resolver.CoerceStrings | check_redis_2.py:159-165 | the text of an integer becomes that integer; a string `int()` refuses and `float()` reads becomes that float (`0.9` stays 0.9); a string kept as a string is one `float()` cannot read |
| Resolver.ResolveOneChangesOnlyValue | check_redis_2.py:155-165 | resolving changes the value field alone, leaves a check whose name resolves to None untouched, and gives a value to one whose name resolves |
| Resolver.ResolveChecks | check_redis_2.py:153-165 | the loop succeeds exactly when every check resolves, with each check resolved; on an exception it is the exception of some check of the set |
| Resolver.ListedNamesResolve | check_redis_2.py:167-170 | the list is the snapshot's names then `hit_ratio`; every snapshot name resolves to a value; `total_keys` is listed only if the snapshot has it |
| Setup.StartChecks | check_redis_2.py:234-241 | one fresh check per included name, forced, or else per listed name, not forced |
| Setup.DropExcluded | check_redis_2.py:243-245 | the set minus the excluded names, every other check unchanged |
| Setup.ConfigureChecks | check_redis_2.py:247-257 | the loop equals applying the configuration entries in turn, stopping at the first ValueError |
| Setup.AssembleChecks | check_redis_2.py:234-257 | the three steps compose into the assembled set |
| Setup.CheckRedis | check_redis_2.py:234-260 | an assembly error is returned; otherwise the checks are resolved and the report is that of the resolved set, or the run raises |
| Setup.ConfigureFields | check_redis_2.py:253-257 | an entry raises ValueError exactly when field 1, 2 or 3, if given, is not a number; otherwise it sets warning from field 1, critical and minimum from field 2, maximum from field 3 (None when not given), and descending only for a `d` in field 5 of six or more fields, leaving name, value and forced flag alone |
| Setup.DirectionLetterRaises | check_redis_2.py:256 | an `a` or `d` in field 3 raises ValueError |
| Setup.DescendingNeedsNumericMaximum | check_redis_2.py:256-257 | a descending check comes only from an entry with six or more fields, field 5 `d` and a numeric maximum |
| Setup.ConfigForAbsentKey | check_redis_2.py:248-251 | an entry for a name not in the set changes nothing, whatever its fields |
| Setup.ConfigForPresentKey | check_redis_2.py:248-257 | an entry for a name in the set changes that check alone, as configured, or raises ValueError |
| Setup.ApplyConfigsPreserves | check_redis_2.py:247-257 | configuration keeps the names of the set and each check's name, value and forced flag, and raises only ValueError |
| Setup.AssembledChecks | check_redis_2.py:234-257 | the assembled set has exactly the base names that are not excluded, each check named by its key, unresolved, forced exactly when names were included; the only error is ValueError |
| Setup.EntryFields | check_redis_2.py:248-249 | a `key,warning,critical` entry without other commas splits back into its three fields |
| Setup.ScenarioAssembled | check_redis_2.py:234-257 | `--include used_memory hit_ratio` with the entries `used_memory,50,90` and `hit_ratio,0.9,0.95` assembles exactly the scenario's two checks |
| Setup.ScenarioRatioResolves | check_redis_2.py:116-125 | with 80 hits and 20 misses `hit_ratio` resolves to 0.8, stored as 0 |
| Setup.ScenarioMemoryResolves | check_redis_2.py:143-160 | `used_memory` of 100 resolves to 100 |
| Setup.ScenarioResolved | check_redis_2.py:153-165 | both checks of the scenario resolve, each to its value |
| Setup.CriticalMemoryScenario | check_redis_2.py:62-97 | from that command line, with `used_memory` 100 over a critical limit of 90 and a quiet hit ratio, the checks assemble, resolve, and the run reports code 2 |
| Setup.DefaultRunWithDictRaises | check_redis_2.py:155-165 | without `--include`, a snapshot item holding a dictionary that is not excluded gets a check whose resolution raises TypeError, so the resolution as a whole raises |
| Setup.DefaultRunWithKeyspaceRaises | check_redis_2.py:155-165 | a snapshot with a `db0` keyspace assembles without `--include`, and resolving `db0` raises TypeError |
| Setup.ListedWhenNothingIncluded | check_redis_2.py:239-241 | without `--include` every snapshot name and `hit_ratio` get a check |
| LegacyProbe.CodeNamesState | check_redis.py:8-13 | distinct states have distinct exit codes |
| LegacyProbe.CheckLimits | check_redis.py:61-77 | the method's state equals the limit rule, or the ValueError of an unreadable limit |
| LegacyProbe.LimitStateRule | check_redis.py:61-77 | CRITICAL exactly when the critical limit fires, WARNING exactly when only the warning limit fires, OK when neither does, never UNKNOWN; ValueError exactly when a limit does not read |
| LegacyProbe.AbsentLimitNeverFires | check_redis.py:63-75 | an absent or empty limit never fires; with neither limit the state is OK |
| LegacyProbe.SignRemoved | check_redis.py:66-75 | removing `<` or `>` from sign-free text leaves it, with or without that sign in front |
| LegacyProbe.NumericLimit | check_redis.py:64-75 | for any sign-free text `t` that `float()` reads as x, the limit `t` or `>t` fires strictly above x, and `<t` strictly below |
| LegacyProbe.EqualityNeverFires | check_redis.py:64-75 | a value equal to the number of a sign-free limit never fires, with or without a sign |
| LegacyProbe.DecimalLimits | check_redis.py:64-75 | `<0.9` fires for 0.8 and not for 0.95; `0.9` fires for 0.95 |
| LegacyProbe.PerfLimit | check_redis.py:49-58 | the shown limit holds no `<` or `>`, and only characters of the given limit |
| LegacyProbe.PerfLimitStripsSign | check_redis.py:49-52 | sign-free text is shown as given, `>t` and `<t` are shown as `t`, and text after a prefix is kept as it is |
| LegacyProbe.PerfDataFields | check_redis.py:47-59 | the entry splits on `;` into command=value, the two limits without signs, and an empty minimum and maximum |
| LegacyProbe.NewProbe | check_redis.py:23-31 | a limit list exists exactly when its argument is non-empty, and its parts joined by `,` give the argument back |
| LegacyProbe.LimitPairing | check_redis.py:124-131 | for `a,b` the first command gets `a`, the second `b` and any later one None; without a list, or with an empty one, every command gets None |
| LegacyProbe.DerivedIgnoreSnapshotKey | check_redis.py:132-135 | `hit_ratio` and `total_keys` are computed, whatever the snapshot holds under those names |
| LegacyProbe.HitRatioOfCounters | check_redis.py:104-110 | for integer counters the value is hits over hits plus misses, and ZeroDivisionError when they sum to zero |
| LegacyProbe.TotalKeysOfDb0 | check_redis.py:112-113 | `total_keys` is the `keys` count of a `db0` dictionary holding one; KeyError when `db0` is absent or has no `keys`, TypeError when it is not a dictionary |
| LegacyProbe.CommandErrors | check_redis.py:112-135 | a plain command the snapshot lacks raises KeyError; `latency` raises AttributeError; `total_keys` without `db0` raises KeyError |
| LegacyProbe.EntryAt | check_redis.py:118-146 | an entry that is recorded holds a number and a state other than UNKNOWN |
| LegacyProbe.Collect | check_redis.py:116-122 | a completed collection holds exactly the commands seen |
| LegacyProbe.EntriesRecorded | check_redis.py:117-146 | a completed run holds an entry for every command, each with a number and a state other than UNKNOWN |
| LegacyProbe.EntriesFail | check_redis.py:117-146 | a run raises exactly when some command does, with the first such command's exception |
| LegacyProbe.EntriesLastWins | check_redis.py:117-122 | a repeated command holds the entry of its last position, paired with that position's limits |
| LegacyProbe.CommandEntry | check_redis.py:118-146 | the loop body gives the i-th command's value, performance entry and state, or its exception |
| LegacyProbe.CollectEntries | check_redis.py:116-147 | the loop builds the run's `data` dictionary, or stops at the first exception |
| LegacyProbe.PerformCheck | check_redis.py:115-150 | the result is the report of the collected entries, or the first exception |
| LegacyProbe.ExitWithNagiosFormat | check_redis.py:80-102 | the loop's code and text equal the state word of the most severe state, the value list and, when enabled, a vertical bar and the performance entries |
| LegacyProbe.WorstIsMaximum | check_redis.py:85-92 | the overall state is at least as severe as every command's, and is OK or one of them |
| LegacyProbe.WorstOrderIndependent | check_redis.py:85-92 | the overall state depends only on which states occur |
| LegacyProbe.WorstNeverUnknown | check_redis.py:81-92 | without UNKNOWN among the commands the overall state is not UNKNOWN |
| LegacyProbe.NagiosCode | check_redis.py:85-102 | the exit code lies in 0..2, is at least every command's code, and is 0 or the code of some command |
| LegacyProbe.ValueLinesNoBar | check_redis.py:94 | the value list holds no vertical bar when no command name does |
| LegacyProbe.PerfSectionOnlyWhenEnabled | check_redis.py:97-99 | the report holds a vertical bar exactly when performance data is enabled, given command names without one |

## Left out

- Fetching the snapshot (`_get_info` in both files) is network I/O. The
  snapshot is an input, and the connection failure with its exit is not
  modelled.
- Argument parsing and the glue of both `main` functions are left out.
  These are lines 173-232 of check_redis_2.py and lines 153-212 of
  check_redis.py. This includes the `list` action that prints sorted names,
  the host and port defaults, and `'all' in args.command`. The resulting
  lists and flags are inputs.
- `print` and `sys.exit` are not modelled: the text and the code are
  returned as a `Report`.
- Check objects are values in a map rather than objects updated in place.
  Each check in the set is a distinct object that nothing else references,
  so aliasing plays no part.
- Numbers are `int` or `real`, not IEEE floats. Rounding, overflow and
  infinities are not modelled.
- Reporter.ValueText: a float is rendered as its integer part, `.` and up
  to twelve truncated fraction digits. That is a decimal numeral but not
  exactly Python's `str()` of a float. The limits in feedback lines are
  rendered the same way.
- Text.ParseInt, Text.ParseReal: `int()` and `float()` read plain decimal
  text only: an optional `-`, digits, and for `float()` one optional
  fraction. A leading `+` is accepted like `-`. Surrounding whitespace,
  exponents and `inf`/`nan` are not accepted.
- Both files are Python 2 code and the model follows Python 2. `keys()`
  is the list that check_redis_2.py:168-169 appends to. `str` is the one
  string type tested at check_redis_2.py:68, with no separate unicode
  type. Under Python 3 `list_checks` would raise AttributeError, and that
  is not modelled.
- LegacyProbe.PerformCheck: requires every plain command to hold a number
  (or be absent). Python 2's ordering of strings against numbers in
  `_check_limits` is not modelled, so string values are excluded.
- Resolver.ResolveChecks: the order of `check_list.values()` is left open,
  so when several checks raise, only "the error of some check" is stated.
- Setup.CheckRedis: when resolution raises, it states only that the run
  fails. Which error is stated by ResolveChecks.
- LegacyProbe.CommandValue: the `eval` dispatch is a match on the three
  known names. `latency` has no method and yields AttributeError.
- The `%s` rendering of check_redis_2.py feedback lines is a fixed string
  function (`ErrorLine`, `WarningLine`, `UnknownLine`). Its shape is only
  visible through `Reporter.StepRule`.
