# fichaje_app: the daily summary aggregator, modelled in Dafny

`fichaje_app` is a small employee time clock. Users record `Entrada` (clock in),
`Salida` (clock out), `Pausa` (start of a break) and `Fin pausa` (end of a break)
events. The `/resumen` route turns the event log into a per-user, per-day table
of worked time and pause time. This project models that aggregation
(`fichaje_app/fichaje_app/app.py`, lines 98-151) and proves its properties.

The aggregation works in two passes over the rows of `fichajes`:

1. **Grouping** (`Grouping`). Events go into `resumen[usuario][fecha]`, and
   both dictionary levels keep first-insertion order. A bucket holds the last
   `Entrada` time, the last `Salida` time and the `Pausa`/`Fin pausa` marks in
   event order. Other event types still create their bucket and add nothing to it.
2. **Computation** (`Summary`, `PauseScan`). A day with both clock times gets
   `span = salida - entrada`. Its pause time comes from a left-to-right scan:
   an adjacent (`Pausa`, `Fin pausa`) pair adds its length and the scan skips
   both; anything else is skipped alone. Worked time is span minus pause.
   A day missing either clock time gets zero for both.

Modelling choices:

- A time of day is a whole number of seconds since midnight (`ClockTime.Seconds`).
  Durations are `int`, because a shift that crosses midnight has a negative span.
  `ClockTime.ParseHms` and `ClockTime.FormatHms` stand in for
  `strptime`/`strftime` with `"%H:%M:%S"`, and they round-trip.
- Durations stay in seconds. `ClockTime.Hours` is the exact `/3600` over `real`.
- Python's insertion-ordered `dict` is `Assoc.Dict`, a sequence of key/value
  entries. `Assoc.Upsert` is "insert if absent, then update in place".
- The type text is kept as a string, as in the table. `Events.Classify`
  mirrors the chain of string comparisons.
- The grouping is proved for ANY order of input rows. The query's
  `ORDER BY usuario, fecha, hora` is only used where time order matters
  (`Summary.QueryOrdered`).
- The independent reference for the pause scan is `PauseScan.AdjacentPairSum`.
  It sums over every position where an adjacent (`Pausa`, `Fin pausa`) pair
  starts. The greedy scan agrees with it because the second element of a
  matched pair is a `Fin pausa`, which cannot start another pair.
- The reference for the grouping is a set of filters over the input
  (`Grouping.DayEvents`, `LastOf`, `PauseMarksOf`, `Users`, `UserDates`, `Dedup`).
  `Grouping.ExpectedDay` is the bucket those filters describe.
- `if entrada and salida` tests Python truthiness of time strings. A
  well-formed time such as `"00:00:00"` is a non-empty string and so is true.
  The model therefore tests presence (`Some?`), not a non-zero value.
- A summary row carries no "incomplete" flag, as in the code; whether a day
  is complete is derived from its clock times (`Summary.Complete`). The pause
  scan looks exactly one element ahead.

## Model

| member | source | states |
|---|---|---|
| Assoc.GetUpsert | fichaje_app/fichaje_app/app.py:105-108 | after "create if absent, then update", the key holds the update of its old value (or of the fresh default) and every other key is unchanged |
| Assoc.KeysUpsert | fichaje_app/fichaje_app/app.py:105-108 | a key seen before keeps its position; a new key is appended at the end (dict insertion order) |
| Assoc.GetMapValues | fichaje_app/fichaje_app/app.py:119-121 | building `resultados` user by user gives each user the transform of that user's own days |
| Assoc.KeysMapValues | fichaje_app/fichaje_app/app.py:119-120 | `resultados` has the same users as `resumen`, in the same order |
| ClockTime.ParseFormat | fichaje_app/fichaje_app/app.py:128-130 | every time written as `%H:%M:%S` parses back to the same seconds since midnight |
| ClockTime.FormatParse | fichaje_app/fichaje_app/app.py:68 | any zero-padded 8-character text that parses is exactly the text written for the parsed time |
| ClockTime.Hours | fichaje_app/fichaje_app/app.py:149-150 | the hours shown are the seconds divided by 3600: hours times 3600 gives back the seconds |
| Events.ClassifyName | fichaje_app/fichaje_app/app.py:110-115 | each of the four types is recognised exactly from its own text; every other text is ignored |
| PauseScan.PauseSeconds | fichaje_app/fichaje_app/app.py:133-142 | the scan's total equals the sum over all adjacent (Pausa, Fin pausa) pairs |
| PauseScan.ScanIsAdjacentPairSum | fichaje_app/fichaje_app/app.py:134-142 | from any index, the greedy scan with steps of 2 after a match and 1 otherwise equals the all-pairs sum of the remaining suffix |
| PauseScan.ScanPairs | fichaje_app/fichaje_app/app.py:133-142 | the while loop ends after at most len(pausas) - 1 iterations on a non-empty list (and at least (len-1)/2); its total is the all-pairs sum; it matches exactly the adjacent (Pausa, Fin pausa) positions; no two matches share an element |
| PauseScan.AlternatingPauseSum | fichaje_app/fichaje_app/app.py:136-140 | on a well-formed [Pausa, Fin pausa]* list, the pause total is the sum of (fin - ini) over consecutive pairs |
| PauseScan.TrailingMarkAddsNothing | fichaje_app/fichaje_app/app.py:135-140 | appending an unmatched trailing Pausa (or any mark that is not Fin pausa) leaves the pause total unchanged |
| PauseScan.LeadingCloseAddsNothing | fichaje_app/fichaje_app/app.py:136 | a Fin pausa with nothing before it contributes nothing |
| PauseScan.ChronologicalPauseBounds | fichaje_app/fichaje_app/app.py:136-139 | for time-ordered marks, the pause total is at least 0 and at most last mark minus first mark |
| Grouping.GetDayAddEvent | fichaje_app/fichaje_app/app.py:105-115 | one row changes only its own (user, date) bucket, creating it if needed and applying its type there |
| Grouping.IgnoredEventOnlyCreatesBucket | fichaje_app/fichaje_app/app.py:105-115 | a row of unknown type creates its user/date bucket with unchanged contents and touches nothing else |
| Grouping.GroupDay | fichaje_app/fichaje_app/app.py:98-115 | a bucket exists for (u, d) iff some row has that user and date; it holds the last Entrada, the last Salida (later rows overwrite) and all pause marks of that day in input order |
| Grouping.GroupUsers | fichaje_app/fichaje_app/app.py:105-106 | the users of `resumen` are the input users, each once, in order of first appearance |
| Grouping.GroupDates | fichaje_app/fichaje_app/app.py:107-108 | each user's dates are that user's input dates, each once, in order of first appearance |
| Grouping.GroupDistinct | fichaje_app/fichaje_app/app.py:105-108 | no user and no date within a user is bucketed twice |
| Grouping.PauseMarksKinds | fichaje_app/fichaje_app/app.py:114-115 | every bucket the grouping builds holds only Pausa and Fin pausa marks in its pause list |
| Summary.SummarizeDay | fichaje_app/fichaje_app/app.py:122-151 | a day row copies date and clock times; with both clock times worked + pause = salida - entrada and pause is the all-pairs sum; otherwise both are 0 |
| Summary.AggregateUsers | fichaje_app/fichaje_app/app.py:119-120 | the result has one entry per distinct input user, in first-appearance order, with no repeats |
| Summary.AggregateDates | fichaje_app/fichaje_app/app.py:121-145 | each user's rows are one per distinct date of that user's events, in first-appearance order |
| Summary.AggregateDay | fichaje_app/fichaje_app/app.py:98-151 | a row for (u, d) exists iff some event has that user and date, and it is the summary of the last Entrada, the last Salida and that day's pause marks |
| Summary.AggregateBalanced | fichaje_app/fichaje_app/app.py:125-144 | every row of the result satisfies worked + pause = exit - entry, or has both zero when a clock time is missing |
| Summary.IncompleteDayIsZero | fichaje_app/fichaje_app/app.py:125-127 | a day lacking an Entrada or a Salida shows 0 worked and 0 pause, whatever pauses it has |
| Summary.WorkedWithinSpan | fichaje_app/fichaje_app/app.py:131-144 | if the pauses are in time order and inside [entrada, salida], then pause and worked time each lie between 0 and the span |
| Summary.OrderedInputChronologicalPauses | fichaje_app/fichaje_app/app.py:94 | with rows ordered by user, date and time, the pause list of every bucket the grouping builds is in time order |
| Summary.AliceScenario | fichaje_app/fichaje_app/app.py:98-151 | Entrada 09:00:00, Pausa 12:00:00, Fin pausa 12:30:00, Salida 17:00:00 give one user with one day, whose row has entrada 09:00:00, salida 17:00:00, 7.5 worked hours and 0.5 pause hours |

## Left out

- Flask routing, the session cookie, login and logout (app.py 42-54, 180-183): framework plumbing with no logic beyond trimming a name.
- SQLite: connection, table creation, INSERT and SELECT (app.py 11-39, 47-51, 64-71, 80-84, 92-96). The model takes the fetched rows as a sequence of `Events.Event`.
- `datetime.now()` timestamping (app.py 63-68): it reads the clock. Only the `%H:%M:%S` formatting is modelled (`ClockTime.FormatHms`).
- CSV export (app.py 155-177) and template rendering: thin wrappers over library calls.
- The `/3600` float division (app.py 149-150): durations stay integer seconds, and `ClockTime.Hours` is exact over `real` with no float rounding.
- ClockTime.ParseHms: accepts ASCII digits only. Python's `\d` and `int()` also accept other Unicode decimal digits.
- `strptime` failure inside the route: the aggregator takes times already parsed to seconds, so a malformed stored time raising ValueError is not modelled.
