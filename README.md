# npi-schedule-cli in Dafny

A Dafny model of the logic of `npi-schedule`, a command-line client for the NPI timetable
API. It covers the part between the HTTP fetch and the pandas printing:

- **Date selector.** `ScheduleMixin.date_format` turns the `--date` string into one date, or
  into the set of its comma-separated pieces (modules `CliMethods`, `Lessons`).
- **Date filter and grouper.** `SchedulePrinter` keeps, for one date, the lesson records
  carrying that date, in source order. For a set of dates it files each matching record into
  an insertion-ordered dict of per-date lists (modules `Grouping`, `Printers`).
  - The dict key is `list(selector & dates)[0]`, an element chosen by CPython's set order.
    That order can differ between equal sets built in different orders, so the model takes
    the choice as a parameter `pick` of the record's index and the set. Every property is
    proved for every `pick` that returns an element of the non-empty set it is given.
  - The grouper can raise `KeyError`. The model carries it as a `Failure`.
- **Row formatters.** The student, lecturer and auditorium rows, with the slot table `TIMES`
  and `get_time` (modules `Utils`, `Lessons`).
- **Dispatch.** `Main.__init__` builds the `cli_methods` table keyed by alias tuples, and
  `Main.start` resolves the parsed sub-command and function against it (module `Dispatch`).
- **The legacy script.** `npi-schedule.py` is the single-file predecessor of the `oops`
  package. Module `Legacy` models its own version of each of the pieces above and proves where
  it agrees with the package and where it does not.

Printed output is modelled as a sequence of `Printed` items: a text line, or a table given by
its column headers and rows. Python exceptions are `Failure` values of `Base.Result`.

## Notes on the code's behaviour

- The first alias tuple of `oops/utils.py:9` is `("schedule", "s")`. The legacy script's is
  `("student", "s")`, so the two parsers accept different names for the student schedule.
- `get_time` returns `None` for an unknown slot and does not raise. The row then holds
  `None` as its time. The legacy script indexes `TIMES` directly and raises `KeyError`.
- With no sub-command, argparse leaves `subcommand` as `None` and sets no `function`.
  `Main.start` then runs no handler. The legacy script falls through to its auditorium
  branch and raises `AttributeError` when it reads `args.function`.
- The bucket key is not chosen by a deterministic tie-break. It is whatever `list(...)[0]`
  yields, which is the `pick` parameter.
- A record whose dates overlap an existing key, while the chosen date is not a key, raises
  `KeyError`. It is not appended to the existing bucket. See "## Findings".
- The legacy script prints its header without the leading newline and prints an empty line
  after each table.

## Model

| member | source | states |
|---|---|---|
| Utils.GetTime | oops/utils.py:14-15 | `get_time(k)` is a time exactly for the slots 1..6, and then it is `TIMES[k]`; for every other `k` it is `None`, with no exception |
| Utils.TimesAreSixDistinctSlots | oops/utils.py:11 | `TIMES` has exactly the keys 1..6 and its six times are pairwise distinct |
| Utils.GetTimeExamples | oops/utils.py:11-15 | slot 1 starts at 9:00, slot 3 at 13:15, slot 6 at 18:30; slots 0, 7 and -1 give `None` |
| Utils.SubcommandAliasesDisjoint | oops/utils.py:9 | there are three alias tuples and no alias is in two of them |
| Utils.PrintDataFrame | oops/utils.py:28-36 | an empty row list prints nothing at all; otherwise exactly one table with the given headers and rows |
| Lessons.Columns | oops/cli_methods.py:52 | each view has four column headers (also lines 116 and 168), the first being the start time |
| Lessons.GetLesson | oops/cli_methods.py:80-86 | a row has one cell per column; the time comes first; then, per view (lines 132-138 and 181-187 for the other two), the auditorium, the `type-discipline` cell, the lecturer or the groups in their column positions |
| Lessons.LessonRow | oops/cli_methods.py:40-42 | the row `__append_function` builds for a record: `_get_lesson` applied to `get_time(lesson["class"])` and the record |
| Lessons.RowsAt | oops/cli_methods.py:40-43 | the rows appended for a list of record indices, one per index and in the order of the indices |
| Lessons.RowsAtIndex | oops/printers.py:38-40 | the `j`-th row built from a list of records is the row of the `j`-th record |
| Lessons.AppendLesson | oops/cli_methods.py:39-43 | `__append_function` appends exactly one row at the end of the caller's list, leaves the earlier rows as they were, and the new row's first cell is `get_time(lesson["class"])` |
| Grouping.SelectedUpTo | oops/printers.py:34-40 | the records kept for one date are in strictly increasing source order, and a record is kept iff its `dates` contain the date |
| Grouping.SelectedIsTheOrderedFilter | oops/printers.py:34-40 | any source-ordered list holding exactly the records that carry the date is the single-date result: the filter is determined by those two properties |
| Grouping.GroupedUpTo | oops/printers.py:11-25 | while the loop has not raised, the dict's keys are distinct, in insertion order, and its lists hold only records already seen |
| Grouping.Step | oops/printers.py:14-25 | one iteration of the filing loop as written: skip a record outside the selector; open the chosen date when the intersection shares no date with the keys; otherwise append to the chosen date's list, or raise `KeyError` on it when it is not a key |
| Grouping.Grouped | oops/printers.py:11-25 | the dict after the filing loop over all records, or the first `KeyError` |
| Grouping.FixedStep | oops/printers.py:19-25 | the corrected iteration: like `Step`, but on an overlap the record goes to the chosen date when it is a key, and otherwise to a date of the overlap |
| Grouping.FailurePersists | oops/printers.py:13-25 | once a record raises `KeyError`, no later record changes the outcome |
| Grouping.StepFailsExactlyWhen | oops/printers.py:19-25 | a record raises `KeyError` iff its intersection overlaps the keys but the chosen date is not a key, and the error names the chosen date |
| Grouping.StepKeepsBuckets | oops/printers.py:15-25 | a record never removes or clears a list; keys keep their order; a new key appears iff the intersection shares no date with the keys; a record disjoint from the selector changes nothing; a matched record adds exactly one index, at the end of the list of one of its own dates |
| Grouping.FixedKey | oops/printers.py:20-25 | the corrected key is a date of the intersection; it is a new key iff the intersection shares no date with the keys, and an existing key otherwise |
| Grouping.FixedGroupedUpTo | oops/printers.py:11-25 | the corrected grouping never fails and keeps distinct keys in insertion order |
| Grouping.AsWrittenAgreesWithFixed | oops/printers.py:11-25 | wherever the grouping as written does not raise, it builds exactly the corrected grouping |
| Grouping.FixedStepSound | oops/printers.py:19-25 | one corrected step keeps every promise of the grouped output |
| Grouping.FixedGroupedSound | oops/printers.py:11-25 | the corrected grouping of any prefix of the records keeps every promise of the grouped output |
| Grouping.FixedGroupingIsTotalAndSound | oops/printers.py:11-25 | the corrected grouping of all records is consistent and keeps every promise of the grouped output |
| Grouping.GroupedIsSound | oops/printers.py:11-25 | when the grouping does not raise: every key is a requested date; every list is non-empty and in source order; every record under key `k` carries `k`; a record is filed iff it shares a date with the selector; no record is filed twice |
| Grouping.FirstRecordOpensFirstDay | oops/printers.py:19-23 | on the two-record example, the first record opens the key of its only date, whatever the chooser |
| Grouping.KeyErrorReachable | oops/printers.py:19-25 | on the two-record example, a chooser that picks the second date for the second record raises `KeyError` on that date |
| Grouping.SingleBucketOtherwise | oops/printers.py:19-25 | on the same example, a chooser that picks the first date files both records, in order, under the first date |
| Printers.PrintSchedule | oops/printers.py:31-42 | `_print_schedule` prints the one table of the rows of the records carrying the date, in source order, or nothing when none does |
| Printers.SingleOutput | oops/printers.py:31-42 | what `_print_schedule` prints: the table of the rows of the records carrying the date, in source order |
| Printers.SectionsStep | oops/printers.py:27-29 | each key adds exactly its header line and its table, since no list is empty |
| Printers.SectionAt | oops/printers.py:27-29 | the grouped output has two items per key; for the `i`-th key in creation order, the header `"\nРасписание на " + date`, then the table of that key's rows |
| Printers.Sections | oops/printers.py:27-29 | what the printing loop prints for the first `j` keys: per key in creation order, the header line, then the table of its list |
| Printers.ListOutput | oops/printers.py:8-29 | what `_print_schedule_list` prints: the sections of the grouping of all records, or the grouping's `KeyError` |
| Printers.LessonsDict.constructor | oops/printers.py:11 | the dict starts with no keys and no lists |
| Printers.LessonsDict.Open | oops/printers.py:22-23 | `lessons_dict[k] = []` sets the list of `k` to empty and adds `k` at the end of the keys when it is new |
| Printers.LessonsDict.Append | oops/printers.py:25 | appending to the list of an existing key changes that list only, by one row at its end |
| Printers.FileRecord | oops/printers.py:14-25 | one loop iteration either leaves the dict holding the grouping of one more record, or raises the `KeyError` the grouping raises on it |
| Printers.FileRecords | oops/printers.py:11-25 | the filing loop either ends with the dict holding the grouping of all records, or raises its `KeyError` |
| Printers.PrintLists | oops/printers.py:27-29 | the printing loop prints the grouped output of the dict's keys, in creation order |
| Printers.PrintScheduleList | oops/printers.py:8-29 | `_print_schedule_list` prints the grouped output, or raises `KeyError` before printing anything |
| Printers.FixedListAgrees | oops/printers.py:8-29 | wherever the printer as written does not raise, the corrected printer prints the same |
| Printers.FixedFileRecord | oops/printers.py:14-25 | the corrected loop body files the record under the corrected key and never raises |
| Printers.FixedPrintScheduleList | oops/printers.py:8-29 | the corrected printer never raises and prints the corrected grouping |
| Printers.Call | oops/printers.py:44-53 | a `str` selector is printed by single-date filtering; any other selector is made a set and printed grouped |
| CliMethods.Split | oops/cli_methods.py:32 | `str.split` on a one-character separator gives at least one piece, and no piece holds the separator |
| CliMethods.JoinSplit | oops/cli_methods.py:32 | joining the pieces with the separator gives back the string |
| CliMethods.SplitJoin | oops/cli_methods.py:32 | splitting a join of separator-free pieces gives back the pieces |
| CliMethods.DateFormat | oops/cli_methods.py:30-34 | a date without a comma is returned unchanged; otherwise the result is a set, and none of its dates holds a comma |
| CliMethods.DateFormatPieces | oops/cli_methods.py:31-32 | the set holds exactly the comma-separated pieces, and joining the pieces restores the input |
| CliMethods.DateFormatTwoPieces | oops/cli_methods.py:31-32 | two comma-free dates joined by a comma give the set of the two |
| CliMethods.DateFormatDuplicate | oops/cli_methods.py:31-32 | a date given twice collapses into one |
| CliMethods.DateFormatTrailingComma | oops/cli_methods.py:31-32 | a trailing comma adds the empty date `""` |
| CliMethods.Print | oops/cli_methods.py:45-47 | `print` hands the printer the normalised date with the view's columns and row callback: single-date output for a date without a comma, grouped output over the set of pieces otherwise |
| Dispatch.CliMethodsTable | oops/main.py:22-42 | the table has three entries, keyed in order by the three alias tuples |
| Dispatch.Main.constructor | oops/main.py:22-42 | `__init__` builds that table |
| Dispatch.Main.Start | oops/main.py:75-96 | `start` runs the handlers, and raises the exception, that the resolution of the table prescribes |
| Dispatch.Lookup | oops/main.py:85-94 | what one matching entry resolves to: its handler; for a dict, the handler of the function, `ValueError` for an unregistered function, `AttributeError` when no function was parsed; `ValueError` for any other value |
| Dispatch.StartUpTo | oops/main.py:81-96 | the loop of `start` over the first `n` entries: non-matching entries are skipped, a matching entry's handler runs, the first exception ends the loop; at most `n` handlers run |
| Dispatch.RaisedPersists | oops/main.py:85-94 | once `start` raises, later entries change nothing |
| Dispatch.InvokedAtMostMatches | oops/main.py:81-96 | no more handlers run than entries match the sub-command |
| Dispatch.UnknownSubcommandDoesNothing | oops/main.py:81-83 | a sub-command in no alias tuple, or none at all, runs no handler and raises nothing |
| Dispatch.DisjointAtMostOneMatch | oops/main.py:81-83 | with pairwise disjoint alias tuples, at most one entry matches |
| Dispatch.AtMostOneHandler | oops/main.py:81-96 | with pairwise disjoint alias tuples, at most one handler runs per invocation |
| Dispatch.OnlyMatchDecides | oops/main.py:85-96 | the only matching entry decides alone: its handler runs, or its exception is raised |
| Dispatch.TableShape | oops/main.py:22-42 | the first entry is a single handler; the lecturers and auditoriums entries register exactly `search` and `schedule` |
| Dispatch.DefaultTableDispatch | oops/main.py:81-96 | on the table as built: `schedule`/`s` runs the student schedule whatever the function; `lecturers`/`l` and `auditoriums`/`a` run the handler registered for the function, raise `ValueError` for an unregistered one, and raise `AttributeError` when no function was parsed |
| Dispatch.DefaultTableIgnoresUnknown | oops/main.py:81-83 | on the table as built, any other sub-command does nothing |
| Legacy.ResolveUrl | npi-schedule.py:134-135 | the requested URL always starts with `http` and ends with the given URL; it is the given URL unchanged iff that starts with `http`, and otherwise it is `API_URL` of line 13 (`https://schedule.npi-tu.ru/api/`) followed by the given URL |
| Legacy.ResolveUrlIdempotent | npi-schedule.py:134-135 | resolving twice is resolving once |
| Legacy.SlotTime | npi-schedule.py:14-21 | `TIMES[k]` succeeds exactly for the slots 1..6, with the time `get_time` gives; otherwise it raises `KeyError` on `k` |
| Legacy.LegacyRow | npi-schedule.py:192-197 | each row lambda (also lines 210-215 and 226-231) raises `KeyError` exactly on an unknown slot, and otherwise builds, field for field, the row of the package's formatter for the same view |
| Legacy.LegacyLayout | npi-schedule.py:192-197 | the list each row lambda appends for a view (also lines 210-215 and 226-231): time, then auditorium, `type-discipline`, lecturer or groups in that view's order |
| Legacy.AppendRow | npi-schedule.py:192-197 | on a known slot the lambda appends exactly that row; on an unknown slot it raises before appending, leaving the list as it was |
| Legacy.SingleFailurePersists | npi-schedule.py:159-174 | once single-date mode raises, later records change nothing |
| Legacy.SingleUpTo | npi-schedule.py:159-174 | the rows after the first `n` records of single-date mode, or the `KeyError` of the first record carrying the date with an unknown slot |
| Legacy.SingleAgrees | npi-schedule.py:159-174 | single-date mode raises iff a record carrying the date has an unknown slot; otherwise it builds the package's single-date rows |
| Legacy.GroupedFailurePersists | npi-schedule.py:159-172 | once multi-date mode raises, later records change nothing |
| Legacy.LegacyGroupedUpTo | npi-schedule.py:159-172 | the dict after the first `n` records of multi-date mode: the package's filing step with its `KeyError` on the chosen date, then the `KeyError` of an unknown slot; while nothing was raised the dict keeps distinct keys in insertion order |
| Legacy.GroupedAgrees | npi-schedule.py:159-172 | multi-date mode succeeds iff the package's grouping does and every matched record has a known slot, and then builds the same dict |
| Legacy.LegacySectionAt | npi-schedule.py:176-180 | three items per key; for the `i`-th key in creation order, the header `"Расписание на " + date`, that key's table, then an empty line |
| Legacy.LegacySections | npi-schedule.py:176-180 | what the printing loop prints for the first `j` keys: per key, the header, its table, then an empty line |
| Legacy.SingleDateOutput | npi-schedule.py:150-182 | a date without a comma raises iff a record carrying it has an unknown slot, and otherwise prints what the package's single-date printer prints |
| Legacy.DateListFails | npi-schedule.py:150-172 | a date list raises iff the package's grouping raises or a matched record has an unknown slot |
| Legacy.DateListSection | npi-schedule.py:176-180 | otherwise the output has, for the `i`-th key of the package's grouping, its header, its table and an empty line |
| Legacy.FileRecord | npi-schedule.py:159-172 | one loop iteration either leaves the dict holding the grouping of one more record, or raises the `KeyError` that grouping raises |
| Legacy.FileRecords | npi-schedule.py:159-172 | the filing loop ends with the dict of all records, or raises |
| Legacy.PrintLists | npi-schedule.py:176-180 | the printing loop prints the three items of each key, in creation order |
| Legacy.PrintSingle | npi-schedule.py:159-182 | single-date mode prints the table of the rows built up to the end, or raises |
| Legacy.PrintSchedule | npi-schedule.py:149-182 | `__print_schedule` splits a date with a comma into a set and groups; any other date is filtered on alone |
| Legacy.LegacyOutput | npi-schedule.py:149-182 | what `__print_schedule` prints, or the `KeyError` it raises first: a date with a comma is split into a set and grouped, any other is filtered on alone |
| Legacy.LegacyDispatch | npi-schedule.py:254-265 | the student aliases and only they run the student schedule; a missing function raises `AttributeError` exactly outside the student branch; the lecturer aliases run `LecturersSearch` for `search` and `LecturersSchedule` for any other function; every other sub-command runs `AuditoriumsSearch` for `search` and `AuditoriumsSchedule` for any other function |
| Legacy.DispatchAgrees | npi-schedule.py:254-265 | on every pair argparse produces for a sub-command (the student parser sets no function; the others require `search` or `schedule`), an alias of the `k`-th legacy tuple and an alias of the `k`-th package tuple run the same single handler |
| Legacy.DispatchDiffers | npi-schedule.py:254-265 | with no sub-command the legacy script raises `AttributeError` and the package runs nothing; `student` is a student alias only in the legacy script, and `schedule` only in the package |

## Left out

- HTTP and JSON: `ApiEndpoint.__call__`, its status check, and `requests.get(...).json()`. These are network I/O. The records are an input of the model.
- `str.format` and f-string substitution into the endpoint templates. This is library behaviour. Only the `http` prefix rule of the legacy script is modelled.
- pandas rendering and the column-width options. A table is modelled by its headers and rows. Only the empty-table guard is modelled.
- argparse wiring (`get_args`, `create_parser`, `create_subparsers`, `_add_args`, `add_argument_date`). The parsed sub-command and function are inputs of `Dispatch.Main.Start` and `Legacy.LegacyDispatch`.
- `NOW_DATE` from the wall clock, and the `FACULTIES` tables used only in help text.
- `ListPrinter`, `AuditoriumsPrinter`, `print_found_lecturers`, `print_found_auditoriums`, and the abstract `Printer` and `CliMethod` bases. These are bare print loops and abstract wrappers.
- Dispatch.Main.Start and Legacy.LegacyDispatch take any parsed sub-command and function, including pairs argparse rejects before dispatch: a sub-command in no alias tuple, or a lecturers or auditoriums function other than `search` and `schedule`. What they do on those pairs follows the code but cannot be observed.
- Running a handler (`method(args)`). `Dispatch` records which handlers run, and the schedule handlers' output is modelled by `CliMethods.Print`.
- The `"Лектор: "` line of the legacy lecturer schedule, and the `KeyError` of a response without `"classes"`. Both depend on the JSON response shape.
- Python's set iteration order. `list(s)[0]` is the `pick` parameter, which may return different elements for equal sets at different records. Nothing more about the order is assumed.
- Printers.LessonsDict: its lists are values in a map, not list objects shared with the caller. Aliasing between `lessons_dict[k]` and the list the callback appends to is not modelled.
- Legacy.PrintSchedule: the single loop with an `is_date_type_set` flag is modelled as two loops, one per mode, with the same per-record order of effects and errors.
- Lessons.Columns: states the length and the first header only. The other headers are the body's literal lists.

## Findings

| source | as written | input that shows it | evidently intended | confidence | as-written member | corrected member |
|---|---|---|---|---|---|---|
| oops/printers.py:19-25 | a matched record goes to `lessons_dict[list(intersection)[0]]`, and no new list is opened when the intersection overlaps an existing key, so the lookup raises `KeyError` when the chosen date is not itself a key (the legacy script does the same at npi-schedule.py:165-172) | selector `{"2024-09-02", "2024-09-09"}`; a record on `["2024-09-02"]`, then a record on `["2024-09-02", "2024-09-09"]` for which the set order yields `"2024-09-09"` first | a record whose dates overlap an existing key is appended to the list of one of those keys | not executed | Grouping.KeyErrorReachable | Printers.FixedPrintScheduleList |
