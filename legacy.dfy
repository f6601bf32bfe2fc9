/** The single-file client npi-schedule.py that the oops package replaces: its slot table,
    its three row layouts (which index `TIMES` directly and so raise KeyError on an unknown
    slot), its `__print_schedule`, the URL prefix rule of `__get_json_response` and the
    if/elif dispatch at module level. Each is related to its counterpart in the oops package. */
module Legacy {
  import opened Base
  import opened Utils
  import opened Lessons
  import opened Grouping
  import opened Printers
  import opened CliMethods
  import opened Dispatch

  // The URL rule of `__get_json_response`

  const ApiUrl: string := "https://schedule.npi-tu.ru/api/"
  const Http: string := "http"

  /** The URL actually requested: an absolute `http…` URL as it is, anything else relative to
      the API root. */
  function ResolveUrl(url: string): (full: string)
    ensures Http <= full
    ensures |url| <= |full| && full[|full| - |url|..] == url
    ensures full == url <==> Http <= url
    ensures !(Http <= url) ==> full == ApiUrl + url
  {
    if Http <= url then url else ApiUrl + url
  }

  /** Resolving twice is resolving once: the API root is itself absolute. */
  lemma ResolveUrlIdempotent(url: string)
    ensures ResolveUrl(ResolveUrl(url)) == ResolveUrl(url)
  {
  }

  // The slot table and the row lambdas

  const LegacyTimes: map<int, string> :=
    map[1 := "9:00", 2 := "10:45", 3 := "13:15", 4 := "15:00", 5 := "16:45", 6 := "18:30"]

  predicate KnownSlot(lesson: Lesson)
  {
    1 <= lesson.lessonClass <= 6
  }

  /** `TIMES[lesson["class"]]`: the same six times as `get_time`, but a KeyError instead of
      `None` for any other slot. */
  function SlotTime(lessonClass: int): (r: Result<string>)
    ensures r.Success? <==> 1 <= lessonClass <= 6
    ensures r.Failure? ==> r.error == MissingSlotKey(lessonClass)
    ensures r.Success? ==> GetTime(lessonClass) == Some(r.value)
  {
    if lessonClass in LegacyTimes then Success(LegacyTimes[lessonClass]) else Failure(MissingSlotKey(lessonClass))
  }

  /** The list each row lambda appends, given the slot time. */
  function LegacyLayout(view: View, time: string, lesson: Lesson): Row
  {
    match view
    case StudentView =>
      [Some(time), Some(lesson.auditorium), Some(lesson.lessonType + "-" + lesson.discipline), Some(lesson.lecturer)]
    case LecturerView =>
      [Some(time), Some(lesson.auditorium), Some(lesson.lessonType + "-" + lesson.discipline), Some(lesson.groups)]
    case AuditoriumView =>
      [Some(time), Some(lesson.lessonType + "-" + lesson.discipline), Some(lesson.lecturer), Some(lesson.groups)]
  }

  /** The row of a record, or the KeyError of its slot. Where the slot is known the row is,
      field for field, the row of the oops formatter of the same view. */
  function LegacyRow(view: View, lesson: Lesson): (r: Result<Row>)
    ensures r.Success? <==> KnownSlot(lesson)
    ensures r.Failure? ==> r.error == MissingSlotKey(lesson.lessonClass)
    ensures r.Success? ==> r.value == LessonRow(view, lesson)
  {
    match SlotTime(lesson.lessonClass)
    case Failure(e) => Failure(e)
    case Success(time) => Success(LegacyLayout(view, time, lesson))
  }

  /** The row lambda: on a known slot it appends exactly one row at the end of the list; on an
      unknown one the KeyError comes before the append, so the list is left as it was. */
  method AppendRow(view: View, lesson: Lesson, list: RowList) returns (err: Option<Error>)
    modifies list
    ensures err.None? <==> KnownSlot(lesson)
    ensures err.None? ==> list.rows == old(list.rows) + [LessonRow(view, lesson)]
    ensures err.Some? ==> list.rows == old(list.rows) && err.value == MissingSlotKey(lesson.lessonClass)
  {
    var row := LegacyRow(view, lesson);
    if row.Failure? {
      return Some(row.error);
    }
    list.rows := list.rows + [row.value];
    err := None;
  }

  // Single-date mode of `__print_schedule`

  /** The row list after the first `n` records of single-date mode, or the KeyError of the
      first selected record with an unknown slot. */
  function SingleUpTo(records: seq<Lesson>, date: string, view: View, n: nat): Result<seq<Row>>
    requires n <= |records|
  {
    if n == 0 then Success([])
    else
      match SingleUpTo(records, date, view, n - 1)
      case Failure(e) => Failure(e)
      case Success(rows) =>
        if date !in records[n - 1].dates then Success(rows)
        else
          match LegacyRow(view, records[n - 1])
          case Failure(e) => Failure(e)
          case Success(row) => Success(rows + [row])
  }

  lemma {:induction false} SingleFailurePersists(records: seq<Lesson>, date: string, view: View, n: nat, m: nat)
    requires n <= m <= |records|
    requires SingleUpTo(records, date, view, n).Failure?
    ensures SingleUpTo(records, date, view, m) == SingleUpTo(records, date, view, n)
  {
    if m > n {
      SingleFailurePersists(records, date, view, n, m - 1);
    }
  }

  /** Every record among the first `n` that carries `date` has a known slot. */
  ghost predicate SelectedKnown(records: seq<Lesson>, date: string, n: nat)
    requires n <= |records|
  {
    forall i :: 0 <= i < n && date in records[i].dates ==> KnownSlot(records[i])
  }

  /** Single-date mode fails exactly when a selected record has an unknown slot; otherwise it
      builds the rows of the oops single-date printer. */
  lemma {:induction false} SingleAgrees(records: seq<Lesson>, date: string, view: View, n: nat)
    requires n <= |records|
    ensures SingleUpTo(records, date, view, n).Success? <==> SelectedKnown(records, date, n)
    ensures SingleUpTo(records, date, view, n).Success? ==>
              SingleUpTo(records, date, view, n).value == RowsAt(view, records, SelectedUpTo(records, date, n))
  {
    if n > 0 {
      SingleAgrees(records, date, view, n - 1);
      if date in records[n - 1].dates {
        RowsAtAppend(view, records, SelectedUpTo(records, date, n - 1), n - 1);
      }
    }
  }

  // Multi-date mode of `__print_schedule`

  /** The dict after the first `n` records of multi-date mode: the grouping step of the oops
      printer (with its KeyError on the chosen date), then the KeyError of an unknown slot. */
  function LegacyGroupedUpTo(records: seq<Lesson>, sel: set<string>, pick: Chooser, n: nat): (r: Result<Groups>)
    requires n <= |records|
    ensures r.Success? ==> Consistent(r.value, n)
  {
    if n == 0 then Success(Groups([], map[]))
    else
      match LegacyGroupedUpTo(records, sel, pick, n - 1)
      case Failure(e) => Failure(e)
      case Success(g) =>
        var found := Found(sel, records[n - 1]);
        StepConsistent(g, n - 1, found, pick, n);
        match Step(g, n - 1, found, pick)
        case Failure(e) => Failure(e)
        case Success(g') =>
          if found != {} && !KnownSlot(records[n - 1]) then Failure(MissingSlotKey(records[n - 1].lessonClass))
          else Success(g')
  }

  lemma {:induction false} GroupedFailurePersists(records: seq<Lesson>, sel: set<string>, pick: Chooser, n: nat, m: nat)
    requires n <= m <= |records|
    requires LegacyGroupedUpTo(records, sel, pick, n).Failure?
    ensures LegacyGroupedUpTo(records, sel, pick, m) == LegacyGroupedUpTo(records, sel, pick, n)
  {
    if m > n {
      GroupedFailurePersists(records, sel, pick, n, m - 1);
    }
  }

  /** Every record among the first `n` that shares a date with `sel` has a known slot. */
  ghost predicate MatchedKnown(records: seq<Lesson>, sel: set<string>, n: nat)
    requires n <= |records|
  {
    forall i :: 0 <= i < n && Found(sel, records[i]) != {} ==> KnownSlot(records[i])
  }

  /** Multi-date mode succeeds exactly when the oops grouper does and every matched record has
      a known slot, and then builds the same dict: the same keys, in the same order, holding
      the same records. */
  lemma {:induction false} GroupedAgrees(records: seq<Lesson>, sel: set<string>, pick: Chooser, n: nat)
    requires n <= |records|
    ensures LegacyGroupedUpTo(records, sel, pick, n).Success? <==>
              GroupedUpTo(records, sel, pick, n).Success? && MatchedKnown(records, sel, n)
    ensures LegacyGroupedUpTo(records, sel, pick, n).Success? ==>
              LegacyGroupedUpTo(records, sel, pick, n) == GroupedUpTo(records, sel, pick, n)
  {
    if n > 0 {
      GroupedAgrees(records, sel, pick, n - 1);
      GroupedAgreesStep(records, sel, pick, n - 1);
    }
  }

  /** The inductive step of `GroupedAgrees`, from the first `m` records to the first `m + 1`. */
  lemma GroupedAgreesStep(records: seq<Lesson>, sel: set<string>, pick: Chooser, m: nat)
    requires m < |records|
    requires LegacyGroupedUpTo(records, sel, pick, m).Success? <==>
               GroupedUpTo(records, sel, pick, m).Success? && MatchedKnown(records, sel, m)
    requires LegacyGroupedUpTo(records, sel, pick, m).Success? ==>
               LegacyGroupedUpTo(records, sel, pick, m) == GroupedUpTo(records, sel, pick, m)
    ensures LegacyGroupedUpTo(records, sel, pick, m + 1).Success? <==>
              GroupedUpTo(records, sel, pick, m + 1).Success? && MatchedKnown(records, sel, m + 1)
    ensures LegacyGroupedUpTo(records, sel, pick, m + 1).Success? ==>
              LegacyGroupedUpTo(records, sel, pick, m + 1) == GroupedUpTo(records, sel, pick, m + 1)
  {
    if GroupedUpTo(records, sel, pick, m).Failure? {
      FailurePersists(records, sel, pick, m, m + 1);
    } else if !MatchedKnown(records, sel, m) {
      assert !MatchedKnown(records, sel, m + 1);
    }
  }

  const LegacyHeader: string := "Расписание на "

  /** The printing loop of multi-date mode for the first `j` keys: per key, the header line,
      the table, then an empty line. */
  function LegacySections(records: seq<Lesson>, view: View, g: Groups, j: nat): seq<Printed>
    requires Consistent(g, |records|) && j <= |g.order|
  {
    if j == 0 then []
    else
      var date := g.order[j - 1];
      LegacySections(records, view, g, j - 1) + [Line(LegacyHeader + date)]
        + PrintDataFrame(BucketRows(records, view, g, date), Columns(view)) + [Line("")]
  }

  /** Printing the list of the next key extends the output by that key's section. */
  lemma LegacySectionsNext(records: seq<Lesson>, view: View, g: Groups, lists: map<string, seq<Row>>, j: nat)
    requires Consistent(g, |records|) && Mirrors(records, view, g.members, lists) && j < |g.order|
    ensures g.order[j] in lists
    ensures LegacySections(records, view, g, j + 1) ==
              LegacySections(records, view, g, j) + [Line(LegacyHeader + g.order[j])]
                + PrintDataFrame(lists[g.order[j]], Columns(view)) + [Line("")]
  {
  }

  lemma LegacySectionsStep(records: seq<Lesson>, view: View, g: Groups, j: nat)
    requires Consistent(g, |records|) && NoEmptyList(g) && 0 < j <= |g.order|
    ensures LegacySections(records, view, g, j) == LegacySections(records, view, g, j - 1) +
              [Line(LegacyHeader + g.order[j - 1]), Table(Columns(view), BucketRows(records, view, g, g.order[j - 1])), Line("")]
  {
    var date := g.order[j - 1];
    var rows := BucketRows(records, view, g, date);
    assert |rows| == |g.members[date]| > 0;
  }

  /** The `i`-th key's header line, then its table, then an empty line: one header per key,
      in creation order. */
  lemma {:induction false} LegacySectionAt(records: seq<Lesson>, view: View, g: Groups, j: nat, i: nat)
    requires Consistent(g, |records|) && NoEmptyList(g) && i < j <= |g.order|
    ensures |LegacySections(records, view, g, j)| == 3 * j
    ensures LegacySections(records, view, g, j)[3 * i] == Line(LegacyHeader + g.order[i])
    ensures LegacySections(records, view, g, j)[3 * i + 1] == Table(Columns(view), BucketRows(records, view, g, g.order[i]))
    ensures LegacySections(records, view, g, j)[3 * i + 2] == Line("")
  {
    LegacySectionsStep(records, view, g, j);
    var before := LegacySections(records, view, g, j - 1);
    var added := [Line(LegacyHeader + g.order[j - 1]), Table(Columns(view), BucketRows(records, view, g, g.order[j - 1])), Line("")];
    if j > 1 {
      LegacySectionAt(records, view, g, j - 1, if i < j - 1 then i else 0);
    }
    assert |before| == 3 * (j - 1);
    if i < j - 1 {
      assert 3 * i + 2 < |before|;
      PrefixIndex(before, added, 3 * i);
      PrefixIndex(before, added, 3 * i + 1);
      PrefixIndex(before, added, 3 * i + 2);
    }
  }

  // `__print_schedule`

  /** What `__print_schedule` prints, or the KeyError it raises before printing anything: a
      date with a comma is split into a set and grouped, any other is filtered on alone. */
  function LegacyOutput(records: seq<Lesson>, date: string, view: View, pick: Chooser): Result<seq<Printed>>
  {
    match DateFormat(date)
    case Single(d) =>
      (match SingleUpTo(records, d, view, |records|)
       case Failure(e) => Failure(e)
       case Success(rows) => Success(PrintDataFrame(rows, Columns(view))))
    case Multi(dates) =>
      (match LegacyGroupedUpTo(records, dates, pick, |records|)
       case Failure(e) => Failure(e)
       case Success(g) => Success(LegacySections(records, view, g, |g.order|)))
  }

  /** Where no selected record has an unknown slot, a single date prints what the oops
      single-date printer prints; otherwise the slot's KeyError is raised. */
  lemma SingleDateOutput(records: seq<Lesson>, date: string, view: View, pick: Chooser)
    requires Comma !in date
    ensures LegacyOutput(records, date, view, pick).Success? <==> SelectedKnown(records, date, |records|)
    ensures LegacyOutput(records, date, view, pick).Success? ==>
              LegacyOutput(records, date, view, pick).value == SingleOutput(records, date, view)
  {
    SingleAgrees(records, date, view, |records|);
  }

  /** A date list fails exactly when the oops grouper does or a matched record has an
      unknown slot. */
  lemma DateListFails(records: seq<Lesson>, date: string, view: View, pick: Chooser)
    requires Comma in date
    ensures LegacyOutput(records, date, view, pick).Success? <==>
              Grouped(records, DateFormat(date).dates, pick).Success? && MatchedKnown(records, DateFormat(date).dates, |records|)
  {
    GroupedAgrees(records, DateFormat(date).dates, pick, |records|);
  }

  /** Otherwise it prints, for the `i`-th key of the oops grouping, the header of that date,
      the key's table and an empty line. */
  lemma DateListSection(records: seq<Lesson>, date: string, view: View, pick: Chooser, i: nat)
    requires IsChooser(pick) && Comma in date
    requires LegacyOutput(records, date, view, pick).Success?
    requires Grouped(records, DateFormat(date).dates, pick).Success?
    requires i < |Grouped(records, DateFormat(date).dates, pick).value.order|
    ensures var g := Grouped(records, DateFormat(date).dates, pick).value;
            var out := LegacyOutput(records, date, view, pick).value;
            && Consistent(g, |records|)
            && |out| == 3 * |g.order|
            && out[3 * i] == Line(LegacyHeader + g.order[i])
            && out[3 * i + 1] == Table(Columns(view), BucketRows(records, view, g, g.order[i]))
            && out[3 * i + 2] == Line("")
  {
    var sel := DateFormat(date).dates;
    GroupedAgrees(records, sel, pick, |records|);
    GroupedIsSound(records, sel, pick);
    var g := Grouped(records, sel, pick).value;
    LegacySectionAt(records, view, g, |g.order|, i);
  }

  /** After the first `i` records of multi-date mode nothing has failed, and the dict's keys and
      lists are those of the grouping. */
  ghost predicate LegacyFiledUpTo(records: seq<Lesson>, sel: set<string>, view: View, pick: Chooser,
                                  i: nat, keys: seq<string>, lists: map<string, seq<Row>>)
  {
    && i <= |records|
    && LegacyGroupedUpTo(records, sel, pick, i).Success?
    && keys == LegacyGroupedUpTo(records, sel, pick, i).value.order
    && Mirrors(records, view, LegacyGroupedUpTo(records, sel, pick, i).value.members, lists)
  }

  /** The loop body of multi-date mode for record `i`: the shared dates, the chosen date, a new
      list when none of the shared dates is a key, the dict lookup (KeyError on the chosen
      date), then the row lambda (KeyError on the slot). */
  method FileRecord(lessonsDict: LessonsDict, info: Lesson, sel: set<string>, view: View, pick: Chooser,
                    ghost records: seq<Lesson>, i: nat)
    returns (err: Option<Error>)
    requires lessonsDict.Valid() && i < |records| && records[i] == info
    requires LegacyFiledUpTo(records, sel, view, pick, i, lessonsDict.keys, lessonsDict.lists)
    modifies lessonsDict
    ensures lessonsDict.Valid()
    ensures err.None? ==> LegacyFiledUpTo(records, sel, view, pick, i + 1, lessonsDict.keys, lessonsDict.lists)
    ensures err.Some? ==> LegacyGroupedUpTo(records, sel, pick, i + 1) == Failure(err.value)
  {
    ghost var g := LegacyGroupedUpTo(records, sel, pick, i).value;
    var intersectionDate := sel * (set d | d in info.dates);
    assert intersectionDate == Found(sel, info);
    if intersectionDate == {} {
      return None;
    }
    var newDate := pick(i, intersectionDate);
    ghost var before := lessonsDict.lists;
    if intersectionDate * lessonsDict.lists.Keys == {} {
      lessonsDict.Open(newDate);
    }
    ghost var middle := lessonsDict.lists;
    if newDate !in lessonsDict.lists {
      return Some(MissingDateKey(newDate));
    }
    var row := LegacyRow(view, info);
    if row.Failure? {
      return Some(row.error);
    }
    lessonsDict.Append(newDate, view, info);
    if intersectionDate * before.Keys == {} {
      OpenThenAppend(before, middle, lessonsDict.lists, newDate, LessonRow(view, info));
      MirrorsOpen(records, view, g.members, before, newDate, i);
    } else {
      MirrorsFile(records, view, g.members, before, newDate, i);
    }
    err := None;
  }

  /** The filing loop of multi-date mode, up to the first KeyError. */
  method FileRecords(records: seq<Lesson>, sel: set<string>, view: View, pick: Chooser)
    returns (lessonsDict: LessonsDict, err: Option<Error>)
    ensures lessonsDict.Valid()
    ensures err.None? ==> LegacyFiledUpTo(records, sel, view, pick, |records|, lessonsDict.keys, lessonsDict.lists)
    ensures err.Some? ==> LegacyGroupedUpTo(records, sel, pick, |records|) == Failure(err.value)
  {
    lessonsDict := new LessonsDict();
    assert Mirrors(records, view, map[], map[]);
    for i := 0 to |records|
      invariant fresh(lessonsDict) && lessonsDict.Valid()
      invariant LegacyFiledUpTo(records, sel, view, pick, i, lessonsDict.keys, lessonsDict.lists)
    {
      err := FileRecord(lessonsDict, records[i], sel, view, pick, records, i);
      if err.Some? {
        GroupedFailurePersists(records, sel, pick, i + 1, |records|);
        return;
      }
    }
    err := None;
  }

  /** The printing loop of multi-date mode. */
  method PrintLists(records: seq<Lesson>, view: View, ghost g: Groups, keys: seq<string>, lists: map<string, seq<Row>>)
    returns (printed: seq<Printed>)
    requires Consistent(g, |records|)
    requires keys == g.order && Mirrors(records, view, g.members, lists)
    ensures printed == LegacySections(records, view, g, |g.order|)
  {
    printed := [];
    for j := 0 to |keys|
      invariant printed == LegacySections(records, view, g, j)
    {
      LegacySectionsNext(records, view, g, lists, j);
      printed := printed + [Line(LegacyHeader + keys[j])] + PrintDataFrame(lists[keys[j]], Columns(view)) + [Line("")];
    }
  }

  /** Single-date mode: the records carrying the date, in source order. */
  method PrintSingle(records: seq<Lesson>, date: string, view: View) returns (out: Result<seq<Printed>>)
    ensures out == (match SingleUpTo(records, date, view, |records|)
                    case Failure(e) => Failure(e)
                    case Success(rows) => Success(PrintDataFrame(rows, Columns(view))))
  {
    var lessonList := new RowList();
    for i := 0 to |records|
      invariant SingleUpTo(records, date, view, i) == Success(lessonList.rows)
    {
      var info := records[i];
      if date in info.dates {
        var err := AppendRow(view, info, lessonList);
        if err.Some? {
          SingleFailurePersists(records, date, view, i + 1, |records|);
          return Failure(err.value);
        }
      }
    }
    out := Success(PrintDataFrame(lessonList.rows, Columns(view)));
  }

  /** `__print_schedule`. */
  method PrintSchedule(records: seq<Lesson>, date: string, view: View, pick: Chooser)
    returns (out: Result<seq<Printed>>)
    ensures out == LegacyOutput(records, date, view, pick)
  {
    if Comma in date {
      var dates := set p | p in Split(date, Comma);
      var lessonsDict, err := FileRecords(records, dates, view, pick);
      if err.Some? {
        return Failure(err.value);
      }
      var printed := PrintLists(records, view, LegacyGroupedUpTo(records, dates, pick, |records|).value, lessonsDict.keys, lessonsDict.lists);
      out := Success(printed);
    } else {
      out := PrintSingle(records, date, view);
    }
  }

  // Module-level dispatch

  const LegacyAliases: seq<seq<string>> := [["student", "s"], ["lecturers", "l"], ["auditoriums", "a"]]

  /** The if/elif/else chain: the student aliases run the student schedule; the lecturer
      aliases run the search for `search` and the lecturer schedule for any other function;
      everything else lands in the auditorium branch. Reading `args.function` where argparse set
      none raises AttributeError. */
  function LegacyDispatch(subcommand: Option<string>, func: Option<string>): (r: Result<Handler>)
    ensures r.Success? && r.value == StudentSchedule <==> Matches(LegacyAliases[0], subcommand)
    ensures r.Failure? <==> !Matches(LegacyAliases[0], subcommand) && func.None?
    ensures r.Failure? ==> r.error == AttributeError("function")
    ensures r.Success? && r.value in {LecturersSearch, LecturersSchedule} <==>
              !Matches(LegacyAliases[0], subcommand) && Matches(LegacyAliases[1], subcommand) && func.Some?
    ensures r == Success(LecturersSearch) <==>
              !Matches(LegacyAliases[0], subcommand) && Matches(LegacyAliases[1], subcommand) && func == Some("search")
    ensures r == Success(LecturersSchedule) <==>
              !Matches(LegacyAliases[0], subcommand) && Matches(LegacyAliases[1], subcommand) && func.Some? && func.value != "search"
    ensures r == Success(AuditoriumsSearch) <==>
              !Matches(LegacyAliases[0], subcommand) && !Matches(LegacyAliases[1], subcommand) && func == Some("search")
    ensures r == Success(AuditoriumsSchedule) <==>
              !Matches(LegacyAliases[0], subcommand) && !Matches(LegacyAliases[1], subcommand) && func.Some? && func.value != "search"
  {
    if Matches(LegacyAliases[0], subcommand) then Success(StudentSchedule)
    else if Matches(LegacyAliases[1], subcommand) then
      if func.None? then Failure(AttributeError("function"))
      else if func.value == "search" then Success(LecturersSearch)
      else Success(LecturersSchedule)
    else
      if func.None? then Failure(AttributeError("function"))
      else if func.value == "search" then Success(AuditoriumsSearch)
      else Success(AuditoriumsSchedule)
  }

  /** On every pair argparse produces for a sub-command the two clients run the same handler
      for the `k`-th alias tuples: the student parser sets no `function` (and the handler does
      not read it), the lecturers and auditoriums parsers require `search` or `schedule`. */
  lemma DispatchAgrees(k: nat, legacySub: string, sub: string, func: Option<string>)
    requires k < 3 && legacySub in LegacyAliases[k] && sub in SubcommandAliases[k]
    requires k > 0 ==> func.Some? && func.value in {"search", "schedule"}
    ensures LegacyDispatch(Some(legacySub), func).Success?
    ensures StartAll(CliMethodsTable(), Some(sub), func) == Outcome([LegacyDispatch(Some(legacySub), func).value], None)
  {
    DefaultTableDispatch(k, sub, func);
    var legacy := Some(legacySub);
    if k == 0 {
      assert Matches(LegacyAliases[0], legacy);
    } else {
      assert legacySub !in LegacyAliases[0];
      assert k == 1 <==> Matches(LegacyAliases[1], legacy);
    }
  }

  /** Where the clients part on what argparse produces: with no sub-command the namespace has
      no `function`, so the legacy script falls through to the auditorium branch and raises
      AttributeError reading it, while the package runs nothing; and the two parsers name the
      student schedule differently. */
  lemma DispatchDiffers()
    ensures LegacyDispatch(None, None) == Failure(AttributeError("function"))
    ensures StartAll(CliMethodsTable(), None, None) == Outcome([], None)
    ensures "student" in LegacyAliases[0] && "student" !in SubcommandAliases[0]
    ensures "schedule" in SubcommandAliases[0] && forall k :: 0 <= k < 3 ==> "schedule" !in LegacyAliases[k]
  {
    DefaultTableIgnoresUnknown(None, None);
  }
}
