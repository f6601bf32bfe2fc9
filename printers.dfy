/** `SchedulePrinter` of oops/printers.py: the single-date and multi-date printing loops and
    the dispatch between them. Rows are appended in place to Python lists (`RowList`), the
    multi-date lists sit in an insertion-ordered dict (`keys` plus `lists`). */
module Printers {
  import opened Base
  import opened Utils
  import opened Lessons
  import opened Grouping

  const Header: string := "\nРасписание на "

  /** What `_print_schedule` prints for one date. */
  function SingleOutput(records: seq<Lesson>, date: string, view: View): seq<Printed>
  {
    PrintDataFrame(RowsAt(view, records, Selected(records, date)), Columns(view))
  }

  /** The rows in the list of key `k`. */
  function BucketRows(records: seq<Lesson>, view: View, g: Groups, k: string): seq<Row>
    requires Consistent(g, |records|) && k in g.members
  {
    RowsAt(view, records, g.members[k])
  }

  /** What the second loop of `_print_schedule_list` prints for the first `j` keys: per key,
      a header line, then the table of its rows. */
  function Sections(records: seq<Lesson>, view: View, g: Groups, j: nat): seq<Printed>
    requires Consistent(g, |records|) && j <= |g.order|
  {
    if j == 0 then []
    else
      var date := g.order[j - 1];
      Sections(records, view, g, j - 1) + [Line(Header + date)] + PrintDataFrame(BucketRows(records, view, g, date), Columns(view))
  }

  /** No key of the dict holds an empty list. */
  ghost predicate NoEmptyList(g: Groups)
  {
    forall k :: k in g.members ==> g.members[k] != []
  }

  /** One key adds exactly its header line and its table: a key's list is never empty. */
  lemma SectionsStep(records: seq<Lesson>, view: View, g: Groups, j: nat)
    requires Consistent(g, |records|) && NoEmptyList(g) && 0 < j <= |g.order|
    ensures Sections(records, view, g, j) == Sections(records, view, g, j - 1) +
              [Line(Header + g.order[j - 1]), Table(Columns(view), BucketRows(records, view, g, g.order[j - 1]))]
  {
    var date := g.order[j - 1];
    var rows := BucketRows(records, view, g, date);
    assert |rows| == |g.members[date]| > 0;
  }

  /** The grouped output, key by key in creation order: the `i`-th key's header line, then
      its table. No table is skipped. */
  lemma {:induction false} SectionAt(records: seq<Lesson>, view: View, g: Groups, j: nat, i: nat)
    requires Consistent(g, |records|) && NoEmptyList(g) && i < j <= |g.order|
    ensures |Sections(records, view, g, j)| == 2 * j
    ensures Sections(records, view, g, j)[2 * i] == Line(Header + g.order[i])
    ensures Sections(records, view, g, j)[2 * i + 1] == Table(Columns(view), BucketRows(records, view, g, g.order[i]))
  {
    SectionsStep(records, view, g, j);
    var before := Sections(records, view, g, j - 1);
    var added := [Line(Header + g.order[j - 1]), Table(Columns(view), BucketRows(records, view, g, g.order[j - 1]))];
    if j > 1 {
      SectionAt(records, view, g, j - 1, if i < j - 1 then i else 0);
    }
    assert |before| == 2 * (j - 1);
    if i < j - 1 {
      assert 2 * i + 1 < |before|;
      PrefixIndex(before, added, 2 * i);
      PrefixIndex(before, added, 2 * i + 1);
    }
  }

  /** Appending to a sequence leaves its existing entries where they were. */
  lemma PrefixIndex<T>(a: seq<T>, b: seq<T>, x: nat)
    requires x < |a|
    ensures (a + b)[x] == a[x]
  {
  }

  /** What `_print_schedule_list` prints, or the KeyError it raises before printing anything. */
  function ListOutput(records: seq<Lesson>, sel: set<string>, view: View, pick: Chooser): Result<seq<Printed>>
  {
    match Grouped(records, sel, pick)
    case Failure(e) => Failure(e)
    case Success(g) => Success(Sections(records, view, g, |g.order|))
  }

  /** `_print_schedule`: one row per record whose dates contain `date`, in source order,
      printed as a single table (nothing when no record matches). */
  method PrintSchedule(records: seq<Lesson>, date: string, view: View) returns (out: seq<Printed>)
    ensures out == SingleOutput(records, date, view)
  {
    var lessonList := new RowList();
    for i := 0 to |records|
      invariant lessonList.rows == RowsAt(view, records, SelectedUpTo(records, date, i))
    {
      var info := records[i];
      if date in info.dates {
        var lesson := info;
        AppendLesson(view, lesson, lessonList);
        RowsAtAppend(view, records, SelectedUpTo(records, date, i), i);
      }
    }
    out := PrintDataFrame(lessonList.rows, Columns(view));
  }

  /** The dict's lists hold, under each key, exactly the rows of the records filed under it. */
  ghost predicate Mirrors(records: seq<Lesson>, view: View, members: map<string, seq<nat>>, lists: map<string, seq<Row>>)
  {
    && IndicesBelow(members, |records|)
    && lists.Keys == members.Keys
    && forall k :: k in lists ==> lists[k] == RowsAt(view, records, members[k])
  }

  /** A new list for `k` holding record `i`'s row mirrors a new key `k` filing `i`. */
  lemma MirrorsOpen(records: seq<Lesson>, view: View, members: map<string, seq<nat>>, lists: map<string, seq<Row>>, k: string, i: nat)
    requires Mirrors(records, view, members, lists) && i < |records|
    ensures Mirrors(records, view, members[k := [i]], lists[k := [LessonRow(view, records[i])]])
  {
    RowsAtAppend(view, records, [], i);
    assert [] + [i] == [i];
    assert RowsAt(view, records, [i]) == [LessonRow(view, records[i])];
  }

  /** Appending record `i`'s row to the list of `k` mirrors filing `i` under `k`. */
  lemma MirrorsFile(records: seq<Lesson>, view: View, members: map<string, seq<nat>>, lists: map<string, seq<Row>>, k: string, i: nat)
    requires Mirrors(records, view, members, lists) && i < |records| && k in members
    ensures Mirrors(records, view, members[k := members[k] + [i]], lists[k := lists[k] + [LessonRow(view, records[i])]])
  {
    var members' := members[k := members[k] + [i]];
    var lists' := lists[k := lists[k] + [LessonRow(view, records[i])]];
    IndicesBelowFile(members, |records|, k, i);
    forall k' | k' in lists'
      ensures lists'[k'] == RowsAt(view, records, members'[k'])
    {
      if k' == k {
        RowsAtAppend(view, records, members[k], i);
      } else {
        assert lists'[k'] == lists[k'] && members'[k'] == members[k'];
      }
    }
  }

  lemma IndicesBelowFile(members: map<string, seq<nat>>, n: nat, k: string, i: nat)
    requires IndicesBelow(members, n) && k in members && i < n
    ensures IndicesBelow(members[k := members[k] + [i]], n)
  {
  }

  /** Printing the list of the next key extends the output by that key's section. */
  lemma SectionsNext(records: seq<Lesson>, view: View, g: Groups, lists: map<string, seq<Row>>, j: nat)
    requires Consistent(g, |records|) && Mirrors(records, view, g.members, lists) && j < |g.order|
    ensures g.order[j] in lists
    ensures Sections(records, view, g, j + 1) ==
              Sections(records, view, g, j) + [Line(Header + g.order[j])] + PrintDataFrame(lists[g.order[j]], Columns(view))
  {
  }

  /** A list opened empty and then appended to holds just the appended row. */
  lemma OpenThenAppend(before: map<string, seq<Row>>, middle: map<string, seq<Row>>, after: map<string, seq<Row>>, k: string, row: Row)
    requires middle == before[k := []] && after == middle[k := middle[k] + [row]]
    ensures after == before[k := [row]]
  {
    assert [] + [row] == [row];
  }

  /** `lessons_dict`: an insertion-ordered dict from a date to the list of its rows. */
  class LessonsDict {
    var keys: seq<string>
    var lists: map<string, seq<Row>>

    ghost predicate Valid()
      reads this
    {
      && (forall a, b :: 0 <= a < b < |keys| ==> keys[a] != keys[b])
      && (forall k :: k in lists <==> k in keys)
    }

    constructor ()
      ensures Valid() && keys == [] && lists == map[]
    {
      keys, lists := [], map[];
    }

    /** `lessons_dict[k] = []`: an empty list under `k`; a new key goes to the end. */
    method Open(k: string)
      requires Valid()
      modifies this
      ensures Valid()
      ensures keys == if k in old(lists) then old(keys) else old(keys) + [k]
      ensures lists == old(lists)[k := []]
    {
      if k !in lists {
        keys := keys + [k];
      }
      lists := lists[k := []];
    }

    /** `append_function(lesson, lessons_dict[k])` for a key `k` of the dict. */
    method Append(k: string, view: View, lesson: Lesson)
      requires Valid() && k in lists
      modifies this
      ensures Valid() && keys == old(keys)
      ensures lists == old(lists)[k := old(lists)[k] + [LessonRow(view, lesson)]]
    {
      lists := lists[k := lists[k] + [LessonRow(view, lesson)]];
    }
  }

  /** After the first `i` records the grouper has not failed, and the dict's keys and lists
      are those of its grouping. */
  ghost predicate FiledUpTo(records: seq<Lesson>, sel: set<string>, view: View, pick: Chooser,
                            i: nat, keys: seq<string>, lists: map<string, seq<Row>>)
  {
    && i <= |records|
    && GroupedUpTo(records, sel, pick, i).Success?
    && keys == GroupedUpTo(records, sel, pick, i).value.order
    && Mirrors(records, view, GroupedUpTo(records, sel, pick, i).value.members, lists)
  }

  /** The body of the filing loop of `_print_schedule_list` for record `i`: the dates it shares
      with `sel`, the chosen date, a fresh list when none of them is a key yet, then the append
      (the KeyError, when the chosen date is not a key). */
  method FileRecord(lessonsDict: LessonsDict, info: Lesson, sel: set<string>, view: View, pick: Chooser,
                    ghost records: seq<Lesson>, i: nat)
    returns (err: Option<Error>)
    requires lessonsDict.Valid() && i < |records| && records[i] == info
    requires FiledUpTo(records, sel, view, pick, i, lessonsDict.keys, lessonsDict.lists)
    modifies lessonsDict
    ensures lessonsDict.Valid()
    ensures err.None? ==> FiledUpTo(records, sel, view, pick, i + 1, lessonsDict.keys, lessonsDict.lists)
    ensures err.Some? ==> GroupedUpTo(records, sel, pick, i + 1) == Failure(err.value)
  {
    ghost var g := GroupedUpTo(records, sel, pick, i).value;
    var found := sel * (set d | d in info.dates);
    assert found == Found(sel, info);
    assert GroupedUpTo(records, sel, pick, i + 1) == Step(g, i, found, pick);
    if found == {} {
      return None;
    }
    var newDate := pick(i, found);
    ghost var before := lessonsDict.lists;
    if found * lessonsDict.lists.Keys == {} {
      lessonsDict.Open(newDate);
    }
    ghost var middle := lessonsDict.lists;
    if newDate !in lessonsDict.lists {
      return Some(MissingDateKey(newDate));
    }
    lessonsDict.Append(newDate, view, info);
    if found * before.Keys == {} {
      OpenThenAppend(before, middle, lessonsDict.lists, newDate, LessonRow(view, info));
      MirrorsOpen(records, view, g.members, before, newDate, i);
    } else {
      MirrorsFile(records, view, g.members, before, newDate, i);
    }
    err := None;
  }

  /** The filing loop of `_print_schedule_list`: stops at the first KeyError, otherwise leaves
      the dict holding, per key in creation order, the rows of the records filed under it. */
  method FileRecords(records: seq<Lesson>, sel: set<string>, view: View, pick: Chooser)
    returns (lessonsDict: LessonsDict, err: Option<Error>)
    ensures lessonsDict.Valid()
    ensures err.None? ==> FiledUpTo(records, sel, view, pick, |records|, lessonsDict.keys, lessonsDict.lists)
    ensures err.Some? ==> Grouped(records, sel, pick) == Failure(err.value)
  {
    lessonsDict := new LessonsDict();
    assert Mirrors(records, view, map[], map[]);
    for i := 0 to |records|
      invariant fresh(lessonsDict) && lessonsDict.Valid()
      invariant FiledUpTo(records, sel, view, pick, i, lessonsDict.keys, lessonsDict.lists)
    {
      err := FileRecord(lessonsDict, records[i], sel, view, pick, records, i);
      if err.Some? {
        FailurePersists(records, sel, pick, i + 1, |records|);
        return;
      }
    }
    err := None;
  }

  /** `_print_schedule_list`: files each record sharing a date with `sel` into the list of one
      chosen date, then prints one header and one table per key, in key-creation order. */
  method PrintScheduleList(records: seq<Lesson>, sel: set<string>, view: View, pick: Chooser)
    returns (out: Result<seq<Printed>>)
    ensures out == ListOutput(records, sel, view, pick)
  {
    var lessonsDict, err := FileRecords(records, sel, view, pick);
    if err.Some? {
      return Failure(err.value);
    }
    var printed := PrintLists(records, view, Grouped(records, sel, pick).value, lessonsDict.keys, lessonsDict.lists);
    out := Success(printed);
  }

  /** The printing loop of `_print_schedule_list`: per key of the dict, in order, a header
      line with the date, then the table of that key's rows. */
  method PrintLists(records: seq<Lesson>, view: View, ghost g: Groups, keys: seq<string>, lists: map<string, seq<Row>>)
    returns (printed: seq<Printed>)
    requires Consistent(g, |records|)
    requires keys == g.order && Mirrors(records, view, g.members, lists)
    ensures printed == Sections(records, view, g, |g.order|)
  {
    printed := [];
    for j := 0 to |keys|
      invariant printed == Sections(records, view, g, j)
    {
      SectionsNext(records, view, g, lists, j);
      printed := printed + [Line(Header + keys[j])] + PrintDataFrame(lists[keys[j]], Columns(view));
    }
  }

  // The corrected multi-date printer: on an overlap, file under a date that is already a key

  /** What the corrected multi-date printer prints; it never raises. */
  function FixedListOutput(records: seq<Lesson>, sel: set<string>, view: View, pick: Chooser): seq<Printed>
    requires IsChooser(pick)
  {
    var g := FixedGroupedUpTo(records, sel, pick, |records|);
    Sections(records, view, g, |g.order|)
  }

  /** Wherever the printer as written does not raise, the corrected one prints the same. */
  lemma FixedListAgrees(records: seq<Lesson>, sel: set<string>, view: View, pick: Chooser)
    requires IsChooser(pick)
    ensures ListOutput(records, sel, view, pick).Success? ==>
              ListOutput(records, sel, view, pick).value == FixedListOutput(records, sel, view, pick)
  {
    AsWrittenAgreesWithFixed(records, sel, pick, |records|);
  }

  /** After the first `i` records the dict's keys and lists are those of the corrected grouping. */
  ghost predicate FixedFiledUpTo(records: seq<Lesson>, sel: set<string>, view: View, pick: Chooser,
                                 i: nat, keys: seq<string>, lists: map<string, seq<Row>>)
    requires IsChooser(pick)
  {
    && i <= |records|
    && keys == FixedGroupedUpTo(records, sel, pick, i).order
    && Mirrors(records, view, FixedGroupedUpTo(records, sel, pick, i).members, lists)
  }

  /** The corrected loop body: when the chosen date is not a key although the intersection
      overlaps the keys, the record goes to the list of a date of the overlap. */
  method FixedFileRecord(lessonsDict: LessonsDict, info: Lesson, sel: set<string>, view: View, pick: Chooser,
                         ghost records: seq<Lesson>, i: nat)
    requires IsChooser(pick) && lessonsDict.Valid() && i < |records| && records[i] == info
    requires FixedFiledUpTo(records, sel, view, pick, i, lessonsDict.keys, lessonsDict.lists)
    modifies lessonsDict
    ensures lessonsDict.Valid()
    ensures FixedFiledUpTo(records, sel, view, pick, i + 1, lessonsDict.keys, lessonsDict.lists)
  {
    ghost var g := FixedGroupedUpTo(records, sel, pick, i);
    var found := sel * (set d | d in info.dates);
    assert found == Found(sel, info);
    if found == {} {
      return;
    }
    var newDate := pick(i, found);
    ghost var before := lessonsDict.lists;
    var overlap := found * lessonsDict.lists.Keys;
    if overlap == {} {
      lessonsDict.Open(newDate);
    } else if newDate !in lessonsDict.lists {
      newDate := pick(i, overlap);
    }
    assert newDate == FixedKey(g, i, found, pick);
    ghost var middle := lessonsDict.lists;
    lessonsDict.Append(newDate, view, info);
    if overlap == {} {
      OpenThenAppend(before, middle, lessonsDict.lists, newDate, LessonRow(view, info));
      MirrorsOpen(records, view, g.members, before, newDate, i);
    } else {
      MirrorsFile(records, view, g.members, before, newDate, i);
    }
  }

  /** The corrected `_print_schedule_list`: it never raises, and prints one header and one
      table per key of the corrected grouping, in key-creation order. */
  method FixedPrintScheduleList(records: seq<Lesson>, sel: set<string>, view: View, pick: Chooser)
    returns (out: seq<Printed>)
    requires IsChooser(pick)
    ensures out == FixedListOutput(records, sel, view, pick)
  {
    var lessonsDict := new LessonsDict();
    assert Mirrors(records, view, map[], map[]);
    for i := 0 to |records|
      invariant fresh(lessonsDict) && lessonsDict.Valid()
      invariant FixedFiledUpTo(records, sel, view, pick, i, lessonsDict.keys, lessonsDict.lists)
    {
      FixedFileRecord(lessonsDict, records[i], sel, view, pick, records, i);
    }
    out := PrintLists(records, view, FixedGroupedUpTo(records, sel, pick, |records|), lessonsDict.keys, lessonsDict.lists);
  }

  /** `SchedulePrinter.__call__`: a string selects single-date printing, anything else is
      made a set and printed grouped. */
  method Call(records: seq<Lesson>, selector: Selector, view: View, pick: Chooser)
    returns (out: Result<seq<Printed>>)
    ensures selector.Single? ==> out == Success(SingleOutput(records, selector.date, view))
    ensures selector.Multi? ==> out == ListOutput(records, selector.dates, view, pick)
  {
    match selector
    case Single(date) =>
      var printed := PrintSchedule(records, date, view);
      out := Success(printed);
    case Multi(dates) =>
      out := PrintScheduleList(records, dates, view, pick);
  }
}
