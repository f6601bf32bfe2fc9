/** The lesson record, the three schedule views of oops/cli_methods.py, their row formatters
    and the `__append_function` callback that grows a caller's row list in place. */
module Lessons {
  import opened Base
  import opened Utils

  /** One entry of the `classes` list of a schedule response. */
  datatype Lesson = Lesson(
    lessonClass: int,
    auditorium: string,
    lessonType: string,
    discipline: string,
    lecturer: string,
    groups: string,
    dates: seq<string>)

  /** The three schedule sub-commands: student, lecturer and auditorium schedules. */
  datatype View = StudentView | LecturerView | AuditoriumView

  /** What the printer is asked to filter by: one date, or a set of dates. */
  datatype Selector = Single(date: string) | Multi(dates: set<string>)

  /** `COLUMNS` of each schedule view. */
  function Columns(view: View): (cols: seq<string>)
    ensures |cols| == 4 && cols[0] == "Начало"
  {
    match view
    case StudentView => ["Начало", "Аудитория", "Дисциплина", "Прдподаватель"]
    case LecturerView => ["Начало", "Аудитория", "Дисциплина", "Группы"]
    case AuditoriumView => ["Начало", "Дисциплина", "Педагог", "Группы"]
  }

  /** The "type-discipline" cell shared by all three views. */
  function DisciplineCell(lesson: Lesson): string
  {
    lesson.lessonType + "-" + lesson.discipline
  }

  /** `_get_lesson` of each view: one row per lesson, one cell per column, the time first. */
  function GetLesson(view: View, time: Option<string>, lesson: Lesson): (row: Row)
    ensures |row| == |Columns(view)|
    ensures row[0] == time
    ensures Some(DisciplineCell(lesson)) == row[if view == AuditoriumView then 1 else 2]
    ensures view != AuditoriumView ==> row[1] == Some(lesson.auditorium)
    ensures view != LecturerView ==> row[if view == StudentView then 3 else 2] == Some(lesson.lecturer)
    ensures view != StudentView ==> row[3] == Some(lesson.groups)
  {
    match view
    case StudentView =>
      [time, Some(lesson.auditorium), Some(DisciplineCell(lesson)), Some(lesson.lecturer)]
    case LecturerView =>
      [time, Some(lesson.auditorium), Some(DisciplineCell(lesson)), Some(lesson.groups)]
    case AuditoriumView =>
      [time, Some(DisciplineCell(lesson)), Some(lesson.lecturer), Some(lesson.groups)]
  }

  /** The row `__append_function` builds: the slot time comes from `get_time`. */
  function LessonRow(view: View, lesson: Lesson): Row
  {
    GetLesson(view, GetTime(lesson.lessonClass), lesson)
  }

  /** The rows of the records at the given indices, in the order of the indices. */
  function RowsAt(view: View, records: seq<Lesson>, idx: seq<nat>): (rows: seq<Row>)
    requires forall j :: 0 <= j < |idx| ==> idx[j] < |records|
    ensures |rows| == |idx|
  {
    if idx == [] then []
    else RowsAt(view, records, idx[..|idx| - 1]) + [LessonRow(view, records[idx[|idx| - 1]])]
  }

  /** Filing one more record appends exactly its row. */
  lemma RowsAtAppend(view: View, records: seq<Lesson>, idx: seq<nat>, i: nat)
    requires forall j :: 0 <= j < |idx| ==> idx[j] < |records|
    requires i < |records|
    ensures RowsAt(view, records, idx + [i]) == RowsAt(view, records, idx) + [LessonRow(view, records[i])]
  {
    assert (idx + [i])[..|idx|] == idx;
  }

  /** The `j`-th row is the row of the `j`-th index. */
  lemma {:induction false} RowsAtIndex(view: View, records: seq<Lesson>, idx: seq<nat>, j: nat)
    requires forall j :: 0 <= j < |idx| ==> idx[j] < |records|
    requires j < |idx|
    ensures RowsAt(view, records, idx)[j] == LessonRow(view, records[idx[j]])
  {
    if j < |idx| - 1 {
      RowsAtIndex(view, records, idx[..|idx| - 1], j);
    }
  }

  /** A Python list of rows that callees append to in place. */
  class RowList {
    var rows: seq<Row>

    constructor ()
      ensures rows == []
    {
      rows := [];
    }
  }

  /** `__append_function`: appends exactly one row, built from `get_time(lesson["class"])`,
      to the end of the caller's list and leaves the earlier entries as they were. */
  method AppendLesson(view: View, lesson: Lesson, list: RowList)
    modifies list
    ensures list.rows == old(list.rows) + [LessonRow(view, lesson)]
    ensures list.rows[|old(list.rows)|][0] == GetTime(lesson.lessonClass)
  {
    var time := GetTime(lesson.lessonClass);
    var item := GetLesson(view, time, lesson);
    list.rows := list.rows + [item];
  }
}
