/** Constants and helpers of oops/utils.py: the lesson-slot table, the sub-command aliases
    and the empty-table guard of `print_data_frame`. */
module Utils {
  import opened Base

  /** One printed cell: a string, or Python's `None` (an unknown slot time). */
  type Row = seq<Option<string>>

  /** What the client writes to standard output: a text line, or a table rendered by pandas
      (the rendering itself is not modelled, only which rows under which headers). */
  datatype Printed = Line(text: string) | Table(columns: seq<string>, rows: seq<Row>)

  /** The alias tuples of the three sub-commands, in table order. */
  const SubcommandAliases: seq<seq<string>> := [["schedule", "s"], ["lecturers", "l"], ["auditoriums", "a"]]

  /** Start time of each of the six daily lesson slots. */
  const Times: map<int, string> :=
    map[1 := "9:00", 2 := "10:45", 3 := "13:15", 4 := "15:00", 5 := "16:45", 6 := "18:30"]

  /** `get_time`: `TIMES.get(lesson_class)`, which never raises. */
  function GetTime(lessonClass: int): (r: Option<string>)
    ensures r.Some? <==> 1 <= lessonClass <= 6
    ensures r.Some? ==> r.value == Times[lessonClass]
  {
    if lessonClass in Times then Some(Times[lessonClass]) else None
  }

  lemma TimesAreSixDistinctSlots()
    ensures forall k :: k in Times <==> 1 <= k <= 6
    ensures forall a, b :: a in Times && b in Times && a != b ==> Times[a] != Times[b]
  {
  }

  lemma GetTimeExamples()
    ensures GetTime(1) == Some("9:00")
    ensures GetTime(3) == Some("13:15")
    ensures GetTime(6) == Some("18:30")
    ensures GetTime(0) == None && GetTime(7) == None && GetTime(-1) == None
  {
  }

  /** No alias names two sub-commands. */
  lemma SubcommandAliasesDisjoint()
    ensures |SubcommandAliases| == 3
    ensures forall i, j, a :: 0 <= i < j < |SubcommandAliases| && a in SubcommandAliases[i] ==> a !in SubcommandAliases[j]
  {
  }

  /** `print_data_frame`: an empty row list prints nothing at all, not even the headers;
      otherwise exactly one table with the given headers and the rows in order. */
  function PrintDataFrame(rows: seq<Row>, columns: seq<string>): (out: seq<Printed>)
    ensures out == [] <==> rows == []
    ensures |out| <= 1
    ensures forall p :: p in out ==> p == Table(columns, rows)
  {
    if rows == [] then [] else [Table(columns, rows)]
  }
}
