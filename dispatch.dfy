/** `Main` of oops/main.py: the `cli_methods` table, keyed by alias tuples, built in
    `__init__`, and the resolution loop of `start` that runs the handler of the parsed
    sub-command (and, for a table of sub-functions, of the parsed function). Argument parsing
    is not modelled: the parsed `subcommand` and `function` are inputs (`None` when argparse
    left `subcommand` unset, or when the namespace has no `function` attribute). */
module Dispatch {
  import opened Base
  import opened Utils

  /** The five `CliMethod` handlers the table can run. */
  datatype Handler = StudentSchedule | LecturersSearch | LecturersSchedule | AuditoriumsSearch | AuditoriumsSchedule

  /** A value of `cli_methods`: one handler, a dict of handlers by function name, or anything
      else (which `start` rejects). */
  datatype Entry = Method(handler: Handler) | SubTable(functions: map<string, Handler>) | Other

  /** The handlers `start` ran, in order, and the exception that ended it, if any. */
  datatype Outcome = Outcome(invoked: seq<Handler>, raised: Option<Error>)

  const NotFoundSuffix: string := " не найден в cli_methods"
  const BadEntryMessage: string := "В cli_methods словаре должны находиться Factory or dict"

  /** The table `__init__` builds, in insertion order. */
  function CliMethodsTable(): (table: seq<(seq<string>, Entry)>)
    ensures |table| == 3
    ensures forall i :: 0 <= i < 3 ==> table[i].0 == SubcommandAliases[i]
  {
    [(SubcommandAliases[0], Method(StudentSchedule)),
     (SubcommandAliases[1], SubTable(map["search" := LecturersSearch, "schedule" := LecturersSchedule])),
     (SubcommandAliases[2], SubTable(map["search" := AuditoriumsSearch, "schedule" := AuditoriumsSchedule]))]
  }

  /** Does the entry's alias tuple contain the sub-command? */
  predicate Matches(aliases: seq<string>, subcommand: Option<string>)
  {
    subcommand.Some? && subcommand.value in aliases
  }

  /** What one matching entry does: the handler it resolves to, or the exception. */
  function Lookup(entry: Entry, func: Option<string>): Result<Handler>
  {
    match entry
    case Method(h) => Success(h)
    case SubTable(fs) =>
      if func.None? then Failure(AttributeError("function"))
      else if func.value in fs then Success(fs[func.value])
      else Failure(ValueError(func.value + NotFoundSuffix))
    case Other => Failure(ValueError(BadEntryMessage))
  }

  /** The loop of `start` over the first `n` entries: entries that do not match are skipped,
      a matching entry runs its handler, the first exception ends the loop. */
  function StartUpTo(table: seq<(seq<string>, Entry)>, subcommand: Option<string>, func: Option<string>, n: nat): (out: Outcome)
    requires n <= |table|
    ensures |out.invoked| <= n
  {
    if n == 0 then Outcome([], None)
    else
      var before := StartUpTo(table, subcommand, func, n - 1);
      if before.raised.Some? || !Matches(table[n - 1].0, subcommand) then before
      else
        match Lookup(table[n - 1].1, func)
        case Success(h) => Outcome(before.invoked + [h], None)
        case Failure(e) => Outcome(before.invoked, Some(e))
  }

  function StartAll(table: seq<(seq<string>, Entry)>, subcommand: Option<string>, func: Option<string>): Outcome
  {
    StartUpTo(table, subcommand, func, |table|)
  }

  class Main {
    var cliMethods: seq<(seq<string>, Entry)>

    /** `Main.__init__`, without the argument parsers. */
    constructor ()
      ensures cliMethods == CliMethodsTable()
    {
      cliMethods := CliMethodsTable();
    }

    /** `Main.start` after argument parsing. */
    method Start(subcommand: Option<string>, func: Option<string>) returns (out: Outcome)
      ensures out == StartAll(cliMethods, subcommand, func)
    {
      var invoked: seq<Handler> := [];
      for i := 0 to |cliMethods|
        invariant StartUpTo(cliMethods, subcommand, func, i) == Outcome(invoked, None)
      {
        var (aliases, methodOrDict) := cliMethods[i];
        if !(subcommand.Some? && subcommand.value in aliases) {
          continue;
        }
        var handler: Handler;
        match methodOrDict {
          case Method(h) =>
            handler := h;
          case SubTable(fs) =>
            if func.None? {
              RaisedPersists(cliMethods, subcommand, func, i + 1, |cliMethods|);
              return Outcome(invoked, Some(AttributeError("function")));
            }
            if func.value !in fs {
              RaisedPersists(cliMethods, subcommand, func, i + 1, |cliMethods|);
              return Outcome(invoked, Some(ValueError(func.value + NotFoundSuffix)));
            }
            handler := fs[func.value];
          case Other =>
            RaisedPersists(cliMethods, subcommand, func, i + 1, |cliMethods|);
            return Outcome(invoked, Some(ValueError(BadEntryMessage)));
        }
        invoked := invoked + [handler];
      }
      out := Outcome(invoked, None);
    }
  }

  /** Once raised, an exception ends `start`: later entries change nothing. */
  lemma {:induction false} RaisedPersists(table: seq<(seq<string>, Entry)>, subcommand: Option<string>, func: Option<string>, n: nat, m: nat)
    requires n <= m <= |table|
    requires StartUpTo(table, subcommand, func, n).raised.Some?
    ensures StartUpTo(table, subcommand, func, m) == StartUpTo(table, subcommand, func, n)
  {
    if m > n {
      RaisedPersists(table, subcommand, func, n, m - 1);
    }
  }

  /** How many of the first `n` entries match the sub-command. */
  function MatchCount(table: seq<(seq<string>, Entry)>, subcommand: Option<string>, n: nat): nat
    requires n <= |table|
  {
    if n == 0 then 0
    else MatchCount(table, subcommand, n - 1) + (if Matches(table[n - 1].0, subcommand) then 1 else 0)
  }

  /** Each handler run comes from its own matching entry. */
  lemma {:induction false} InvokedAtMostMatches(table: seq<(seq<string>, Entry)>, subcommand: Option<string>, func: Option<string>, n: nat)
    requires n <= |table|
    ensures |StartUpTo(table, subcommand, func, n).invoked| <= MatchCount(table, subcommand, n)
  {
    if n > 0 {
      InvokedAtMostMatches(table, subcommand, func, n - 1);
    }
  }

  /** A sub-command in no alias tuple (or none at all) runs nothing and raises nothing. */
  lemma {:induction false} UnknownSubcommandDoesNothing(table: seq<(seq<string>, Entry)>, subcommand: Option<string>, func: Option<string>, n: nat)
    requires n <= |table|
    requires forall i :: 0 <= i < n ==> !Matches(table[i].0, subcommand)
    ensures StartUpTo(table, subcommand, func, n) == Outcome([], None)
  {
    if n > 0 {
      UnknownSubcommandDoesNothing(table, subcommand, func, n - 1);
    }
  }

  /** With pairwise disjoint alias tuples, at most one entry matches. */
  lemma {:induction false} DisjointAtMostOneMatch(table: seq<(seq<string>, Entry)>, subcommand: Option<string>, n: nat)
    requires n <= |table|
    requires forall i, j, a :: 0 <= i < j < |table| && a in table[i].0 ==> a !in table[j].0
    ensures MatchCount(table, subcommand, n) <= 1
    ensures MatchCount(table, subcommand, n) == 1 ==> exists i :: 0 <= i < n && Matches(table[i].0, subcommand)
  {
    if n > 0 {
      DisjointAtMostOneMatch(table, subcommand, n - 1);
    }
  }

  /** Disjoint alias tuples: at most one handler runs per invocation. */
  lemma AtMostOneHandler(table: seq<(seq<string>, Entry)>, subcommand: Option<string>, func: Option<string>)
    requires forall i, j, a :: 0 <= i < j < |table| && a in table[i].0 ==> a !in table[j].0
    ensures |StartAll(table, subcommand, func).invoked| <= 1
  {
    InvokedAtMostMatches(table, subcommand, func, |table|);
    DisjointAtMostOneMatch(table, subcommand, |table|);
  }

  /** The only matching entry decides the outcome alone. */
  lemma {:induction false} OnlyMatchDecides(table: seq<(seq<string>, Entry)>, subcommand: Option<string>, func: Option<string>, k: nat, n: nat)
    requires k < n <= |table|
    requires Matches(table[k].0, subcommand)
    requires forall i :: 0 <= i < n && i != k ==> !Matches(table[i].0, subcommand)
    ensures StartUpTo(table, subcommand, func, n) ==
              match Lookup(table[k].1, func)
              case Success(h) => Outcome([h], None)
              case Failure(e) => Outcome([], Some(e))
  {
    if n - 1 == k {
      UnknownSubcommandDoesNothing(table, subcommand, func, k);
      if Lookup(table[k].1, func).Success? {
        var h := Lookup(table[k].1, func).value;
        assert [] + [h] == [h];
      }
    } else {
      OnlyMatchDecides(table, subcommand, func, k, n - 1);
    }
  }

  /** The lecturers and auditoriums entries register exactly `search` and `schedule`; the
      student entry is a single handler. */
  lemma TableShape()
    ensures CliMethodsTable()[0].1 == Method(StudentSchedule)
    ensures CliMethodsTable()[1].1.SubTable? && CliMethodsTable()[1].1.functions.Keys == {"search", "schedule"}
    ensures CliMethodsTable()[2].1.SubTable? && CliMethodsTable()[2].1.functions.Keys == {"search", "schedule"}
  {
  }

  /** The table as built runs: the student handler for `schedule`/`s` whatever the function;
      for `lecturers`/`l` and `auditoriums`/`a` the handler registered for the function, a
      ValueError for an unregistered one, an AttributeError when there is no function. */
  lemma DefaultTableDispatch(k: nat, subcommand: string, func: Option<string>)
    requires k < 3 && subcommand in SubcommandAliases[k]
    ensures var out := StartAll(CliMethodsTable(), Some(subcommand), func);
            && (k == 0 ==> out == Outcome([StudentSchedule], None))
            && (k > 0 && func.None? ==> out == Outcome([], Some(AttributeError("function"))))
            && (k > 0 && func.Some? && func.value !in {"search", "schedule"} ==>
                  out == Outcome([], Some(ValueError(func.value + NotFoundSuffix))))
            && (k == 1 && func == Some("search") ==> out == Outcome([LecturersSearch], None))
            && (k == 1 && func == Some("schedule") ==> out == Outcome([LecturersSchedule], None))
            && (k == 2 && func == Some("search") ==> out == Outcome([AuditoriumsSearch], None))
            && (k == 2 && func == Some("schedule") ==> out == Outcome([AuditoriumsSchedule], None))
  {
    var table := CliMethodsTable();
    SubcommandAliasesDisjoint();
    forall i | 0 <= i < 3 && i != k
      ensures !Matches(table[i].0, Some(subcommand))
    {
      if i < k {
        assert subcommand !in SubcommandAliases[i];
      }
    }
    OnlyMatchDecides(table, Some(subcommand), func, k, 3);
  }

  /** Any other sub-command (or none) does nothing. */
  lemma DefaultTableIgnoresUnknown(subcommand: Option<string>, func: Option<string>)
    requires subcommand.Some? ==> forall k :: 0 <= k < 3 ==> subcommand.value !in SubcommandAliases[k]
    ensures StartAll(CliMethodsTable(), subcommand, func) == Outcome([], None)
  {
    UnknownSubcommandDoesNothing(CliMethodsTable(), subcommand, func, 3);
  }
}
