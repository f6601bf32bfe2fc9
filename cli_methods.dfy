/** `ScheduleMixin` of oops/cli_methods.py: the `--date` normalisation `date_format` and the
    `print` method that hands the normalised date, the view's columns and the row callback to
    the schedule printer. The row formatters and `__append_function` are in module Lessons. */
module CliMethods {
  import opened Base
  import opened Utils
  import opened Lessons
  import opened Grouping
  import opened Printers

  const Comma: char := ','

  /** Python's `s.split(sep)` for a one-character separator: the maximal separator-free
      pieces between separators, empty ones included. */
  function Split(s: string, sep: char): (pieces: seq<string>)
    ensures |pieces| >= 1
    ensures forall p :: p in pieces ==> sep !in p
  {
    if s == [] then [""]
    else
      var rest := Split(s[1..], sep);
      if s[0] == sep then [""] + rest
      else [[s[0]] + rest[0]] + rest[1..]
  }

  /** `sep.join(pieces)`. */
  function Join(pieces: seq<string>, sep: char): string
    requires |pieces| >= 1
  {
    if |pieces| == 1 then pieces[0]
    else pieces[0] + [sep] + Join(pieces[1..], sep)
  }

  /** Gluing a character to the front of the first piece glues it to the front of the join. */
  lemma JoinOntoFirst(c: char, pieces: seq<string>, sep: char)
    requires |pieces| >= 1
    ensures Join([[c] + pieces[0]] + pieces[1..], sep) == [c] + Join(pieces, sep)
  {
    var glued := [[c] + pieces[0]] + pieces[1..];
    assert glued[1..] == pieces[1..];
  }

  /** Joining the pieces back with the separator gives the original string. */
  lemma {:induction false} JoinSplit(s: string, sep: char)
    ensures Join(Split(s, sep), sep) == s
  {
    if s != [] {
      var rest := Split(s[1..], sep);
      JoinSplit(s[1..], sep);
      if s[0] == sep {
        assert ([""] + rest)[1..] == rest;
      } else {
        JoinOntoFirst(s[0], rest, sep);
      }
      assert s == [s[0]] + s[1..];
    }
  }

  lemma {:induction false} SplitWithoutSeparator(a: string, sep: char)
    requires sep !in a
    ensures Split(a, sep) == [a]
  {
    if a != [] {
      SplitWithoutSeparator(a[1..], sep);
      assert a == [a[0]] + a[1..];
    }
  }

  /** A separator-free prefix followed by the separator is the first piece. */
  lemma {:induction false} SplitAfterFirstPiece(a: string, b: string, sep: char)
    requires sep !in a
    ensures Split(a + [sep] + b, sep) == [a] + Split(b, sep)
  {
    var s := a + [sep] + b;
    if a == [] {
      assert s[0] == sep && s[1..] == b;
    } else {
      assert s[0] == a[0] && s[1..] == a[1..] + [sep] + b;
      SplitAfterFirstPiece(a[1..], b, sep);
      assert [a[0]] + a[1..] == a;
    }
  }

  /** Splitting a join of separator-free pieces gives the pieces back: `Split` cuts a
      string in exactly one way. */
  lemma {:induction false} SplitJoin(pieces: seq<string>, sep: char)
    requires |pieces| >= 1
    requires forall p :: p in pieces ==> sep !in p
    ensures Split(Join(pieces, sep), sep) == pieces
  {
    if |pieces| == 1 {
      SplitWithoutSeparator(pieces[0], sep);
    } else {
      assert pieces[0] in pieces;
      SplitJoin(pieces[1..], sep);
      SplitAfterFirstPiece(pieces[0], Join(pieces[1..], sep), sep);
      assert [pieces[0]] + pieces[1..] == pieces;
    }
  }

  /** `date_format`: a date without a comma is used as it is; otherwise the set of its
      comma-separated pieces. */
  function DateFormat(date: string): (sel: Selector)
    ensures sel.Single? <==> Comma !in date
    ensures sel.Single? ==> sel.date == date
    ensures sel.Multi? ==> forall d :: d in sel.dates ==> Comma !in d
  {
    if Comma in date then Multi(set p | p in Split(date, Comma)) else Single(date)
  }

  /** The pieces of a comma-separated date list are exactly the set's elements, and joining
      them again restores the date list. */
  lemma DateFormatPieces(date: string)
    requires Comma in date
    ensures forall d :: d in DateFormat(date).dates <==> d in Split(date, Comma)
    ensures Join(Split(date, Comma), Comma) == date
  {
    JoinSplit(date, Comma);
  }

  /** Two comma-free dates joined by a comma give the set of the two; equal dates collapse
      into one, and an empty second piece (a trailing comma) is the empty date. */
  lemma DateFormatTwoPieces(a: string, b: string)
    requires Comma !in a && Comma !in b
    ensures DateFormat(a + [Comma] + b) == Multi({a, b})
  {
    var date := a + [Comma] + b;
    assert date[|a|] == Comma;
    SplitAfterFirstPiece(a, b, Comma);
    SplitWithoutSeparator(b, Comma);
    assert Split(date, Comma) == [a, b];
    assert (set p | p in [a, b]) == {a, b};
  }

  /** A date given twice collapses into one. */
  lemma DateFormatDuplicate(a: string)
    requires Comma !in a
    ensures DateFormat(a + [Comma] + a) == Multi({a})
  {
    DateFormatTwoPieces(a, a);
  }

  /** A trailing comma adds the empty date. */
  lemma DateFormatTrailingComma(a: string)
    requires Comma !in a
    ensures DateFormat(a + [Comma]) == Multi({a, ""})
  {
    DateFormatTwoPieces(a, "");
    assert a + [Comma] + "" == a + [Comma];
  }

  /** `ScheduleMixin.print`: normalise the date, then call the schedule printer with the
      view's columns and row callback. */
  method Print(view: View, records: seq<Lesson>, date: string, pick: Chooser)
    returns (out: Result<seq<Printed>>)
    ensures Comma !in date ==> out == Success(SingleOutput(records, date, view))
    ensures Comma in date ==> out == ListOutput(records, (set p | p in Split(date, Comma)), view, pick)
  {
    var selector := DateFormat(date);
    out := Call(records, selector, view, pick);
  }
}
