/** The date filter of `SchedulePrinter` (oops/printers.py) and of `__print_schedule`
    (npi-schedule.py), stated over the INDICES of the lesson records so that "source order",
    "filed exactly once" and "came from a record carrying that date" can be said outright.

    The multi-date grouper files each record under `list(date & set(dates))[0]`, an element of
    the intersection that Python's set iteration order picks. The model takes that choice as a
    parameter `pick`; every property is proved for every `pick` that returns an element of a
    non-empty set (`IsChooser`). */
module Grouping {
  import opened Base
  import opened Lessons

  predicate Increasing(s: seq<nat>)
  {
    forall a, b :: 0 <= a < b < |s| ==> s[a] < s[b]
  }

  // ---------------------------------------------------------------------------------------
  // Single-date mode: `if date in dates`

  /** The indices below `n` of the records whose `dates` contain `date`, in source order. */
  function SelectedUpTo(records: seq<Lesson>, date: string, n: nat): (idx: seq<nat>)
    requires n <= |records|
    ensures Increasing(idx)
    ensures forall j :: 0 <= j < |idx| ==> idx[j] < n
    ensures forall i :: 0 <= i < n ==> (i in idx <==> date in records[i].dates)
  {
    if n == 0 then []
    else
      var before := SelectedUpTo(records, date, n - 1);
      if date in records[n - 1].dates then before + [n - 1] else before
  }

  function Selected(records: seq<Lesson>, date: string): seq<nat>
  {
    SelectedUpTo(records, date, |records|)
  }

  lemma LastIsLargest(s: seq<nat>)
    requires Increasing(s) && s != []
    ensures forall j :: 0 <= j < |s| - 1 ==> s[j] < s[|s| - 1]
    ensures forall x :: x in s ==> x <= s[|s| - 1]
  {
    forall x | x in s ensures x <= s[|s| - 1] {
      var j :| 0 <= j < |s| && s[j] == x;
    }
  }

  /** Everything before the last element of an increasing list is below it. */
  lemma ButLastBelowLast(s: seq<nat>, x: nat)
    requires Increasing(s) && s != []
    requires x in s[..|s| - 1]
    ensures x < s[|s| - 1] && x in s
  {
    var j :| 0 <= j < |s| - 1 && s[..|s| - 1][j] == x;
    assert s[j] == x;
  }

  lemma SameLast(a: seq<nat>, b: seq<nat>)
    requires Increasing(a) && Increasing(b) && a != [] && b != []
    requires forall x :: x in a <==> x in b
    ensures a[|a| - 1] == b[|b| - 1]
  {
    LastIsLargest(a);
    LastIsLargest(b);
    assert a[|a| - 1] in b && b[|b| - 1] in a;
  }

  function ButLast(s: seq<nat>): seq<nat>
    requires s != []
  {
    s[..|s| - 1]
  }

  lemma SameButLast(a: seq<nat>, b: seq<nat>)
    requires Increasing(a) && Increasing(b) && a != [] && b != []
    requires forall x :: x in a <==> x in b
    ensures forall x :: x in ButLast(a) <==> x in ButLast(b)
  {
    SameLast(a, b);
    assert a == a[..|a| - 1] + [a[|a| - 1]] && b == b[..|b| - 1] + [b[|b| - 1]];
    var a', b' := a[..|a| - 1], b[..|b| - 1];
    forall x ensures x in a' <==> x in b' {
      if x in a' {
        ButLastBelowLast(a, x);
      }
      if x in b' {
        ButLastBelowLast(b, x);
      }
    }
  }

  /** Two increasing index lists with the same elements are the same list. */
  lemma {:induction false} IncreasingDeterminedByElements(a: seq<nat>, b: seq<nat>)
    requires Increasing(a) && Increasing(b)
    requires forall x :: x in a <==> x in b
    ensures a == b
  {
    assert a != [] ==> a[0] in b;
    assert b != [] ==> b[0] in a;
    if a != [] {
      SameLast(a, b);
      SameButLast(a, b);
      IncreasingDeterminedByElements(ButLast(a), ButLast(b));
      assert a == a[..|a| - 1] + [a[|a| - 1]] && b == b[..|b| - 1] + [b[|b| - 1]];
    }
  }

  /** Single-date filtering keeps exactly the records that carry the date, each once, in
      source order: any list with those three properties is `Selected`. */
  lemma SelectedIsTheOrderedFilter(records: seq<Lesson>, date: string, idx: seq<nat>)
    requires Increasing(idx)
    requires forall x: nat :: x in idx <==> x < |records| && date in records[x].dates
    ensures idx == Selected(records, date)
  {
    IncreasingDeterminedByElements(idx, Selected(records, date));
  }

  // ---------------------------------------------------------------------------------------
  // Multi-date mode: `lessons_dict`, an insertion-ordered dict from a date to its records

  /** `lessons_dict`: the keys in insertion order and, per key, the indices of the records
      whose rows were appended to that key's list. */
  datatype Groups = Groups(order: seq<string>, members: map<string, seq<nat>>)

  /** `date & set(dates)`. */
  function Found(sel: set<string>, lesson: Lesson): set<string>
  {
    sel * (set d | d in lesson.dates)
  }

  /** `list(s)[0]` evaluated for record `i`: CPython's set order may differ between equal
      sets built in different orders, so the element chosen may depend on the record too. */
  type Chooser = (nat, set<string>) -> string

  /** What `list(s)[0]` guarantees: an element of a non-empty set. */
  ghost predicate IsChooser(pick: Chooser)
  {
    forall i: nat, s: set<string> :: s != {} ==> pick(i, s) in s
  }

  /** Shape of a Python dict built by the grouper: keys in insertion order, no key twice,
      every filed index below `n`. */
  ghost predicate Consistent(g: Groups, n: nat)
  {
    && (forall a, b :: 0 <= a < b < |g.order| ==> g.order[a] != g.order[b])
    && (forall k :: k in g.members <==> k in g.order)
    && (forall k, j :: k in g.members && 0 <= j < |g.members[k]| ==> g.members[k][j] < n)
  }

  /** Every filed index names one of the first `n` records. */
  ghost predicate IndicesBelow(members: map<string, seq<nat>>, n: nat)
  {
    forall k, j :: k in members && 0 <= j < |members[k]| ==> members[k][j] < n
  }

  /** `lessons_dict[k] = []` followed by the append of record `i`. */
  function OpenBucket(g: Groups, k: string, i: nat): Groups
  {
    Groups(if k in g.members then g.order else g.order + [k], g.members[k := [i]])
  }

  /** Append record `i` to the existing list of key `k`. */
  function FileUnder(g: Groups, k: string, i: nat): Groups
    requires k in g.members
  {
    Groups(g.order, g.members[k := g.members[k] + [i]])
  }

  /** One iteration of the loop of `_print_schedule_list` on record `i`, as written: a
      record sharing no date with the selector is skipped; a new key is opened only when the
      intersection shares no date with the existing keys; otherwise the record goes to the
      list of the chosen date, which raises KeyError when that date is not itself a key. */
  function Step(g: Groups, i: nat, found: set<string>, pick: Chooser): Result<Groups>
  {
    if found == {} then Success(g)
    else
      var newDate := pick(i, found);
      if found * g.members.Keys == {} then Success(OpenBucket(g, newDate, i))
      else if newDate in g.members then Success(FileUnder(g, newDate, i))
      else Failure(MissingDateKey(newDate))
  }

  lemma StepConsistent(g: Groups, i: nat, found: set<string>, pick: Chooser, n: nat)
    requires Consistent(g, i) && n == i + 1
    ensures Step(g, i, found, pick).Success? ==> Consistent(Step(g, i, found, pick).value, n)
  {
  }

  /** The grouper after the first `n` records. */
  function GroupedUpTo(records: seq<Lesson>, sel: set<string>, pick: Chooser, n: nat): (r: Result<Groups>)
    requires n <= |records|
    ensures r.Success? ==> Consistent(r.value, n)
  {
    if n == 0 then Success(Groups([], map[]))
    else
      match GroupedUpTo(records, sel, pick, n - 1)
      case Failure(e) => Failure(e)
      case Success(g) =>
        var step := Step(g, n - 1, Found(sel, records[n - 1]), pick);
        StepConsistent(g, n - 1, Found(sel, records[n - 1]), pick, n);
        step
  }

  function Grouped(records: seq<Lesson>, sel: set<string>, pick: Chooser): Result<Groups>
  {
    GroupedUpTo(records, sel, pick, |records|)
  }

  /** Once a record raises KeyError, the grouper never gets further. */
  lemma {:induction false} FailurePersists(records: seq<Lesson>, sel: set<string>, pick: Chooser, n: nat, m: nat)
    requires n <= m <= |records|
    requires GroupedUpTo(records, sel, pick, n).Failure?
    ensures GroupedUpTo(records, sel, pick, m) == GroupedUpTo(records, sel, pick, n)
  {
    if m > n {
      FailurePersists(records, sel, pick, n, m - 1);
    }
  }

  /** The error path: the step raises KeyError exactly when the intersection overlaps an
      existing key but the chosen date is not itself a key. */
  lemma StepFailsExactlyWhen(g: Groups, i: nat, found: set<string>, pick: Chooser)
    requires IsChooser(pick)
    ensures Step(g, i, found, pick).Failure? <==> found * g.members.Keys != {} && pick(i, found) !in g.members
    ensures Step(g, i, found, pick).Failure? ==> Step(g, i, found, pick).error == MissingDateKey(pick(i, found))
  {
  }

  /** A step never removes or clears a list: keys keep their order, every list only grows,
      a new key appears exactly when the intersection is disjoint from the existing keys, and
      a matched record adds exactly one index to exactly one list, under one of its dates. */
  lemma StepKeepsBuckets(g: Groups, i: nat, found: set<string>, pick: Chooser, g': Groups)
    requires IsChooser(pick)
    requires Step(g, i, found, pick) == Success(g')
    ensures g.order <= g'.order
    ensures |g'.order| == |g.order| + (if found != {} && found * g.members.Keys == {} then 1 else 0)
    ensures forall k :: k in g.members ==> k in g'.members && g.members[k] <= g'.members[k]
    ensures found == {} ==> g' == g
    ensures found != {} ==>
      var k := pick(i, found);
      && k in found && k in g'.members
      && g'.members[k] == (if k in g.members then g.members[k] else []) + [i]
      && forall k' :: k' in g.members && k' != k ==> g'.members[k'] == g.members[k']
  {
    if found != {} {
      assert pick(i, found) in found;
      assert pick(i, found) in g.members ==> pick(i, found) in found * g.members.Keys;
    }
  }

  // ---------------------------------------------------------------------------------------
  // The corrected grouper: on an overlap, file under an existing key instead of raising

  /** Like `Step`, but when the chosen date is not a key while the intersection overlaps the
      keys, the record goes under a date of the overlap, which is always a key. */
  function FixedStep(g: Groups, i: nat, found: set<string>, pick: Chooser): Groups
    requires IsChooser(pick)
  {
    if found == {} then g
    else
      var overlap := found * g.members.Keys;
      var key := FixedKey(g, i, found, pick);
      if overlap == {} then OpenBucket(g, key, i) else FileUnder(g, key, i)
  }

  function FixedGroupedUpTo(records: seq<Lesson>, sel: set<string>, pick: Chooser, n: nat): (g: Groups)
    requires IsChooser(pick) && n <= |records|
    ensures Consistent(g, n)
  {
    if n == 0 then Groups([], map[])
    else
      var g := FixedGroupedUpTo(records, sel, pick, n - 1);
      FixedStep(g, n - 1, Found(sel, records[n - 1]), pick)
  }

  /** Wherever the grouper as written succeeds, it builds exactly what the corrected one does. */
  lemma {:induction false} AsWrittenAgreesWithFixed(records: seq<Lesson>, sel: set<string>, pick: Chooser, n: nat)
    requires IsChooser(pick) && n <= |records|
    ensures GroupedUpTo(records, sel, pick, n).Success? ==>
              GroupedUpTo(records, sel, pick, n).value == FixedGroupedUpTo(records, sel, pick, n)
  {
    if n > 0 {
      AsWrittenAgreesWithFixed(records, sel, pick, n - 1);
      if GroupedUpTo(records, sel, pick, n - 1).Failure? {
        assert GroupedUpTo(records, sel, pick, n).Failure?;
      }
    }
  }

  /** Every key is a requested date. */
  ghost predicate KeysRequested(sel: set<string>, g: Groups)
  {
    forall k :: k in g.members ==> k in sel
  }

  /** Every list is non-empty and in source order. */
  ghost predicate ListsInSourceOrder(g: Groups)
  {
    forall k :: k in g.members ==> g.members[k] != [] && Increasing(g.members[k])
  }

  /** A record filed under `k` carries the date `k`. */
  ghost predicate FiledUnderOwnDate(records: seq<Lesson>, g: Groups)
  {
    forall k, j :: k in g.members && 0 <= j < |g.members[k]| && g.members[k][j] < |records| ==>
      k in records[g.members[k][j]].dates
  }

  /** Among the first `n` records, one is filed iff it shares a date with the selector. */
  ghost predicate FiledIffMatched(records: seq<Lesson>, sel: set<string>, n: nat, g: Groups)
  {
    forall i :: 0 <= i < n && i < |records| ==>
      (Found(sel, records[i]) != {} <==> exists k :: k in g.members && i in g.members[k])
  }

  /** No record is filed under two keys. */
  ghost predicate FiledOnce(g: Groups)
  {
    forall i, k1, k2 :: k1 in g.members && k2 in g.members && i in g.members[k1] && i in g.members[k2] ==> k1 == k2
  }

  /** What the grouped output promises about a dict `g` built from the first `n` records. */
  ghost predicate Sound(records: seq<Lesson>, sel: set<string>, n: nat, g: Groups)
  {
    && KeysRequested(sel, g)
    && ListsInSourceOrder(g)
    && FiledUnderOwnDate(records, g)
    && FiledIffMatched(records, sel, n, g)
    && FiledOnce(g)
  }

  /** The key under which the corrected step files a matched record `n`. */
  function FixedKey(g: Groups, i: nat, found: set<string>, pick: Chooser): (key: string)
    requires IsChooser(pick) && found != {}
    ensures key in found
    ensures found * g.members.Keys == {} ==> key !in g.members
    ensures found * g.members.Keys != {} ==> key in g.members
  {
    var overlap := found * g.members.Keys;
    assert pick(i, found) in found;
    assert pick(i, found) in g.members ==> pick(i, found) in overlap;
    if overlap == {} || pick(i, found) in g.members then pick(i, found) else pick(i, overlap)
  }

  lemma FixedStepFilesUnder(g: Groups, n: nat, found: set<string>, pick: Chooser)
    requires IsChooser(pick) && found != {}
    ensures var key := FixedKey(g, n, found, pick);
            FixedStep(g, n, found, pick).members ==
              g.members[key := (if key in g.members then g.members[key] else []) + [n]]
  {
    var key := FixedKey(g, n, found, pick);
    if found * g.members.Keys == {} {
      assert key !in g.members;
      assert FixedStep(g, n, found, pick) == OpenBucket(g, key, n);
      assert OpenBucket(g, key, n).members == g.members[key := [n]];
      assert [] + [n] == [n];
    } else {
      assert FixedStep(g, n, found, pick) == FileUnder(g, key, n);
    }
  }

  /** Filing record `n`, above every filed index, under one of its matched dates. */
  ghost predicate FiledAsNext(records: seq<Lesson>, sel: set<string>, n: nat, g: Groups, key: string, g': Groups)
  {
    && n < |records|
    && Consistent(g, n)
    && key in Found(sel, records[n])
    && g'.members == g.members[key := (if key in g.members then g.members[key] else []) + [n]]
  }

  lemma FileKeepsKeysRequested(records: seq<Lesson>, sel: set<string>, n: nat, g: Groups, key: string, g': Groups)
    requires FiledAsNext(records, sel, n, g, key, g') && KeysRequested(sel, g)
    ensures KeysRequested(sel, g')
  {
  }

  lemma FileKeepsSourceOrder(records: seq<Lesson>, sel: set<string>, n: nat, g: Groups, key: string, g': Groups)
    requires FiledAsNext(records, sel, n, g, key, g') && ListsInSourceOrder(g)
    ensures ListsInSourceOrder(g')
  {
    forall k | k in g'.members ensures g'.members[k] != [] && Increasing(g'.members[k]) {
      if k == key && key in g.members {
        var s := g.members[key];
        assert forall j :: 0 <= j < |s| ==> s[j] < n;
        assert g'.members[k] == s + [n];
      }
    }
  }

  lemma FileKeepsOwnDate(records: seq<Lesson>, sel: set<string>, n: nat, g: Groups, key: string, g': Groups)
    requires FiledAsNext(records, sel, n, g, key, g') && FiledUnderOwnDate(records, g)
    ensures FiledUnderOwnDate(records, g')
  {
  }

  lemma FileKeepsFiledOnce(records: seq<Lesson>, sel: set<string>, n: nat, g: Groups, key: string, g': Groups)
    requires FiledAsNext(records, sel, n, g, key, g') && FiledOnce(g)
    ensures FiledOnce(g')
  {
    assert forall k :: k in g.members ==> n !in g.members[k];
    forall i, k1, k2 | k1 in g'.members && k2 in g'.members && i in g'.members[k1] && i in g'.members[k2]
      ensures k1 == k2
    {
      if i != n {
        assert i in g.members[k1] && i in g.members[k2];
      }
    }
  }

  lemma FileKeepsFiledIffMatched(records: seq<Lesson>, sel: set<string>, n: nat, g: Groups, key: string, g': Groups)
    requires FiledAsNext(records, sel, n, g, key, g') && FiledIffMatched(records, sel, n, g)
    ensures FiledIffMatched(records, sel, n + 1, g')
  {
    assert n in g'.members[key];
    forall i | 0 <= i < n + 1 && i < |records|
      ensures Found(sel, records[i]) != {} <==> exists k :: k in g'.members && i in g'.members[k]
    {
      if i < n {
        if k :| k in g'.members && i in g'.members[k] {
          assert k in g.members && i in g.members[k];
        }
        if k :| k in g.members && i in g.members[k] {
          assert i in g'.members[k];
        }
      }
    }
  }

  /** Skipping a record that shares no date with the selector keeps every promise of `Sound`. */
  lemma SkipKeepsFiledIffMatched(records: seq<Lesson>, sel: set<string>, n: nat, g: Groups)
    requires n < |records| && Consistent(g, n) && FiledIffMatched(records, sel, n, g)
    requires Found(sel, records[n]) == {}
    ensures FiledIffMatched(records, sel, n + 1, g)
  {
    assert forall k :: k in g.members ==> n !in g.members[k];
  }

  lemma FixedStepSound(records: seq<Lesson>, sel: set<string>, pick: Chooser, n: nat, g: Groups)
    requires IsChooser(pick) && n < |records|
    requires Consistent(g, n) && Sound(records, sel, n, g)
    ensures Sound(records, sel, n + 1, FixedStep(g, n, Found(sel, records[n]), pick))
  {
    var found := Found(sel, records[n]);
    if found != {} {
      var key := FixedKey(g, n, found, pick);
      var g' := FixedStep(g, n, found, pick);
      FixedStepFilesUnder(g, n, found, pick);
      assert FiledAsNext(records, sel, n, g, key, g');
      FileKeepsKeysRequested(records, sel, n, g, key, g');
      FileKeepsSourceOrder(records, sel, n, g, key, g');
      FileKeepsOwnDate(records, sel, n, g, key, g');
      FileKeepsFiledOnce(records, sel, n, g, key, g');
      FileKeepsFiledIffMatched(records, sel, n, g, key, g');
    } else {
      SkipKeepsFiledIffMatched(records, sel, n, g);
    }
  }

  lemma {:induction false} FixedGroupedSound(records: seq<Lesson>, sel: set<string>, pick: Chooser, n: nat)
    requires IsChooser(pick) && n <= |records|
    ensures Sound(records, sel, n, FixedGroupedUpTo(records, sel, pick, n))
  {
    if n > 0 {
      FixedGroupedSound(records, sel, pick, n - 1);
      FixedGroupedStepSound(records, sel, pick, n);
    } else {
      EmptyIsSound(records, sel);
    }
  }

  /** The corrected grouper keeps `Sound` from `n - 1` records to `n`. */
  lemma FixedGroupedStepSound(records: seq<Lesson>, sel: set<string>, pick: Chooser, n: nat)
    requires IsChooser(pick) && 0 < n <= |records|
    requires Sound(records, sel, n - 1, FixedGroupedUpTo(records, sel, pick, n - 1))
    ensures Sound(records, sel, n, FixedGroupedUpTo(records, sel, pick, n))
  {
    var g := FixedGroupedUpTo(records, sel, pick, n - 1);
    var m := n - 1;
    assert m + 1 == n;
    assert FixedGroupedUpTo(records, sel, pick, n) == FixedStep(g, m, Found(sel, records[m]), pick);
    FixedStepSound(records, sel, pick, m, g);
  }

  /** The empty dict, before any record, keeps every promise of `Sound`. */
  lemma EmptyIsSound(records: seq<Lesson>, sel: set<string>)
    ensures Sound(records, sel, 0, Groups([], map[]))
  {
  }

  /** The corrected grouper never fails, and its dict keeps every promise of `Sound`. */
  lemma FixedGroupingIsTotalAndSound(records: seq<Lesson>, sel: set<string>, pick: Chooser)
    requires IsChooser(pick)
    ensures Consistent(FixedGroupedUpTo(records, sel, pick, |records|), |records|)
    ensures Sound(records, sel, |records|, FixedGroupedUpTo(records, sel, pick, |records|))
  {
    FixedGroupedSound(records, sel, pick, |records|);
  }

  /** Whenever the grouper as written succeeds: keys are requested dates, in insertion order
      and distinct; each list is non-empty and in source order; each record under key `k`
      carries `k`; and each record sharing a date with the selector is filed exactly once. */
  lemma GroupedIsSound(records: seq<Lesson>, sel: set<string>, pick: Chooser)
    requires IsChooser(pick)
    requires Grouped(records, sel, pick).Success?
    ensures Consistent(Grouped(records, sel, pick).value, |records|)
    ensures Sound(records, sel, |records|, Grouped(records, sel, pick).value)
  {
    AsWrittenAgreesWithFixed(records, sel, pick, |records|);
    FixedGroupedSound(records, sel, pick, |records|);
  }

  // ---------------------------------------------------------------------------------------
  // The KeyError, shown on two records

  const FirstDay: string := "2024-09-02"
  const SecondDay: string := "2024-09-09"

  function LessonOn(dates: seq<string>): Lesson
  {
    Lesson(1, "A-101", "lec", "Math", "Ivanov I I", "G-1", dates)
  }

  function TwoRecords(): seq<Lesson>
  {
    [LessonOn([FirstDay]), LessonOn([FirstDay, SecondDay])]
  }

  /** The first record, held only on FirstDay, always opens the key FirstDay. */
  lemma FirstRecordOpensFirstDay(pick: Chooser)
    requires IsChooser(pick)
    ensures GroupedUpTo(TwoRecords(), {FirstDay, SecondDay}, pick, 1) == Success(Groups([FirstDay], map[FirstDay := [0]]))
  {
    var records, sel := TwoRecords(), {FirstDay, SecondDay};
    assert Found(sel, records[0]) == {FirstDay};
    var empty := Groups([], map[]);
    assert pick(0, {FirstDay}) in {FirstDay};
    assert {FirstDay} * empty.members.Keys == {};
    assert OpenBucket(empty, FirstDay, 0) == Groups([FirstDay], map[FirstDay := [0]]);
    assert Step(empty, 0, {FirstDay}, pick) == Success(Groups([FirstDay], map[FirstDay := [0]]));
    assert GroupedUpTo(records, sel, pick, 0) == Success(empty);
  }

  /** The selector {FirstDay, SecondDay} over a record held only on FirstDay, then a record held
      on both days: a chooser that picks SecondDay for the second record raises KeyError, since
      the intersection overlaps the key FirstDay but SecondDay was never opened. */
  lemma KeyErrorReachable(pick: Chooser)
    requires IsChooser(pick)
    requires pick(1, {FirstDay, SecondDay}) == SecondDay
    ensures Grouped(TwoRecords(), {FirstDay, SecondDay}, pick) == Failure(MissingDateKey(SecondDay))
  {
    var records, sel := TwoRecords(), {FirstDay, SecondDay};
    FirstRecordOpensFirstDay(pick);
    assert Found(sel, records[1]) == {FirstDay, SecondDay};
  }

  /** On the same input, a chooser that picks FirstDay files both records under FirstDay. */
  lemma SingleBucketOtherwise(pick: Chooser)
    requires IsChooser(pick)
    requires pick(1, {FirstDay, SecondDay}) == FirstDay
    ensures Grouped(TwoRecords(), {FirstDay, SecondDay}, pick) == Success(Groups([FirstDay], map[FirstDay := [0, 1]]))
  {
    var records, sel := TwoRecords(), {FirstDay, SecondDay};
    FirstRecordOpensFirstDay(pick);
    assert Found(sel, records[1]) == {FirstDay, SecondDay};
    assert [0] + [1] == [0, 1];
    assert FileUnder(Groups([FirstDay], map[FirstDay := [0]]), FirstDay, 1) == Groups([FirstDay], map[FirstDay := [0, 1]]);
  }
}
