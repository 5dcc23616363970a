/**
  Monthly partitions of the attempts table (backend/app/jobs/partitions.py): the default partition is
  drained month by month, from the last month that exists through next month.
 */
module Partitions {
  import opened Basics
  import opened WeeklyPeriods

  const MAX_MONTHS_PER_RUN := 72

  datatype Month = Month(year: int, month: int)

  predicate ValidMonth(m: Month) {
    m.year >= 1 && 1 <= m.month <= 12
  }

  /** _first_day_of_next_month and _first_day_after_month, on the first of a month. */
  function NextMonth(m: Month): Month {
    if m.month == 12 then Month(m.year + 1, 1) else Month(m.year, m.month + 1)
  }

  function Index(m: Month): int {
    12 * m.year + m.month
  }

  function MonthLength(m: Month): int {
    if m.month == 2 then (if Leap(m.year) then 29 else 28)
    else if m.month == 4 || m.month == 6 || m.month == 9 || m.month == 11 then 30 else 31
  }

  /** The days of a common year before a month. */
  function DaysBefore(month: int): int
    requires 1 <= month <= 12
  {
    [0, 31, 59, 90, 120, 151, 181, 212, 243, 273, 304, 334][month - 1]
  }

  /** The day a month begins on, as an ordinal. */
  function Start(m: Month): int
    requires ValidMonth(m)
  {
    Jan1(m.year) + DaysBefore(m.month) + if m.month > 2 && Leap(m.year) then 1 else 0
  }

  /** A month ends where the next begins. */
  lemma StartNext(m: Month)
    requires ValidMonth(m)
    ensures Start(NextMonth(m)) == Start(m) + MonthLength(m)
  {
  }

  lemma {:induction false} StartGrows(a: Month, b: Month)
    requires ValidMonth(a) && ValidMonth(b) && Index(a) < Index(b)
    ensures Start(NextMonth(a)) <= Start(b)
    decreases Index(b) - Index(a)
  {
    var next := NextMonth(a);
    if Index(next) < Index(b) {
      StartGrows(next, b);
      StartNext(next);
    } else {
      assert next == b;
    }
  }

  // ---------------------------------------------------------------- the table

  /** An attempt, by the day it was made. */
  datatype Row = Row(id: nat, day: int)

  datatype Partition = Partition(month: Month, rows: seq<Row>)

  /** The attached partitions, oldest creation first, and attempts_default. */
  datatype Table = Table(parts: seq<Partition>, rest: seq<Row>)

  predicate Within(m: Month, r: Row)
    requires ValidMonth(m)
  {
    Start(m) <= r.day < Start(NextMonth(m))
  }

  /** The rows of a month, or all the others. */
  function Select(m: Month, rows: seq<Row>, within: bool): seq<Row>
    requires ValidMonth(m)
  {
    if rows == [] then []
    else
      var r := rows[|rows| - 1];
      Select(m, rows[..|rows| - 1], within) + if Within(m, r) == within then [r] else []
  }

  function Rows(parts: seq<Partition>): multiset<Row> {
    if parts == [] then multiset{} else Rows(parts[..|parts| - 1]) + multiset(parts[|parts| - 1].rows)
  }

  function AllRows(t: Table): multiset<Row> {
    Rows(t.parts) + multiset(t.rest)
  }

  /**
    _create_partition_for_month: an empty partition when no default row is in the way; else the rows in
    the way move into a table that is then attached. A name that exists already is left alone.
   */
  function Create(t: Table, m: Month): Table
    requires ValidMonth(m)
  {
    if Attached(t.parts, m) then t
    else Table(t.parts + [Partition(m, Select(m, t.rest, true))], Select(m, t.rest, false))
  }

  predicate Attached(parts: seq<Partition>, m: Month) {
    exists i :: 0 <= i < |parts| && parts[i].month == m
  }

  /** The latest month there is a partition for. */
  function Latest(parts: seq<Partition>): Option<Month> {
    if parts == [] then None
    else
      var m, last := Latest(parts[..|parts| - 1]), parts[|parts| - 1].month;
      if m.None? || Index(m.value) < Index(last) then Some(last) else m
  }

  /** The months from one through another, at most so many. */
  function Months(from: Month, through: Month, most: nat): seq<Month>
    decreases most
  {
    if most == 0 || Index(from) > Index(through) then []
    else [from] + Months(NextMonth(from), through, most - 1)
  }

  function CreateAll(t: Table, months: seq<Month>): Table
    requires forall i :: 0 <= i < |months| ==> ValidMonth(months[i])
    decreases |months|
  {
    if months == [] then t else CreateAll(Create(t, months[0]), months[1..])
  }

  function FirstMissing(t: Table, today: Month): Month {
    match Latest(t.parts) case Some(m) => NextMonth(m) case None => today
  }

  // ---------------------------------------------------------------- the invariant

  predicate AllWithin(m: Month, rows: seq<Row>)
    requires ValidMonth(m)
  {
    forall k :: 0 <= k < |rows| ==> Within(m, rows[k])
  }

  predicate NoneWithin(m: Month, rows: seq<Row>)
    requires ValidMonth(m)
  {
    forall k :: 0 <= k < |rows| ==> !Within(m, rows[k])
  }

  predicate PartOk(p: Partition, rest: seq<Row>) {
    ValidMonth(p.month) && AllWithin(p.month, p.rows) && NoneWithin(p.month, rest)
  }

  /** What Postgres enforces: partitions of distinct months, each with its own rows, and none of those in the default. */
  predicate Sorted(t: Table) {
    && (forall i :: 0 <= i < |t.parts| ==> PartOk(t.parts[i], t.rest))
    && (forall i, j :: 0 <= i < j < |t.parts| ==> t.parts[i].month != t.parts[j].month)
  }

  lemma {:induction false} SelectIs(m: Month, rows: seq<Row>, within: bool)
    requires ValidMonth(m)
    ensures forall r :: r in Select(m, rows, within) <==> r in rows && Within(m, r) == within
  {
    if rows != [] {
      SelectIs(m, rows[..|rows| - 1], within);
      assert rows == rows[..|rows| - 1] + [rows[|rows| - 1]];
    }
  }

  lemma {:induction false} SelectSplits(m: Month, rows: seq<Row>)
    requires ValidMonth(m)
    ensures multiset(Select(m, rows, true)) + multiset(Select(m, rows, false)) == multiset(rows)
  {
    if rows != [] {
      var before, r := rows[..|rows| - 1], rows[|rows| - 1];
      SelectSplits(m, before);
      assert multiset(rows) == multiset(before) + multiset{r} by { assert rows == before + [r]; }
      var side := Within(m, r);
      assert multiset(Select(m, rows, side)) == multiset(Select(m, before, side)) + multiset{r};
      assert Select(m, rows, !side) == Select(m, before, !side);
    }
  }

  /** The new partition holds its month, the default none of it, and every other month keeps clear of the default. */
  lemma SelectOk(m: Month, rows: seq<Row>)
    requires ValidMonth(m)
    ensures PartOk(Partition(m, Select(m, rows, true)), Select(m, rows, false))
    ensures forall p :: PartOk(p, rows) ==> PartOk(p, Select(m, rows, false))
  {
    var moved, left := Select(m, rows, true), Select(m, rows, false);
    SelectIs(m, rows, true);
    SelectIs(m, rows, false);
    assert forall k :: 0 <= k < |moved| ==> moved[k] in moved;
    assert forall k :: 0 <= k < |left| ==> left[k] in left;
    forall p, k | PartOk(p, rows) && 0 <= k < |left| ensures !Within(p.month, left[k]) {
      var j :| 0 <= j < |rows| && rows[j] == left[k];
    }
  }

  lemma RowsPush(parts: seq<Partition>, p: Partition)
    ensures Rows(parts + [p]) == Rows(parts) + multiset(p.rows)
  {
    assert (parts + [p])[..|parts|] == parts;
  }

  lemma CreateConserves(t: Table, m: Month)
    requires ValidMonth(m)
    ensures AllRows(Create(t, m)) == AllRows(t)
  {
    SelectSplits(m, t.rest);
    RowsPush(t.parts, Partition(m, Select(m, t.rest, true)));
  }

  lemma SortedPush(t: Table, p: Partition, rest: seq<Row>)
    requires Sorted(t) && !Attached(t.parts, p.month) && PartOk(p, rest)
    requires forall q :: PartOk(q, t.rest) ==> PartOk(q, rest)
    ensures Sorted(Table(t.parts + [p], rest))
  {
  }

  lemma CreateKeeps(t: Table, m: Month)
    requires Sorted(t) && ValidMonth(m)
    ensures Sorted(Create(t, m)) && AllRows(Create(t, m)) == AllRows(t)
    ensures Attached(Create(t, m).parts, m) && t.parts <= Create(t, m).parts
  {
    CreateConserves(t, m);
    if !Attached(t.parts, m) {
      SelectOk(m, t.rest);
      SortedPush(t, Partition(m, Select(m, t.rest, true)), Select(m, t.rest, false));
      assert Create(t, m).parts[|t.parts|].month == m;
    }
  }

  lemma AttachedMore(parts: seq<Partition>, more: seq<Partition>, m: Month)
    requires parts <= more && Attached(parts, m)
    ensures Attached(more, m)
  {
    var i :| 0 <= i < |parts| && parts[i].month == m;
    assert more[i].month == m;
  }

  lemma {:induction false} CreateAllKeeps(t: Table, months: seq<Month>)
    requires Sorted(t) && forall i :: 0 <= i < |months| ==> ValidMonth(months[i])
    ensures var after := CreateAll(t, months);
            && Sorted(after) && AllRows(after) == AllRows(t) && t.parts <= after.parts
            && forall i :: 0 <= i < |months| ==> Attached(after.parts, months[i])
    decreases |months|
  {
    if months != [] {
      CreateKeeps(t, months[0]);
      CreateAllKeeps(Create(t, months[0]), months[1..]);
      var after := CreateAll(t, months);
      forall i | 0 <= i < |months| ensures Attached(after.parts, months[i]) {
        if i == 0 {
          AttachedMore(Create(t, months[0]).parts, after.parts, months[0]);
        } else {
          assert months[i] == months[1..][i - 1];
        }
      }
    }
  }

  /** The months listed are consecutive, and there are as many as fit. */
  lemma {:induction false} MonthsAre(from: Month, through: Month, most: nat)
    requires ValidMonth(from)
    ensures var months := Months(from, through, most);
            && |months| == Min(most, Max(0, Index(through) - Index(from) + 1))
            && forall i :: 0 <= i < |months| ==> ValidMonth(months[i]) && Index(months[i]) == Index(from) + i
    decreases most
  {
    if most > 0 && Index(from) <= Index(through) {
      MonthsAre(NextMonth(from), through, most - 1);
    }
  }

  lemma SameIndex(a: Month, b: Month)
    requires ValidMonth(a) && ValidMonth(b) && Index(a) == Index(b)
    ensures a == b
  {
  }

  /** ensure_next_month_attempts_partition: the table after it, and the partition it names. */
  function Ensure(t: Table, today: Month): (Table, Month)
    requires Sorted(t) && ValidMonth(today)
  {
    LatestValid(t.parts);
    var months := Months(FirstMissing(t, today), NextMonth(today), MAX_MONTHS_PER_RUN);
    MonthsAre(FirstMissing(t, today), NextMonth(today), MAX_MONTHS_PER_RUN);
    (CreateAll(t, months), if months == [] then NextMonth(today) else months[|months| - 1])
  }

  lemma {:induction false} LatestValid(parts: seq<Partition>)
    requires forall i :: 0 <= i < |parts| ==> ValidMonth(parts[i].month)
    ensures Latest(parts).Some? ==> ValidMonth(Latest(parts).value) && Attached(parts, Latest(parts).value)
    ensures forall i :: 0 <= i < |parts| ==> Latest(parts).Some? && Index(parts[i].month) <= Index(Latest(parts).value)
  {
    if parts != [] {
      var rest := parts[..|parts| - 1];
      LatestValid(rest);
      assert parts[|parts| - 1].month == parts[|parts| - 1].month;
      if Latest(rest).Some? {
        AttachedMore(rest, parts, Latest(rest).value);
      }
      assert forall i :: 0 <= i < |rest| ==> rest[i] == parts[i];
    }
  }

  lemma CreateAttaches(t: Table, m: Month, x: Month)
    requires ValidMonth(m)
    ensures Attached(Create(t, m).parts, x) <==> Attached(t.parts, x) || x == m
  {
    var after := Create(t, m);
    assert forall i :: 0 <= i < |t.parts| ==> after.parts[i] == t.parts[i];
    if !Attached(t.parts, m) {
      assert after.parts[|t.parts|].month == m;
    }
    if Attached(t.parts, x) {
      AttachedMore(t.parts, after.parts, x);
    }
  }

  lemma {:induction false} CreateAllAttaches(t: Table, months: seq<Month>, x: Month)
    requires forall i :: 0 <= i < |months| ==> ValidMonth(months[i])
    ensures Attached(CreateAll(t, months).parts, x) <==> Attached(t.parts, x) || x in months
    decreases |months|
  {
    if months != [] {
      CreateAttaches(t, months[0], x);
      CreateAllAttaches(Create(t, months[0]), months[1..], x);
    }
  }

  /** A month is listed exactly when it lies between the first and the last the cap allows. */
  lemma Listed(first: Month, last: Month, x: Month)
    requires ValidMonth(first) && ValidMonth(x)
    ensures x in Months(first, last, MAX_MONTHS_PER_RUN) <==>
            Index(first) <= Index(x) <= Min(Index(last), Index(first) + MAX_MONTHS_PER_RUN - 1)
  {
    var months := Months(first, last, MAX_MONTHS_PER_RUN);
    MonthsAre(first, last, MAX_MONTHS_PER_RUN);
    if Index(first) <= Index(x) <= Min(Index(last), Index(first) + MAX_MONTHS_PER_RUN - 1) {
      SameIndex(x, months[Index(x) - Index(first)]);
    }
  }

  /**
    Maintenance loses and duplicates no attempt, keeps the month ranges disjoint and the default free of
    rows that belong to an attached range, and closes the gap from the last existing month: the months
    that exist afterwards are those that did and the months from the first missing one on through next
    month, or 72 of them if more are missing; and the last of these is named, which is next month exactly
    when no more than 72 were missing.
   */
  lemma MaintenanceIsSafe(t: Table, today: Month)
    requires Sorted(t) && ValidMonth(today)
    ensures var (after, named) := Ensure(t, today);
            var first, last := Index(FirstMissing(t, today)), Index(NextMonth(today));
            && Sorted(after) && AllRows(after) == AllRows(t) && t.parts <= after.parts
            && (forall m: Month :: ValidMonth(m) ==>
                  (Attached(after.parts, m) <==>
                     Attached(t.parts, m) || first <= Index(m) <= Min(last, first + MAX_MONTHS_PER_RUN - 1)))
            && ValidMonth(named) && Index(named) == Min(last, first + MAX_MONTHS_PER_RUN - 1)
            && (named == NextMonth(today) <==> last - first + 1 <= MAX_MONTHS_PER_RUN)
  {
    LatestValid(t.parts);
    var first, last := FirstMissing(t, today), NextMonth(today);
    var months := Months(first, last, MAX_MONTHS_PER_RUN);
    MonthsAre(first, last, MAX_MONTHS_PER_RUN);
    CreateAllKeeps(t, months);
    LastNamed(first, last);
    forall m: Month | ValidMonth(m)
      ensures Attached(CreateAll(t, months).parts, m) <==>
              Attached(t.parts, m) || Index(first) <= Index(m) <= Min(Index(last), Index(first) + MAX_MONTHS_PER_RUN - 1)
    {
      CreateAllAttaches(t, months, m);
      Listed(first, last, m);
    }
  }

  /** The last month listed is the one wanted exactly when none was cut off. */
  lemma LastNamed(first: Month, last: Month)
    requires ValidMonth(first) && ValidMonth(last)
    ensures var months := Months(first, last, MAX_MONTHS_PER_RUN);
            var named := if months == [] then last else months[|months| - 1];
            && ValidMonth(named) && Index(named) == Min(Index(last), Index(first) + MAX_MONTHS_PER_RUN - 1)
            && (named == last <==> Index(last) - Index(first) + 1 <= MAX_MONTHS_PER_RUN)
  {
    var months := Months(first, last, MAX_MONTHS_PER_RUN);
    MonthsAre(first, last, MAX_MONTHS_PER_RUN);
    if 0 < Index(last) - Index(first) + 1 <= MAX_MONTHS_PER_RUN {
      SameIndex(months[|months| - 1], last);
    }
  }

  /** Partitions of distinct months hold disjoint ranges of days. */
  lemma RangesDisjoint(a: Month, b: Month, r: Row)
    requires ValidMonth(a) && ValidMonth(b) && a != b && Within(a, r)
    ensures !Within(b, r)
  {
    if Index(a) < Index(b) {
      StartGrows(a, b);
    } else if Index(b) < Index(a) {
      StartGrows(b, a);
    } else {
      SameIndex(a, b);
    }
  }

  // ---------------------------------------------------------------- the job

  class AttemptsTable {
    var parts: seq<Partition>
    var defaultRows: seq<Row>

    function Value(): Table
      reads this
    {
      Table(parts, defaultRows)
    }

    constructor ()
      ensures Value() == Table([], [])
    {
      parts, defaultRows := [], [];
    }

    /** DELETE ... RETURNING from the default partition. */
    method TakeFromDefault(m: Month) returns (moved: seq<Row>)
      requires ValidMonth(m)
      modifies `defaultRows
      ensures moved == Select(m, old(defaultRows), true) && defaultRows == Select(m, old(defaultRows), false)
    {
      moved := [];
      var kept: seq<Row> := [];
      for i := 0 to |defaultRows|
        invariant moved == Select(m, defaultRows[..i], true) && kept == Select(m, defaultRows[..i], false)
      {
        assert defaultRows[..i + 1][..i] == defaultRows[..i];
        if Start(m) <= defaultRows[i].day < Start(NextMonth(m)) {
          moved := moved + [defaultRows[i]];
        } else {
          kept := kept + [defaultRows[i]];
        }
      }
      assert defaultRows[..|defaultRows|] == defaultRows;
      defaultRows := kept;
    }

    /** Directly when no default row is in the month; else the rows move out before the partition is attached. */
    method CreatePartitionForMonth(m: Month)
      requires ValidMonth(m)
      modifies this
      ensures Value() == Create(old(Value()), m)
    {
      if Attached(parts, m) {
        return;
      }
      var overlapping := |Select(m, defaultRows, true)|;
      if overlapping == 0 {
        SelectNone(m, defaultRows);
        parts := parts + [Partition(m, [])];
      } else {
        var moved := TakeFromDefault(m);
        parts := parts + [Partition(m, moved)];
      }
    }

    method MissingMonths(today: Month) returns (monthsToCreate: seq<Month>)
      requires Sorted(Value()) && ValidMonth(today)
      ensures monthsToCreate == Months(FirstMissing(Value(), today), NextMonth(today), MAX_MONTHS_PER_RUN)
    {
      var nextMonth := NextMonth(today);
      var month := match Latest(parts) case Some(last) => NextMonth(last) case None => today;
      monthsToCreate := [];
      while Index(month) <= Index(nextMonth) && |monthsToCreate| < MAX_MONTHS_PER_RUN
        invariant |monthsToCreate| <= MAX_MONTHS_PER_RUN
        invariant monthsToCreate + Months(month, nextMonth, MAX_MONTHS_PER_RUN - |monthsToCreate|)
               == Months(FirstMissing(Value(), today), nextMonth, MAX_MONTHS_PER_RUN)
        decreases MAX_MONTHS_PER_RUN - |monthsToCreate|
      {
        MonthsFrom(monthsToCreate, month, nextMonth, MAX_MONTHS_PER_RUN - |monthsToCreate|);
        monthsToCreate := monthsToCreate + [month];
        month := NextMonth(month);
      }
    }

    method EnsureNextMonth(today: Month) returns (named: Month)
      requires Sorted(Value()) && ValidMonth(today)
      modifies this
      ensures (Value(), named) == Ensure(old(Value()), today)
    {
      LatestValid(parts);
      var monthsToCreate := MissingMonths(today);
      MonthsAre(FirstMissing(Value(), today), NextMonth(today), MAX_MONTHS_PER_RUN);
      named := NextMonth(today);
      for i := 0 to |monthsToCreate|
        invariant CreateAll(Value(), monthsToCreate[i..]) == CreateAll(old(Value()), monthsToCreate)
        invariant named == if i == 0 then NextMonth(today) else monthsToCreate[i - 1]
      {
        assert monthsToCreate[i..][1..] == monthsToCreate[i + 1..];
        CreatePartitionForMonth(monthsToCreate[i]);
        named := monthsToCreate[i];
      }
    }
  }

  lemma {:induction false} SelectNone(m: Month, rows: seq<Row>)
    requires ValidMonth(m) && Select(m, rows, true) == []
    ensures Select(m, rows, false) == rows
  {
    if rows != [] {
      var before, r := rows[..|rows| - 1], rows[|rows| - 1];
      assert Select(m, rows, true) == Select(m, before, true) + if Within(m, r) then [r] else [];
      SelectNone(m, before);
      assert rows == before + [r];
    }
  }

  lemma MonthsFrom(done: seq<Month>, month: Month, through: Month, most: nat)
    requires most > 0 && Index(month) <= Index(through)
    ensures done + Months(month, through, most) == done + [month] + Months(NextMonth(month), through, most - 1)
  {
  }
}
