/**
  The hourly query for holes in a group's commit log: the rows of each group by epoch, each marked by
  whether the epoch after it is missing, then one aggregate per group. SQL's nulls and its
  three-valued logic are written out. The query is proved against the set it stands for: the epochs
  from the oldest retained commit up to the group's head (epochs advance by commits, section 12.4 of
  RFC 9420) that have no row.
*/
module CommitLogHoles {
  import opened IntSets
  import opened Options
  import opened Sorting

  datatype Row = Row(group: string, epoch: int, created: int)
  datatype Head = Head(active: int, deleted: bool)
  datatype Report = Report(floor: int, recorded: nat, firstHole: Option<int>, holeAfter: Option<int>)

  // The unique index of the table.
  predicate Unique(log: seq<Row>) {
    forall i, j :: 0 <= i < j < |log| ==> log[i].group != log[j].group || log[i].epoch != log[j].epoch
  }

  // ---------- Three-valued logic ----------

  datatype Truth = True | False | Unknown

  function Known(b: bool): Truth { if b then True else False }

  function Greater(a: Option<int>, b: int): Truth {
    match a
    case None => Unknown
    case Some(x) => Known(x > b)
  }

  function And(a: Truth, b: Truth): Truth {
    if a == False || b == False then False else if a == True && b == True then True else Unknown
  }

  function Or(a: Truth, b: Truth): Truth {
    if a == True || b == True then True else if a == False && b == False then False else Unknown
  }

  // ---------- The query ----------

  // The join and its WHERE, for one group.
  function Joined(log: seq<Row>, group: string, active: int): (rows: seq<Row>) {
    if log == [] then []
    else (if log[0].group == group && log[0].epoch < active then [log[0]] else []) + Joined(log[1..], group, active)
  }

  predicate EpochLe(a: Row, b: Row) {
    a.epoch <= b.epoch
  }

  // LEAD over a partition already in order: the epoch of the following row.
  function NextEpoch(rows: seq<Row>): Option<int> {
    if |rows| > 1 then Some(rows[1].epoch) else None
  }

  function GapAfter(epoch: int, next: Option<int>, active: int): Truth {
    Or(Greater(next, epoch + 1), And(Known(next.None?), Known(epoch < active - 1)))
  }

  // The rows the filter of the aggregates keeps; a row whose mark is unknown is not kept.
  function Gaps(rows: seq<Row>, active: int): (r: seq<Row>) {
    if rows == [] then []
    else (if GapAfter(rows[0].epoch, NextEpoch(rows), active) == True then [rows[0]] else []) + Gaps(rows[1..], active)
  }

  // MIN of a column: null over no rows.
  function Least(xs: seq<int>): (m: Option<int>)
    ensures m.None? <==> xs == []
    ensures m.Some? ==> m.value in xs && forall x :: x in xs ==> m.value <= x
  {
    if xs == [] then None
    else
      assert xs == [xs[0]] + xs[1..];
      match Least(xs[1..])
      case None => Some(xs[0])
      case Some(y) => Some(if xs[0] <= y then xs[0] else y)
  }

  function Epochs(rows: seq<Row>): (es: seq<int>) {
    seq(|rows|, i requires 0 <= i < |rows| => rows[i].epoch)
  }

  function Successors(rows: seq<Row>): (es: seq<int>) {
    seq(|rows|, i requires 0 <= i < |rows| => rows[i].epoch + 1)
  }

  // One group's line of the result, if the grouping and the HAVING leave one.
  function ReportOn(log: seq<Row>, heads: map<string, Head>, group: string): (r: Option<Report>) {
    if group !in heads || heads[group].deleted then None
    else
      var active := heads[group].active;
      var rows := Sort(EpochLe, Joined(log, group, active));
      var gaps := Gaps(rows, active);
      if rows == [] || gaps == [] then None
      else Some(Report(Least(Epochs(rows)).value, |rows|, Least(Successors(gaps)), Some(gaps[0].created)))
  }

  // What the report says of a line.
  function MissingCount(r: Report, active: int): int {
    active - r.floor - r.recorded
  }

  // ---------- What it stands for ----------

  predicate Recorded(log: seq<Row>, group: string, e: int) {
    exists row :: row in log && row.group == group && row.epoch == e
  }

  // The oldest retained commit below the head.
  ghost predicate IsFloor(log: seq<Row>, group: string, active: int, floor: int) {
    && floor < active && Recorded(log, group, floor)
    && forall e :: Recorded(log, group, e) && e < active ==> floor <= e
  }

  function Missing(log: seq<Row>, group: string, floor: int, active: int): (es: set<int>) {
    set e | floor <= e < active && !Recorded(log, group, e)
  }

  // ---------- Rows in order ----------

  ghost predicate Ascending(rows: seq<Row>) {
    forall i, j :: 0 <= i < j < |rows| ==> rows[i].epoch < rows[j].epoch
  }

  lemma {:induction false} JoinedRows(log: seq<Row>, group: string, active: int, row: Row)
    ensures row in Joined(log, group, active) <==> row in log && row.group == group && row.epoch < active
  {
    if log != [] { JoinedRows(log[1..], group, active, row); }
  }

  lemma {:induction false} JoinedIsUnique(log: seq<Row>, group: string, active: int)
    requires Unique(log)
    ensures Unique(Joined(log, group, active))
  {
    if log != [] {
      var rest := Joined(log[1..], group, active);
      JoinedIsUnique(log[1..], group, active);
      forall row | row in rest ensures row.group != log[0].group || row.epoch != log[0].epoch {
        JoinedRows(log[1..], group, active, row);
        var k :| 0 <= k < |log[1..]| && log[1..][k] == row;
        assert log[k + 1] == row;
      }
    }
  }

  lemma EpochLeIsAnOrder()
    ensures Total(EpochLe) && Transitive(EpochLe)
  {}

  // The partition of a group: its rows below the head, each epoch once, in order.
  ghost predicate Partition(log: seq<Row>, group: string, active: int, rows: seq<Row>) {
    && Ascending(rows)
    && (forall row :: row in rows <==> row in log && row.group == group && row.epoch < active)
  }

  lemma SortedIsPartition(log: seq<Row>, group: string, active: int)
    requires Unique(log)
    ensures Partition(log, group, active, Sort(EpochLe, Joined(log, group, active)))
  {
    var joined := Joined(log, group, active);
    var rows := Sort(EpochLe, joined);
    EpochLeIsAnOrder();
    SortSorts(EpochLe, joined);
    JoinedIsUnique(log, group, active);
    Permuted(joined, rows);
    forall row ensures row in rows <==> row in log && row.group == group && row.epoch < active {
      JoinedRows(log, group, active, row);
    }
    forall i, j | 0 <= i < j < |rows| ensures rows[i].epoch < rows[j].epoch {
      assert rows[i] in joined && rows[j] in joined && rows[i] != rows[j];
      UniqueEpochs(joined, rows[i], rows[j]);
      assert EpochLe(rows[i], rows[j]);
    }
  }

  lemma UniqueEpochs(rows: seq<Row>, a: Row, b: Row)
    requires Unique(rows) && a in rows && b in rows && a != b
    ensures a.group != b.group || a.epoch != b.epoch
  {
    var i :| 0 <= i < |rows| && rows[i] == a;
    var j :| 0 <= j < |rows| && rows[j] == b;
  }

  // ---------- The marks ----------

  predicate HasEpoch(rows: seq<Row>, e: int) {
    exists row :: row in rows && row.epoch == e
  }

  // A row is marked exactly when the epoch after it is below the head and has no row.
  ghost predicate MissingAfter(rows: seq<Row>, row: Row, active: int) {
    row.epoch + 1 < active && !HasEpoch(rows, row.epoch + 1)
  }

  lemma MarkIsMissingAfter(rows: seq<Row>, active: int)
    requires rows != [] && Ascending(rows) && forall row :: row in rows ==> row.epoch < active
    ensures GapAfter(rows[0].epoch, NextEpoch(rows), active) == True <==> MissingAfter(rows, rows[0], active)
  {
    assert forall i :: 0 < i < |rows| ==> rows[i].epoch >= rows[1].epoch;
    if |rows| > 1 { assert rows[1] in rows; }
  }

  // Dropping the first row changes no later mark.
  lemma MarksOfTail(rows: seq<Row>, row: Row, active: int)
    requires rows != [] && Ascending(rows) && row in rows[1..]
    ensures MissingAfter(rows, row, active) <==> MissingAfter(rows[1..], row, active)
  {
    assert rows[0].epoch < row.epoch;
    assert rows == [rows[0]] + rows[1..];
  }

  lemma {:induction false} GapIsMarked(rows: seq<Row>, active: int, row: Row)
    requires Ascending(rows) && forall r :: r in rows ==> r.epoch < active
    ensures row in Gaps(rows, active) <==> row in rows && MissingAfter(rows, row, active)
  {
    if rows != [] {
      var tail := rows[1..];
      assert forall r :: r in tail ==> r in rows;
      GapIsMarked(tail, active, row);
      MarkIsMissingAfter(rows, active);
      if row in tail { MarksOfTail(rows, row, active); }
    }
  }

  lemma {:induction false} GapsAreRows(rows: seq<Row>, active: int)
    ensures forall row :: row in Gaps(rows, active) ==> row in rows
  {
    if rows != [] { GapsAreRows(rows[1..], active); }
  }

  lemma AscendingWith(row: Row, rows: seq<Row>)
    requires Ascending(rows) && forall r :: r in rows ==> row.epoch < r.epoch
    ensures Ascending([row] + rows)
  {}

  lemma {:induction false} GapsAscend(rows: seq<Row>, active: int)
    requires Ascending(rows)
    ensures Ascending(Gaps(rows, active))
  {
    if rows != [] {
      var rest := Gaps(rows[1..], active);
      GapsAscend(rows[1..], active);
      GapsAreRows(rows[1..], active);
      assert forall row :: row in rows[1..] ==> rows[0].epoch < row.epoch;
      AscendingWith(rows[0], rest);
      assert [] + rest == rest;
    }
  }

  lemma GapsAreMarked(rows: seq<Row>, active: int)
    requires Ascending(rows) && forall row :: row in rows ==> row.epoch < active
    ensures Ascending(Gaps(rows, active))
    ensures forall row :: row in Gaps(rows, active) <==> row in rows && MissingAfter(rows, row, active)
  {
    GapsAscend(rows, active);
    forall row ensures row in Gaps(rows, active) <==> row in rows && MissingAfter(rows, row, active) {
      GapIsMarked(rows, active, row);
    }
  }

  // ---------- Counting ----------

  function Range(a: int, b: int): (es: set<int>)
    ensures forall e :: e in es <==> a <= e < b
    ensures a <= b ==> |es| == b - a
    decreases b - a
  {
    if a >= b then {} else Range(a, b - 1) + {b - 1}
  }

  function EpochSet(rows: seq<Row>): (es: set<int>) {
    set row | row in rows :: row.epoch
  }

  lemma {:induction false} EpochSetSize(rows: seq<Row>)
    requires Ascending(rows)
    ensures |EpochSet(rows)| == |rows|
  {
    if rows != [] {
      EpochSetSize(rows[1..]);
      assert rows == [rows[0]] + rows[1..];
      assert rows[0].epoch !in EpochSet(rows[1..]);
      assert EpochSet(rows) == {rows[0].epoch} + EpochSet(rows[1..]);
    }
  }

  lemma PartitionRecords(log: seq<Row>, group: string, active: int, rows: seq<Row>, e: int)
    requires Partition(log, group, active, rows) && e < active
    ensures HasEpoch(rows, e) <==> Recorded(log, group, e)
  {
    if row :| row in log && row.group == group && row.epoch == e { assert row in rows; }
  }

  lemma FloorIsFirst(log: seq<Row>, group: string, active: int, rows: seq<Row>, floor: int)
    requires Partition(log, group, active, rows) && IsFloor(log, group, active, floor)
    ensures rows != [] && rows[0].epoch == floor && Least(Epochs(rows)).value == floor
  {
    PartitionRecords(log, group, active, rows, floor);
    var row :| row in rows && row.epoch == floor;
    assert rows[0] in rows && Recorded(log, group, rows[0].epoch);
    assert Epochs(rows)[0] == rows[0].epoch;
    forall e | e in Epochs(rows) ensures rows[0].epoch <= e {
      var i :| 0 <= i < |rows| && Epochs(rows)[i] == e;
    }
  }

  lemma MissingSize(log: seq<Row>, group: string, active: int, rows: seq<Row>, floor: int)
    requires Partition(log, group, active, rows) && IsFloor(log, group, active, floor)
    ensures |Missing(log, group, floor, active)| == active - floor - |rows|
  {
    FloorIsFirst(log, group, active, rows, floor);
    var all, es := Range(floor, active), EpochSet(rows);
    forall e | floor <= e < active ensures e in es <==> Recorded(log, group, e) {
      PartitionRecords(log, group, active, rows, e);
    }
    forall row | row in rows ensures row.epoch in all {
      var i :| 0 <= i < |rows| && rows[i] == row;
    }
    assert es <= all;
    assert Missing(log, group, floor, active) == all - es;
    EpochSetSize(rows);
  }

  // ---------- Holes ----------

  lemma MarkedIsMissing(log: seq<Row>, group: string, active: int, rows: seq<Row>, floor: int, row: Row)
    requires Partition(log, group, active, rows) && IsFloor(log, group, active, floor) && row in rows
    ensures MissingAfter(rows, row, active) <==> row.epoch + 1 in Missing(log, group, floor, active)
  {
    assert Recorded(log, group, row.epoch);
    if row.epoch + 1 < active { PartitionRecords(log, group, active, rows, row.epoch + 1); }
  }

  // The epoch before the least missing one has a row, and that row is marked.
  lemma LeastMissingIsMarked(log: seq<Row>, group: string, active: int, rows: seq<Row>, floor: int, h: int)
    requires Partition(log, group, active, rows) && IsFloor(log, group, active, floor)
    requires var m := Missing(log, group, floor, active); h in m && forall e :: e in m ==> h <= e
    ensures exists row :: row in rows && row.epoch + 1 == h && MissingAfter(rows, row, active)
  {
    assert h - 1 !in Missing(log, group, floor, active);
    assert h != floor;
    PartitionRecords(log, group, active, rows, h - 1);
    var row :| row in rows && row.epoch == h - 1;
    MarkedIsMissing(log, group, active, rows, floor, row);
  }

  lemma GapsAndHoles(log: seq<Row>, group: string, active: int, rows: seq<Row>, floor: int)
    requires Partition(log, group, active, rows) && IsFloor(log, group, active, floor)
    ensures var m, gaps := Missing(log, group, floor, active), Gaps(rows, active);
      && (gaps == [] <==> m == {})
      && (gaps != [] ==> gaps[0] in rows && gaps[0].epoch + 1 in m && forall e :: e in m ==> gaps[0].epoch + 1 <= e)
  {
    var m, gaps := Missing(log, group, floor, active), Gaps(rows, active);
    GapsAreMarked(rows, active);
    if gaps != [] {
      assert gaps[0] in gaps;
      MarkedIsMissing(log, group, active, rows, floor, gaps[0]);
    }
    if m != {} {
      var h := SomeLeast(m);
      LeastMissingIsMarked(log, group, active, rows, floor, h);
      var row :| row in rows && row.epoch + 1 == h && MissingAfter(rows, row, active);
      assert row in gaps;
      assert gaps[0].epoch <= row.epoch;
    }
  }

  lemma LeastSuccessor(gaps: seq<Row>)
    requires gaps != [] && Ascending(gaps)
    ensures Least(Successors(gaps)) == Some(gaps[0].epoch + 1)
  {
    assert Successors(gaps)[0] == gaps[0].epoch + 1;
    forall e | e in Successors(gaps) ensures gaps[0].epoch + 1 <= e {
      var i :| 0 <= i < |gaps| && Successors(gaps)[i] == e;
    }
  }

  /** A group with recorded commits is reported exactly when some epoch from its oldest retained
      commit to its head has no row; the line then names the least such epoch, counts them all
      exactly, and is dated by the commit just before the first. */
  lemma ReportIsTheHoles(log: seq<Row>, heads: map<string, Head>, group: string, floor: int)
    requires Unique(log) && group in heads && !heads[group].deleted
    requires IsFloor(log, group, heads[group].active, floor)
    ensures var active := heads[group].active;
      var r, m := ReportOn(log, heads, group), Missing(log, group, floor, active);
      && (r.Some? <==> m != {})
      && (r.Some? ==>
            && r.value.floor == floor
            && r.value.firstHole.Some? && r.value.firstHole.value in m
            && (forall e :: e in m ==> r.value.firstHole.value <= e)
            && MissingCount(r.value, active) == |m|
            && exists row :: row in log && row.group == group && row.epoch == r.value.firstHole.value - 1 &&
                             r.value.holeAfter == Some(row.created))
  {
    var active := heads[group].active;
    var rows := Sort(EpochLe, Joined(log, group, active));
    SortedIsPartition(log, group, active);
    FloorIsFirst(log, group, active, rows, floor);
    GapsAndHoles(log, group, active, rows, floor);
    MissingSize(log, group, active, rows, floor);
    GapsAreMarked(rows, active);
    var gaps := Gaps(rows, active);
    if gaps != [] { LeastSuccessor(gaps); }
  }

  /** A deleted or unknown group, and one with no commit below its head, is never reported. */
  lemma NothingToReport(log: seq<Row>, heads: map<string, Head>, group: string)
    requires group in heads && !heads[group].deleted ==> forall e :: Recorded(log, group, e) ==> e >= heads[group].active
    ensures ReportOn(log, heads, group).None?
  {
    if group in heads && !heads[group].deleted {
      var active := heads[group].active;
      var joined := Joined(log, group, active);
      Permuted(joined, Sort(EpochLe, joined));
      assert joined == [] || joined[0] in joined;
      forall row ensures row !in joined {
        JoinedRows(log, group, active, row);
        assert row in log && row.group == group ==> Recorded(log, group, row.epoch);
      }
    }
  }
}
