/**
 The loop of the batch script, for any decision about a row: keyset pagination over the
 rows that have a value, one turn each, and counters. KeyRotation supplies the decision.
 */
module BatchPass {
  import opened Options

  /** A table row: its primary key and the column, which may be NULL. */
  datatype Row = Row(id: int, value: Option<string>)

  /** Rows in primary-key order. */
  predicate Sorted(rows: seq<Row>) {
    forall i, j :: 0 <= i < j < |rows| ==> rows[i].id < rows[j].id
  }

  datatype Action = Skip | Update(newValue: string)

  /**
   One pass: its decision for a row's id and value (None is an exception), whether it writes, and
   which UPDATEs fail.
   */
  datatype Pass = Pass(act: (int, string) -> Option<Action>, dryRun: bool, fails: int -> bool)

  datatype Outcome = Updated(value: string) | Skipped | Failed

  function OutcomeOf(p: Pass, id: int, value: string): Outcome {
    match p.act(id, value)
    case None => Failed
    case Some(Skip) => Skipped
    case Some(Update(v)) => if !p.dryRun && p.fails(id) then Failed else Updated(v)
  }

  /** The row after its turn. */
  function Migrated(p: Pass, r: Row): (r': Row)
    ensures r'.id == r.id && (r'.value.None? <==> r.value.None?)
  {
    if r.value.None? || p.dryRun then r
    else
      match OutcomeOf(p, r.id, r.value.value)
      case Updated(v) => Row(r.id, Some(v))
      case _ => r
  }

  // ---------------------------------------------------------------- the query

  /** id > cursor, or everything while there is no cursor. */
  predicate Beyond(cursor: Option<int>, id: int) {
    cursor.Some? ==> id > cursor.value
  }

  /** Rows with a value and an id beyond the cursor, in order. */
  function Live(rows: seq<Row>, cursor: Option<int>): (live: seq<Row>)
    ensures AllPresent(live) && forall i :: 0 <= i < |live| ==> Beyond(cursor, live[i].id)
  {
    if rows == [] then []
    else (if rows[0].value.Some? && Beyond(cursor, rows[0].id) then [rows[0]] else []) + Live(rows[1..], cursor)
  }

  lemma {:induction false} LiveMember(rows: seq<Row>, cursor: Option<int>, r: Row)
    ensures r in Live(rows, cursor) <==> r in rows && r.value.Some? && Beyond(cursor, r.id)
  {
    if rows != [] {
      LiveMember(rows[1..], cursor, r);
      assert rows == [rows[0]] + rows[1..];
    }
  }

  lemma {:induction false} LiveIsAbove(rows: seq<Row>, cursor: Option<int>, low: int)
    requires forall i :: 0 <= i < |rows| ==> low < rows[i].id
    ensures forall i :: 0 <= i < |Live(rows, cursor)| ==> low < Live(rows, cursor)[i].id
  {
    if rows != [] {
      LiveIsAbove(rows[1..], cursor, low);
    }
  }

  lemma {:induction false} LiveIsSorted(rows: seq<Row>, cursor: Option<int>)
    requires Sorted(rows)
    ensures Sorted(Live(rows, cursor))
  {
    if rows != [] {
      LiveIsSorted(rows[1..], cursor);
      LiveIsAbove(rows[1..], cursor, rows[0].id);
    }
  }

  lemma {:induction false} NothingBeforeCursor(rows: seq<Row>, cursor: Option<int>, cursor': Option<int>)
    requires forall i :: 0 <= i < |rows| ==> (Beyond(cursor, rows[i].id) <==> Beyond(cursor', rows[i].id))
    ensures Live(rows, cursor) == Live(rows, cursor')
  {
    if rows != [] {
      NothingBeforeCursor(rows[1..], cursor, cursor');
    }
  }

  lemma Behind(head: Row, later: seq<Row>, n: nat)
    requires 0 < n <= |later|
    ensures ([head] + later)[n] == later[n - 1] && ([head] + later)[n + 1..] == later[n..]
  {
  }

  lemma NotBeyond(rows: seq<Row>, cursor: Option<int>)
    requires rows != [] && !Beyond(cursor, rows[0].id)
    ensures Live(rows, cursor) == Live(rows[1..], cursor)
  {
  }

  /** Keyset pagination: moving the cursor to the n-th row leaves exactly the rows after it. */
  lemma {:induction false} NextRows(rows: seq<Row>, cursor: Option<int>, n: nat)
    requires Sorted(rows) && n < |Live(rows, cursor)|
    ensures Live(rows, Some(Live(rows, cursor)[n].id)) == Live(rows, cursor)[n + 1..]
  {
    assert rows != [];
    var tail := rows[1..];
    var later := Live(tail, cursor);
    assert Live(rows, cursor) == (if rows[0].value.Some? && Beyond(cursor, rows[0].id) then [rows[0]] else []) + later;
    LiveIsAbove(tail, cursor, rows[0].id);
    if rows[0].value.Some? && Beyond(cursor, rows[0].id) {
      if n == 0 {
        NothingBeforeCursor(tail, cursor, Some(rows[0].id));
        NotBeyond(rows, Some(rows[0].id));
      } else {
        hide Live;
        NextRows(tail, cursor, n - 1);
        Behind(rows[0], later, n);
        NotBeyond(rows, Some(later[n - 1].id));
      }
    } else {
      hide Live;
      NextRows(tail, cursor, n);
      assert [] + later == later;
      NotBeyondNext(rows, cursor, later[n].id);
    }
  }

  /** A first row that the query passes over is passed over with any later cursor. */
  lemma NotBeyondNext(rows: seq<Row>, cursor: Option<int>, next: int)
    requires rows != [] && !(rows[0].value.Some? && Beyond(cursor, rows[0].id)) && Beyond(cursor, next)
    ensures Live(rows, Some(next)) == Live(rows[1..], Some(next))
  {
  }

  // ---------------------------------------------------------------- the pass

  /** UPDATE ... WHERE id = the row's. */
  function Put(rows: seq<Row>, r: Row): (rows': seq<Row>)
    ensures |rows'| == |rows|
    ensures forall i :: 0 <= i < |rows| ==> rows'[i] == if rows[i].id == r.id then r else rows[i]
  {
    if rows == [] then [] else [if rows[0].id == r.id then r else rows[0]] + Put(rows[1..], r)
  }

  /** The table after the first n live rows have had their turn: a pass stopped there, or, at the end, a whole one. */
  function Applied(p: Pass, rows: seq<Row>, n: nat): (rows': seq<Row>)
    requires n <= |Live(rows, None)|
    ensures |rows'| == |rows|
  {
    if n == 0 then rows
    else Put(Applied(p, rows, n - 1), Migrated(p, Live(rows, None)[n - 1]))
  }

  function FullPass(p: Pass, rows: seq<Row>): seq<Row> {
    Applied(p, rows, |Live(rows, None)|)
  }

  datatype Tally = Tally(updated: nat, skipped: nat, failed: nat)

  function Tick(t: Tally, o: Outcome): Tally {
    match o
    case Updated(_) => t.(updated := t.updated + 1)
    case Skipped => t.(skipped := t.skipped + 1)
    case Failed => t.(failed := t.failed + 1)
  }

  predicate AllPresent(live: seq<Row>) {
    forall i :: 0 <= i < |live| ==> live[i].value.Some?
  }

  /** Progress over the first n rows. */
  function Counted(p: Pass, live: seq<Row>, n: nat): (t: Tally)
    requires AllPresent(live) && n <= |live|
    ensures t.updated + t.skipped + t.failed == n
  {
    if n == 0 then Tally(0, 0, 0)
    else Tick(Counted(p, live, n - 1), OutcomeOf(p, live[n - 1].id, live[n - 1].value.value))
  }

  /** The counters of a whole pass. */
  function Count(p: Pass, rows: seq<Row>): (t: Tally)
    ensures t.updated + t.skipped + t.failed == |Live(rows, None)|
  {
    Counted(p, Live(rows, None), |Live(rows, None)|)
  }

  /** The id of the last of n live rows, or no cursor. */
  function CursorAt(live: seq<Row>, n: nat): Option<int>
    requires n <= |live|
  {
    if n == 0 then None else Some(live[n - 1].id)
  }

  /** Row by row: those among the first n live rows are migrated, the others are as they were. */
  lemma {:induction false} AppliedRows(p: Pass, rows: seq<Row>, n: nat, i: nat)
    requires Sorted(rows) && n <= |Live(rows, None)| && i < |rows|
    ensures Applied(p, rows, n)[i] ==
            if Beyond(CursorAt(Live(rows, None), n), rows[i].id) then rows[i] else Migrated(p, rows[i])
    decreases n
  {
    if n > 0 {
      AppliedRows(p, rows, n - 1, i);
      TurnOfRow(p, rows, Live(rows, None), n, i, Applied(p, rows, n - 1)[i]);
    }
  }

  /**
   The n-th turn: row i, which stands as `r` before it, is migrated if it is the n-th live row and
   stays otherwise.
   */
  lemma TurnOfRow(p: Pass, rows: seq<Row>, live: seq<Row>, n: nat, i: nat, r: Row)
    requires Sorted(rows) && live == Live(rows, None) && 0 < n <= |live| && i < |rows|
    requires r == if Beyond(CursorAt(live, n - 1), rows[i].id) then rows[i] else Migrated(p, rows[i])
    ensures (if r.id == live[n - 1].id then Migrated(p, live[n - 1]) else r) ==
            if Beyond(CursorAt(live, n), rows[i].id) then rows[i] else Migrated(p, rows[i])
  {
    LiveIsSorted(rows, None);
    LiveMember(rows, None, live[n - 1]);
    TurnOf(rows, live[n - 1], i);
    InOrder(rows, n, i);
  }

  lemma TurnOf(rows: seq<Row>, r: Row, i: nat)
    requires Sorted(rows) && r in rows && i < |rows|
    ensures rows[i].id == r.id <==> rows[i] == r
  {
    var j :| 0 <= j < |rows| && rows[j] == r;
    assert i < j ==> rows[i].id < rows[j].id;
    assert j < i ==> rows[j].id < rows[i].id;
  }

  /** No live row lies strictly between two neighbours; the rows there hold NULL. */
  lemma InOrder(rows: seq<Row>, n: nat, i: nat)
    requires Sorted(rows) && 0 < n <= |Live(rows, None)| && i < |rows|
    ensures var live := Live(rows, None);
            Beyond(CursorAt(live, n - 1), rows[i].id) && rows[i].id < live[n - 1].id ==> rows[i].value.None?
  {
    var live := Live(rows, None);
    LiveIsSorted(rows, None);
    LiveMember(rows, None, rows[i]);
    if rows[i].value.Some? {
      var k :| 0 <= k < |live| && live[k] == rows[i];
      Neighbours(live, n, k);
    }
  }

  lemma Neighbours(live: seq<Row>, n: nat, k: nat)
    requires Sorted(live) && 0 < n <= |live| && k < |live|
    ensures Beyond(CursorAt(live, n - 1), live[k].id) ==> live[n - 1].id <= live[k].id
  {
    assert n > 1 && k < n - 2 ==> live[k].id < live[n - 2].id;
  }

  lemma FullPassRows(p: Pass, rows: seq<Row>, i: nat)
    requires Sorted(rows) && i < |rows|
    ensures FullPass(p, rows)[i] == Migrated(p, rows[i])
  {
    var live := Live(rows, None);
    AppliedRows(p, rows, |live|, i);
    LiveIsSorted(rows, None);
    LiveMember(rows, None, rows[i]);
    if rows[i].value.Some? {
      var k :| 0 <= k < |live| && live[k] == rows[i];
      assert k < |live| - 1 ==> live[k].id < live[|live| - 1].id;
    }
  }

  // ---------------------------------------------------------------- what the counters say of the table

  /** The row has a value, and the pass decides on another and can write it. */
  predicate Rewrites(p: Pass, r: Row) {
    && r.value.Some? && p.act(r.id, r.value.value).Some? && p.act(r.id, r.value.value).value.Update?
    && (p.fails(r.id) ==> p.dryRun)
  }

  /** The row has a value, and the pass throws, deciding or writing. */
  predicate Breaks(p: Pass, r: Row) {
    && r.value.Some?
    && (p.act(r.id, r.value.value).None? ||
        (p.act(r.id, r.value.value).value.Update? && p.fails(r.id) && !p.dryRun))
  }

  function Rewriting(p: Pass): Row -> bool {
    r => Rewrites(p, r)
  }

  function Breaking(p: Pass): Row -> bool {
    r => Breaks(p, r)
  }

  function HowMany(rows: seq<Row>, which: Row -> bool): nat {
    if rows == [] then 0 else (if which(rows[0]) then 1 else 0) + HowMany(rows[1..], which)
  }

  lemma {:induction false} HowManyMore(rows: seq<Row>, r: Row, which: Row -> bool)
    ensures HowMany(rows + [r], which) == HowMany(rows, which) + if which(r) then 1 else 0
  {
    if rows == [] {
      assert rows + [r] == [r];
    } else {
      assert (rows + [r])[1..] == rows[1..] + [r];
      HowManyMore(rows[1..], r, which);
    }
  }

  lemma {:induction false} HowManyLive(rows: seq<Row>, which: Row -> bool)
    requires forall r :: which(r) ==> r.value.Some?
    ensures HowMany(Live(rows, None), which) == HowMany(rows, which)
  {
    if rows != [] {
      HowManyLive(rows[1..], which);
      var later := Live(rows[1..], None);
      if rows[0].value.Some? {
        assert ([rows[0]] + later)[1..] == later;
      } else {
        assert [] + later == later;
      }
    }
  }

  lemma {:induction false} CountedIs(p: Pass, live: seq<Row>, n: nat)
    requires AllPresent(live) && n <= |live|
    ensures Counted(p, live, n).updated == HowMany(live[..n], Rewriting(p))
    ensures Counted(p, live, n).failed == HowMany(live[..n], Breaking(p))
  {
    if n > 0 {
      CountedIs(p, live, n - 1);
      assert live[..n] == live[..n - 1] + [live[n - 1]];
      HowManyMore(live[..n - 1], live[n - 1], Rewriting(p));
      HowManyMore(live[..n - 1], live[n - 1], Breaking(p));
      hide HowMany;
    }
  }

  /** Over the whole table the counters are the rows rewritten and the rows that failed, and the rest were skipped. */
  lemma CountersTellTheTable(p: Pass, rows: seq<Row>)
    ensures Count(p, rows).updated == HowMany(rows, Rewriting(p))
    ensures Count(p, rows).failed == HowMany(rows, Breaking(p))
  {
    var live := Live(rows, None);
    CountedIs(p, live, |live|);
    assert live[..|live|] == live;
    HowManyLive(rows, Rewriting(p));
    HowManyLive(rows, Breaking(p));
    hide HowMany, Counted, Live;
  }

  /** And a pass that writes leaves the decided value in each row it counts as updated, and every other row alone. */
  lemma PassWritesWhatItCounts(p: Pass, rows: seq<Row>, i: nat)
    requires Sorted(rows) && i < |rows| && !p.dryRun
    ensures FullPass(p, rows)[i] ==
            if Rewrites(p, rows[i]) then Row(rows[i].id, Some(p.act(rows[i].id, rows[i].value.value).value.newValue))
            else rows[i]
  {
    FullPassRows(p, rows, i);
    hide FullPass;
  }

  /** An UPDATE fails on none of the rows, and the pass writes. */
  predicate Clean(p: Pass, rows: seq<Row>) {
    !p.dryRun && forall i :: 0 <= i < |rows| ==> !p.fails(rows[i].id)
  }

  /** The pass would skip every row. */
  predicate Settled(p: Pass, live: seq<Row>) {
    AllPresent(live) && forall i :: 0 <= i < |live| ==> OutcomeOf(p, live[i].id, live[i].value.value) == Skipped
  }

  lemma {:induction false} SettledCountsNone(p: Pass, live: seq<Row>, n: nat)
    requires Settled(p, live) && n <= |live|
    ensures Counted(p, live, n) == Tally(0, n, 0)
  {
    if n > 0 {
      SettledCountsNone(p, live, n - 1);
    }
  }

  /** A dry run changes nothing and counts what the same pass, were no UPDATE to fail, would count. */
  lemma {:induction false} DryRunCounts(p: Pass, live: seq<Row>, n: nat)
    requires AllPresent(live) && n <= |live| && forall i :: 0 <= i < |live| ==> !p.fails(live[i].id)
    ensures Counted(p.(dryRun := true), live, n) == Counted(p, live, n)
  {
    if n > 0 {
      DryRunCounts(p, live, n - 1);
    }
  }

  lemma DryRunChangesNothing(p: Pass, rows: seq<Row>)
    requires Sorted(rows) && p.dryRun
    ensures FullPass(p, rows) == rows
  {
    forall i | 0 <= i < |rows|
      ensures FullPass(p, rows)[i] == rows[i]
    {
      FullPassRows(p, rows, i);
    }
  }
}
