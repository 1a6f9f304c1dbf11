/**
 processTable in its own form: batches fetched behind a moving cursor, rows updated in
 place, counters ticked. It is proved to examine every row that has a value exactly once,
 in order, and to leave what BatchPass.FullPass says.
 */
module BatchScript {
  import opened BatchPass
  import opened Options

  class Table {
    var rows: seq<Row>

    constructor (rows: seq<Row>)
      ensures this.rows == rows
    {
      this.rows := rows;
    }

    /** SELECT ... WHERE field IS NOT NULL AND id > cursor ORDER BY id LIMIT limit. */
    method SelectBatch(cursor: Option<int>, limit: nat) returns (batch: seq<Row>)
      ensures batch == FirstOf(Live(rows, cursor), limit)
    {
      batch := [];
      ghost var all := Live(rows, cursor);
      var i := 0;
      while i < |rows| && |batch| < limit
        invariant 0 <= i <= |rows| && |batch| <= limit
        invariant all == batch + Live(rows[i..], cursor)
      {
        SelectStep(rows, cursor, i, batch, all);
        if rows[i].value.Some? && Beyond(cursor, rows[i].id) {
          batch := batch + [rows[i]];
        }
        i := i + 1;
      }
      assert i == |rows| ==> rows[i..] == [];
    }

    /** UPDATE ... SET field = value WHERE id = id. */
    method Update(id: int, value: string)
      modifies this
      ensures rows == Put(old(rows), Row(id, Some(value)))
    {
      hide Put;
      var i := 0;
      ghost var r := Row(id, Some(value));
      while i < |rows|
        invariant 0 <= i <= |rows| == |old(rows)|
        invariant forall k :: 0 <= k < i ==> rows[k] == Put(old(rows), r)[k]
        invariant forall k :: i <= k < |rows| ==> rows[k] == old(rows)[k]
      {
        if rows[i].id == id {
          rows := rows[i := Row(id, Some(value))];
        }
        i := i + 1;
      }
    }
  }

  lemma SelectStep(rows: seq<Row>, cursor: Option<int>, i: nat, batch: seq<Row>, all: seq<Row>)
    requires i < |rows| && all == batch + Live(rows[i..], cursor)
    ensures var kept := rows[i].value.Some? && Beyond(cursor, rows[i].id);
            all == (if kept then batch + [rows[i]] else batch) + Live(rows[i + 1..], cursor)
  {
    assert rows[i..][1..] == rows[i + 1..];
  }

  function FirstOf(live: seq<Row>, limit: nat): seq<Row> {
    if |live| <= limit then live else live[..limit]
  }

  class Progress {
    var updated: nat
    var skipped: nat
    var failed: nat

    constructor ()
      ensures Counts() == Tally(0, 0, 0)
    {
      updated, skipped, failed := 0, 0, 0;
    }

    function Counts(): Tally
      reads this
    {
      Tally(updated, skipped, failed)
    }

    method Tick(t: Tally)
      modifies this
      ensures Counts() == Plus(old(Counts()), t)
    {
      updated, skipped, failed := updated + t.updated, skipped + t.skipped, failed + t.failed;
    }
  }

  function Plus(s: Tally, t: Tally): Tally {
    Tally(s.updated + t.updated, s.skipped + t.skipped, s.failed + t.failed)
  }

  lemma {:induction false} SameBeyond(rows: seq<Row>, rows': seq<Row>, cursor: Option<int>)
    requires |rows'| == |rows|
    requires forall i :: 0 <= i < |rows| ==> rows'[i].id == rows[i].id
    requires forall i :: 0 <= i < |rows| && Beyond(cursor, rows[i].id) ==> rows'[i] == rows[i]
    ensures Live(rows', cursor) == Live(rows, cursor)
  {
    if rows != [] {
      SameBeyond(rows[1..], rows'[1..], cursor);
    }
  }

  /** What the next query sees of a table being migrated: the rows not examined yet, as they were at the start. */
  lemma RemainingRows(p: Pass, rows: seq<Row>, n: nat)
    requires Sorted(rows) && n <= |Live(rows, None)|
    ensures var live := Live(rows, None); Live(Applied(p, rows, n), CursorAt(live, n)) == live[n..]
  {
    var live := Live(rows, None);
    var now := Applied(p, rows, n);
    forall i | 0 <= i < |rows|
      ensures now[i].id == rows[i].id
      ensures Beyond(CursorAt(live, n), rows[i].id) ==> now[i] == rows[i]
    {
      AppliedRows(p, rows, n, i);
    }
    SameBeyond(rows, now, CursorAt(live, n));
    if n > 0 {
      NextRows(rows, None, n - 1);
    }
  }

  /** Putting back the row the n-th turn examines changes nothing. */
  lemma PutBack(p: Pass, rows: seq<Row>, n: nat)
    requires Sorted(rows) && n < |Live(rows, None)|
    ensures Put(Applied(p, rows, n), Live(rows, None)[n]) == Applied(p, rows, n)
  {
    var live := Live(rows, None);
    LiveIsSorted(rows, None);
    LiveMember(rows, None, live[n]);
    forall i | 0 <= i < |rows|
      ensures Put(Applied(p, rows, n), live[n])[i] == Applied(p, rows, n)[i]
    {
      AppliedRows(p, rows, n, i);
      TurnOf(rows, live[n], i);
    }
  }

  /** The table and the counters stand where a pass over `before` stands after n rows. */
  ghost predicate Reached(p: Pass, before: seq<Row>, live: seq<Row>, n: nat, rows: seq<Row>, t: Tally) {
    && Sorted(before) && live == Live(before, None) && n <= |live|
    && rows == Applied(p, before, n)
    && t == Counted(p, live, n)
  }

  lemma NextTurn(p: Pass, before: seq<Row>, live: seq<Row>, n: nat, rows: seq<Row>, t: Tally)
    requires Reached(p, before, live, n, rows, t) && n < |live|
    ensures live[n].value.Some? && Put(rows, live[n]) == rows
    ensures var o := OutcomeOf(p, live[n].id, live[n].value.value);
            Reached(p, before, live, n + 1, Put(rows, Migrated(p, live[n])), Tick(t, o))
  {
    PutBack(p, before, n);
  }

  /** Rows n, n + 1, ... of the live rows. */
  ghost predicate Piece(live: seq<Row>, n: nat, batch: seq<Row>) {
    n + |batch| <= |live| && batch == live[n..n + |batch|]
  }

  /** The loop stands after `examined`, the first live rows. */
  ghost predicate Examined(p: Pass, before: seq<Row>, live: seq<Row>, examined: seq<Row>, cursor: Option<int>,
                           rows: seq<Row>, t: Tally)
  {
    && Piece(live, 0, examined) && cursor == CursorAt(live, |examined|)
    && Reached(p, before, live, |examined|, rows, t)
  }

  lemma NextBatch(p: Pass, before: seq<Row>, live: seq<Row>, examined: seq<Row>, cursor: Option<int>,
                  rows: seq<Row>, t: Tally, limit: nat, batch: seq<Row>)
    requires Examined(p, before, live, examined, cursor, rows, t) && limit >= 1
    requires batch == FirstOf(Live(rows, cursor), limit)
    ensures Piece(live, |examined|, batch) && |examined| + |batch| <= |live|
    ensures Reached(p, before, live, |examined|, rows, t)
    ensures batch == [] ==> |examined| == |live|
  {
    hide Sorted, Applied, Counted;
    RemainingRows(p, before, |examined|);
  }

  lemma BatchDone(p: Pass, before: seq<Row>, live: seq<Row>, examined: seq<Row>, batch: seq<Row>,
                  rows: seq<Row>, t: Tally)
    requires Piece(live, 0, examined) && Piece(live, |examined|, batch) && batch != []
    requires Reached(p, before, live, |examined| + |batch|, rows, t)
    ensures Examined(p, before, live, examined + batch, Some(batch[|batch| - 1].id), rows, t)
  {
    hide Reached;
    assert live[..|examined|] + live[|examined|..|examined| + |batch|] == live[..|examined| + |batch|];
  }

  lemma PassBegins(p: Pass, before: seq<Row>, live: seq<Row>)
    requires Sorted(before) && live == Live(before, None)
    ensures Examined(p, before, live, [], None, before, Tally(0, 0, 0))
  {
  }

  lemma WholePass(p: Pass, before: seq<Row>, live: seq<Row>, examined: seq<Row>, cursor: Option<int>,
                  rows: seq<Row>, t: Tally)
    requires Examined(p, before, live, examined, cursor, rows, t) && |examined| == |live|
    ensures rows == FullPass(p, before) && t == Count(p, before) && examined == Live(before, None)
  {
  }

  method ProcessTable(table: Table, progress: Progress, p: Pass, batchSize: nat) returns (ghost examined: seq<Row>)
    requires batchSize >= 1 && Sorted(table.rows) && progress.Counts() == Tally(0, 0, 0)
    modifies table, progress
    ensures table.rows == FullPass(p, old(table.rows))
    ensures examined == Live(old(table.rows), None)
    ensures progress.Counts() == Count(p, old(table.rows))
  {
    hide Reached, Live, FirstOf, FullPass, Count, CursorAt, Piece;
    ghost var before := table.rows;
    ghost var live := Live(before, None);
    var cursor: Option<int> := None;
    examined := [];
    PassBegins(p, before, live);
    while true
      invariant Examined(p, before, live, examined, cursor, table.rows, progress.Counts())
      decreases |live| - |examined|
    {
      var batch := table.SelectBatch(cursor, batchSize);
      ghost var soFar := progress.Counts();
      NextBatch(p, before, live, examined, cursor, table.rows, soFar, batchSize, batch);
      if |batch| == 0 {
        break;
      }
      var counts := ProcessBatch(table, p, batch, before, live, |examined|, soFar);
      ghost var rows := table.rows;
      progress.Tick(counts);
      assert table.rows == rows && progress.Counts() == Plus(soFar, counts);
      BatchDone(p, before, live, examined, batch, rows, Plus(soFar, counts));
      cursor := Some(batch[|batch| - 1].id);
      examined := examined + batch;
    }
    WholePass(p, before, live, examined, cursor, table.rows, progress.Counts());
  }

  /** One batch: rows n, n + 1, ... of the live rows, one after another. */
  method ProcessBatch(table: Table, p: Pass, batch: seq<Row>,
                      ghost before: seq<Row>, ghost live: seq<Row>, ghost n: nat, ghost t: Tally)
    returns (counts: Tally)
    requires Piece(live, n, batch) && Reached(p, before, live, n, table.rows, t)
    modifies table
    ensures Reached(p, before, live, n + |batch|, table.rows, Plus(t, counts))
  {
    hide Reached;
    counts := Tally(0, 0, 0);
    assert Plus(t, counts) == t;
    var j := 0;
    while j < |batch|
      invariant 0 <= j <= |batch|
      invariant Reached(p, before, live, n + j, table.rows, Plus(t, counts))
    {
      counts := ProcessTurn(table, p, batch[j], counts, before, live, n + j, t);
      j := j + 1;
    }
  }

  /** One row's turn, counted. */
  method ProcessTurn(table: Table, p: Pass, row: Row, counts: Tally,
                     ghost before: seq<Row>, ghost live: seq<Row>, ghost n: nat, ghost t: Tally)
    returns (counts': Tally)
    requires n < |live| && row == live[n]
    requires Reached(p, before, live, n, table.rows, Plus(t, counts))
    modifies table
    ensures Reached(p, before, live, n + 1, table.rows, Plus(t, counts'))
  {
    NextTurn(p, before, live, n, table.rows, Plus(t, counts));
    var outcome := ProcessRow(table, p, row);
    PlusTick(t, counts, outcome);
    counts' := Tick(counts, outcome);
  }

  lemma PlusTick(t: Tally, u: Tally, o: Outcome)
    ensures Plus(t, Tick(u, o)) == Tick(Plus(t, u), o)
  {
  }

  method ProcessRow(table: Table, p: Pass, row: Row) returns (outcome: Outcome)
    requires row.value.Some? && Put(table.rows, row) == table.rows
    modifies table
    ensures outcome == OutcomeOf(p, row.id, row.value.value)
    ensures table.rows == Put(old(table.rows), Migrated(p, row))
  {
    var computed := p.act(row.id, row.value.value);
    if computed.None? {
      return Failed;
    }
    if computed.value.Skip? {
      return Skipped;
    }
    if !p.dryRun {
      if p.fails(row.id) {
        return Failed;
      }
      table.Update(row.id, computed.value.newValue);
    }
    outcome := Updated(computed.value.newValue);
  }
}
