/**
 What the committed recordings, refunds and reconciliations have made of the table, told row by
 row from the log: every recording is there as it was made but for its status and its
 reconciliation, and every refund is a row of its own beside its original.
 */
module RefundLog {
  import opened Options
  import opened Transactions
  import opened RefundRuns

  predicate RefundedIn(log: seq<Event>, hash: string) {
    exists k :: 0 <= k < |log| && log[k].Refunding? && log[k].hash == hash
  }

  /** The row that a recording of r is by now. */
  predicate StandsFor(log: seq<Event>, r: Row, row: Row) {
    && row == r.(status := row.status, reconciled := row.reconciled)
    && row.status == if RefundedIn(log, r.hash) then Refunded
                     else if row.reconciled && r.status == Completed then Reconciled
                     else r.status
  }

  predicate RecordedAt(rows: seq<Row>, log: seq<Event>, k: nat, i: nat) {
    k < |log| && log[k].Recording? && i < |rows| && StandsFor(log, log[k].r, rows[i])
  }

  predicate RefundedAt(rows: seq<Row>, e: Event, i: nat, j: nat) {
    && e.Refunding? && PairAt(rows, i, j) && rows[i].hash == e.hash
    && rows[j].hash == e.refundHash && rows[j].createdAt == e.now
  }

  /** The event has put a row with this hash into the table. */
  predicate Adds(e: Event, hash: string) {
    (e.Recording? && e.r.hash == hash) || (e.Refunding? && e.refundHash == hash)
  }

  ghost predicate EventTold(rows: seq<Row>, log: seq<Event>, k: nat)
    requires k < |log|
  {
    && (log[k].Recording? ==> exists i: nat :: RecordedAt(rows, log, k, i))
    && (log[k].Refunding? ==> exists i: nat, j: nat :: RefundedAt(rows, log[k], i, j))
  }

  predicate RowTold(log: seq<Event>, hash: string) {
    exists k :: 0 <= k < |log| && Adds(log[k], hash)
  }

  /** The table and the log tell of the same rows. */
  ghost predicate Told(rows: seq<Row>, log: seq<Event>) {
    && (forall k :: 0 <= k < |log| ==> EventTold(rows, log, k))
    && (forall i :: 0 <= i < |rows| ==> RowTold(log, rows[i].hash))
  }

  lemma RefundedInNext(log: seq<Event>, e: Event, hash: string)
    ensures RefundedIn(log + [e], hash) <==> RefundedIn(log, hash) || (e.Refunding? && e.hash == hash)
  {
    var log' := log + [e];
    if RefundedIn(log, hash) {
      var k :| 0 <= k < |log| && log[k].Refunding? && log[k].hash == hash;
      assert log'[k] == log[k];
    }
    assert log'[|log|] == e;
  }

  lemma RowToldNext(log: seq<Event>, e: Event, hash: string)
    ensures RowTold(log + [e], hash) <==> RowTold(log, hash) || Adds(e, hash)
  {
    var log' := log + [e];
    hide Adds;
    if RowTold(log, hash) {
      var k :| 0 <= k < |log| && Adds(log[k], hash);
      assert log'[k] == log[k];
    }
    assert log'[|log|] == e;
  }

  /** A refunded transaction is in the table. */
  lemma RefundedIsThere(rows: seq<Row>, log: seq<Event>, hash: string)
    requires Told(rows, log) && RefundedIn(log, hash)
    ensures exists i :: 0 <= i < |rows| && rows[i].hash == hash
  {
    var k :| 0 <= k < |log| && log[k].Refunding? && log[k].hash == hash;
    assert EventTold(rows, log, k);
    var i: nat, j: nat :| RefundedAt(rows, log[k], i, j);
  }

  /** Every event of the old log is told of by the new table too. */
  lemma OldEventsStayTold(rows: seq<Row>, rows': seq<Row>, log: seq<Event>, e: Event)
    requires Told(rows, log) && Carries(rows, rows')
    requires forall k: nat, i: nat :: RecordedAt(rows, log, k, i) ==> StandsFor(log + [e], log[k].r, rows'[i])
    ensures forall k :: 0 <= k < |log| ==> EventTold(rows', log + [e], k)
  {
    forall k | 0 <= k < |log|
      ensures EventTold(rows', log + [e], k)
    {
      assert EventTold(rows, log, k);
      if log[k].Recording? {
        var i: nat :| RecordedAt(rows, log, k, i);
        assert RecordedAt(rows', log + [e], k, i);
      } else if log[k].Refunding? {
        var i: nat, j: nat :| RefundedAt(rows, log[k], i, j);
        assert SameDeal(rows[i], rows'[i]) && SameDeal(rows[j], rows'[j]);
        assert RefundedAt(rows', log[k], i, j);
      }
    }
  }

  lemma RecordingIsTold(rows: seq<Row>, log: seq<Event>, r: Row)
    requires Told(rows, log) && !r.reconciled && Find(rows, r.hash).None?
    ensures Told(rows + [r], log + [Recording(r)])
  {
    var (rows', e) := (rows + [r], Recording(r));
    hide Told;
    ToldOf(rows, log);
    forall k: nat, i: nat | RecordedAt(rows, log, k, i)
      ensures StandsFor(log + [e], log[k].r, rows'[i])
    {
      RefundedInNext(log, e, log[k].r.hash);
    }
    hide StandsFor;
    OldEventsStayTold(rows, rows', log, e);
    if RefundedIn(log, r.hash) {
      RefundedIsThere(rows, log, r.hash);
    }
    RefundedInNext(log, e, r.hash);
    NewRecording(rows, log, r);
    forall i | 0 <= i < |rows'|
      ensures RowTold(log + [e], rows'[i].hash)
    {
      RowToldNext(log, e, rows'[i].hash);
    }
    TellAll(rows', log, e);
  }

  lemma ToldOf(rows: seq<Row>, log: seq<Event>)
    requires Told(rows, log)
    ensures forall i :: 0 <= i < |rows| ==> RowTold(log, rows[i].hash)
  {
  }

  lemma TellAll(rows: seq<Row>, log: seq<Event>, e: Event)
    requires forall k :: 0 <= k < |log| ==> EventTold(rows, log + [e], k)
    requires EventTold(rows, log + [e], |log|)
    requires forall i :: 0 <= i < |rows| ==> RowTold(log + [e], rows[i].hash)
    ensures Told(rows, log + [e])
  {
    hide EventTold, RowTold;
  }

  lemma NewRecording(rows: seq<Row>, log: seq<Event>, r: Row)
    requires !RefundedIn(log + [Recording(r)], r.hash) && !r.reconciled
    ensures EventTold(rows + [r], log + [Recording(r)], |log|)
  {
    assert RecordedAt(rows + [r], log + [Recording(r)], |log|, |rows|);
  }

  lemma RefundingIsTold(rows: seq<Row>, log: seq<Event>, at: nat, refundHash: string, now: int)
    requires Told(rows, log) && UniqueHashes(rows) && at < |rows| && Objection(rows[at]).None?
    ensures Told(ApplyRefund(rows, at, refundHash, now), log + [Refunding(rows[at].hash, refundHash, now)])
  {
    var (rows', e) := (ApplyRefund(rows, at, refundHash, now), Refunding(rows[at].hash, refundHash, now));
    hide Told;
    ToldOf(rows, log);
    forall k: nat, i: nat | RecordedAt(rows, log, k, i)
      ensures StandsFor(log + [e], log[k].r, rows'[i])
    {
      RefundedInNext(log, e, log[k].r.hash);
      SameHashSameRow(rows, i, at);
    }
    hide StandsFor, UniqueHashes;
    OldEventsStayTold(rows, rows', log, e);
    NewRefunding(rows, log, at, refundHash, now);
    forall i | 0 <= i < |rows'|
      ensures RowTold(log + [e], rows'[i].hash)
    {
      RowToldNext(log, e, rows'[i].hash);
    }
    TellAll(rows', log, e);
  }

  lemma NewRefunding(rows: seq<Row>, log: seq<Event>, at: nat, refundHash: string, now: int)
    requires at < |rows| && Objection(rows[at]).None?
    ensures var e := Refunding(rows[at].hash, refundHash, now);
            EventTold(ApplyRefund(rows, at, refundHash, now), log + [e], |log|)
  {
    var e := Refunding(rows[at].hash, refundHash, now);
    assert (log + [e])[|log|] == e;
    assert RefundedAt(ApplyRefund(rows, at, refundHash, now), e, at, |rows|);
  }

  lemma ReconcilingIsTold(rows: seq<Row>, log: seq<Event>, f: Filter, sees: Snapshot)
    requires Told(rows, log)
    ensures Told(ReconcileRows(f, sees, rows), log + [Reconciling(f, sees)])
  {
    var (rows', e) := (ReconcileRows(f, sees, rows), Reconciling(f, sees));
    hide Told, Matches;
    ToldOf(rows, log);
    forall k: nat, i: nat | RecordedAt(rows, log, k, i)
      ensures StandsFor(log + [e], log[k].r, rows'[i])
    {
      RefundedInNext(log, e, log[k].r.hash);
      assert rows'[i] == ReconcileRow(f, sees, rows[i], i);
    }
    forall i | 0 <= i < |rows|
      ensures SameDeal(rows[i], rows'[i])
    {
      assert rows'[i] == ReconcileRow(f, sees, rows[i], i);
    }
    hide StandsFor, ReconcileRows;
    OldEventsStayTold(rows, rows', log, e);
    assert (log + [e])[|log|] == e;
    assert EventTold(rows', log + [e], |log|);
    forall i | 0 <= i < |rows'|
      ensures RowTold(log + [e], rows'[i].hash)
    {
      assert SameDeal(rows[i], rows'[i]);
      RowToldNext(log, e, rows'[i].hash);
    }
    TellAll(rows', log, e);
  }

  lemma StepKeepsTold(s: State, a: Action)
    requires LockInv(s) && Told(s.rows, s.log)
    ensures Told(Step(s, a).rows, Step(s, a).log)
  {
    hide Told, ReconcileWaits, ReconcileRows, ReceiptOf, Find, ApplyRefund;
    match a
    case Advance(t) =>
      if t < |s.txns| && s.txns[t].stage.Updated? {
        assert TxnHolds(s.rows, s.txns[t]);
        RefundingIsTold(s.rows, s.log, s.txns[t].stage.at, s.txns[t].refundHash, s.txns[t].now);
      }
    case Insert(r) =>
      if !r.reconciled && Find(s.rows, r.hash).None? {
        RecordingIsTold(s.rows, s.log, r);
      }
    case Reconcile(f, sees) => ReconcilingIsTold(s.rows, s.log, f, sees);
    case _ =>
  }

  /**
   Over every run, whatever is recorded: each committed recording is in the table with its owner,
   amount, wallets, reference and date, refunded if a refund of it has committed, and otherwise
   as recorded but for 'completed' turned 'reconciled'; each committed refund stands beside its
   original, dated when it was made; and the table has no other row.
   */
  lemma {:induction false} RunIsTold(actions: seq<Action>)
    ensures Told(Run(actions).rows, Run(actions).log)
  {
    if actions != [] {
      var n := |actions| - 1;
      RunIsTold(actions[..n]);
      RunKeepsLocks(actions[..n]);
      StepKeepsTold(Run(actions[..n]), actions[n]);
    }
  }

  /** Asks for a user's or a merchant's transactions, or for both, and nothing else. */
  predicate OnlyOwner(f: Filter) {
    f == Filter(f.user, f.merchant, None, None, None, None, None)
  }

  /**
   Over every run a refund is its original's owner's: whoever lists one of the two by user or
   merchant lists the other; and it is never pending or failed.
   */
  lemma RefundsBelongToTheOwner(actions: seq<Action>, j: nat) returns (i: nat)
    requires PlainRun(actions) && j < |Run(actions).rows| && Run(actions).rows[j].kind == Refund
    ensures var rows := Run(actions).rows;
            && i < |rows| && rows[j].reference == Some(rows[i].hash)
            && rows[j].user == rows[i].user && rows[j].merchant == rows[i].merchant
            && (forall f :: OnlyOwner(f) ==> (Matches(f, rows[j]) <==> Matches(f, rows[i])))
            && rows[j].status == if rows[j].reconciled then Reconciled else Completed
  {
    RunIsClean(actions);
    hide Run;
    var rows := Run(actions).rows;
    assert HasOriginal(rows, j);
    i :| PairAt(rows, i, j);
  }
}
