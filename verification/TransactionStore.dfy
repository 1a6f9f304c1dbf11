/**
 The transaction repository in its own form: statements that change the table in place
 and the loop that totals a reconciliation. Each method is proved to do what
 Transactions says of it.
 */
module TransactionStore {
  import opened Options
  import opened Transactions

  class TransactionRepository {
    var rows: seq<Row>

    constructor ()
      ensures rows == []
    {
      rows := [];
    }

    /** SELECT ... WHERE tx_hash = hash. */
    method GetTransactionByHash(hash: string) returns (at: Option<nat>)
      ensures at == Find(rows, hash)
    {
      var i := 0;
      while i < |rows|
        invariant 0 <= i <= |rows|
        invariant Find(rows, hash) == Later(Find(rows[i..], hash), i)
      {
        if rows[i].hash == hash {
          return Some(i);
        }
        assert rows[i..][1..] == rows[i + 1..];
        i := i + 1;
      }
      assert rows[i..] == [];
      at := None;
    }

    method RecordTransaction(r: Row) returns (ok: bool)
      requires !r.reconciled
      modifies this
      ensures ok == Record(old(rows), r).Some?
      ensures rows == if ok then Record(old(rows), r).value else old(rows)
    {
      var existing := GetTransactionByHash(r.hash);
      if existing.Some? {
        return false;
      }
      rows := rows + [r];
      ok := true;
    }

    /** Alone, the INSERT cannot fail: RefundRuns has the case where another refund gets in between. */
    method ProcessRefund(hash: string, refundHash: string, now: int) returns (outcome: Outcome)
      modifies this
      ensures (rows, outcome) == Transactions.ProcessRefund(old(rows), hash, refundHash, now)
    {
      ghost var saved := rows;
      var existing := GetTransactionByHash(refundHash);
      if existing.Some? {
        return Rejected(DuplicateTransaction);
      }
      var original := GetTransactionByHash(hash);
      if original.None? {
        return Rejected(NotFound);
      }
      var at := original.value;
      if rows[at].kind == Refund {
        return Rejected(InvalidRefundTarget);
      }
      if rows[at].status == Refunded {
        return Rejected(AlreadyRefunded);
      }
      var refund := RefundOf(rows[at], refundHash, now);
      rows := rows + [refund];
      rows := rows[at := rows[at].(status := Refunded)];
      assert rows == saved[at := MarkRefunded(saved[at])] + [refund];
      outcome := Done(rows[at], refund);
    }

    method ReconcileTransactions(f: Filter) returns (receipt: Receipt)
      modifies this
      ensures rows == ReconcileRows(f, EVERYTHING, old(rows))
      ensures receipt == ReceiptOf(f, EVERYTHING, old(rows), |old(rows)|)
    {
      hide Matches, ReceiptOf;
      receipt := Receipt({}, 0);
      ReceiptOfNone(f, EVERYTHING, rows);
      var i := 0;
      while i < |rows|
        invariant 0 <= i <= |rows| == |old(rows)|
        invariant receipt == ReceiptOf(f, EVERYTHING, old(rows), i)
        invariant forall k :: 0 <= k < i ==> rows[k] == ReconcileRow(f, EVERYTHING, old(rows)[k], k)
        invariant forall k :: i <= k < |rows| ==> rows[k] == old(rows)[k]
      {
        ReceiptOfNext(f, EVERYTHING, old(rows), i);
        if Hit(f, rows[i]) {
          receipt := Receipt(receipt.marked + {i}, receipt.total + rows[i].amount);
          rows := rows[i := MarkReconciled(rows[i])];
        }
        i := i + 1;
      }
    }
  }

  lemma ReceiptOfNone(f: Filter, sees: Snapshot, rows: seq<Row>)
    ensures ReceiptOf(f, sees, rows, 0) == Receipt({}, 0)
  {
  }

  lemma ReceiptOfNext(f: Filter, sees: Snapshot, rows: seq<Row>, n: nat)
    requires n < |rows|
    ensures var r := ReceiptOf(f, sees, rows, n);
            ReceiptOf(f, sees, rows, n + 1) ==
              if sees(n) && Hit(f, rows[n]) then Receipt(r.marked + {n}, r.total + rows[n].amount) else r
  {
    hide Hit;
  }

  /** A position found in what is left of the table after i rows. */
  function Later(at: Option<nat>, i: nat): Option<nat> {
    match at case Some(k) => Some(k + i) case None => None
  }
}
