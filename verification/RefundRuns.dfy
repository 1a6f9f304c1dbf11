/**
 Refunds, recordings and reconciliations run against each other. A refund is a database
 transaction of five statements under a lock on the original row; its inserted row holds
 the unique refund hash until it commits. Recordings and reconciliations are single statements.
 */
module RefundRuns {
  import opened Options
  import opened Transactions

  datatype Stage =
    | Begun
    | Checked                  // no transaction has the refund hash
    | Locked(at: nat)          // SELECT ... FOR UPDATE returned row `at`, and it can be refunded
    | Inserted(at: nat)        // the refund row is inserted
    | Updated(at: nat)         // the original is marked
    | Committed
    | RolledBack(error: Option<Error>)   // None: the connection was lost

  datatype Txn = Txn(hash: string, refundHash: string, now: int, stage: Stage)

  /** What has been committed, in commit order. */
  datatype Event =
    | Refunding(hash: string, refundHash: string, now: int)
    | Recording(r: Row)
    | Reconciling(f: Filter, sees: Snapshot)

  datatype State = State(rows: seq<Row>, txns: seq<Txn>, receipts: seq<Receipt>, log: seq<Event>)

  const EMPTY := State([], [], [], [])

  datatype Action =
    | Begin(hash: string, refundHash: string, now: int)
    | Advance(t: nat)
    | Lose(t: nat)
    | Insert(r: Row)
    | Reconcile(f: Filter, sees: Snapshot)

  // ---------------------------------------------------------------- locks

  predicate HoldsRow(t: Txn) {
    t.stage.Locked? || t.stage.Inserted? || t.stage.Updated?
  }

  predicate HoldsKey(t: Txn) {
    t.stage.Inserted? || t.stage.Updated?
  }

  predicate RowLocked(txns: seq<Txn>, at: nat) {
    exists t :: 0 <= t < |txns| && HoldsRow(txns[t]) && txns[t].stage.at == at
  }

  predicate KeyLocked(txns: seq<Txn>, hash: string) {
    exists t :: 0 <= t < |txns| && HoldsKey(txns[t]) && txns[t].refundHash == hash
  }

  // ---------------------------------------------------------------- steps

  predicate Unfinished(t: Txn) {
    !t.stage.Committed? && !t.stage.RolledBack?
  }

  /** Transaction t's next statement has to wait for a lock. */
  predicate Waits(rows: seq<Row>, txns: seq<Txn>, t: Txn) {
    match t.stage
    case Checked => var at := Find(rows, t.hash); at.Some? && RowLocked(txns, at.value)
    case Locked(_) => KeyLocked(txns, t.refundHash)
    case _ => false
  }

  /** The stage after t's next statement, when it does not have to wait. */
  function NextStage(rows: seq<Row>, t: Txn): Stage {
    match t.stage
    case Begun => if Find(rows, t.refundHash).Some? then RolledBack(Some(DuplicateTransaction)) else Checked
    case Checked =>
      (match Find(rows, t.hash)
       case None => RolledBack(Some(NotFound))
       case Some(at) => if Objection(rows[at]).Some? then RolledBack(Objection(rows[at])) else Locked(at))
    case Locked(at) => if Find(rows, t.refundHash).Some? then RolledBack(Some(UniqueViolation)) else Inserted(at)
    case Inserted(at) => Updated(at)
    case Updated(_) => Committed
    case _ => t.stage
  }

  function AdvanceTxn(s: State, t: nat): State
    requires t < |s.txns|
  {
    var x := s.txns[t];
    if !Unfinished(x) || Waits(s.rows, s.txns, x) then s
    else
      var txns' := s.txns[t := x.(stage := NextStage(s.rows, x))];
      if x.stage.Updated? && x.stage.at < |s.rows| then
        State(ApplyRefund(s.rows, x.stage.at, x.refundHash, x.now), txns', s.receipts,
              s.log + [Refunding(x.hash, x.refundHash, x.now)])
      else State(s.rows, txns', s.receipts, s.log)
  }

  /** A reconciliation waits for every row it wants and a refund has locked. */
  predicate ReconcileWaits(s: State, f: Filter, sees: Snapshot) {
    exists i :: 0 <= i < |s.rows| && WantsLocked(s, f, sees, i)
  }

  predicate WantsLocked(s: State, f: Filter, sees: Snapshot, i: nat)
    requires i < |s.rows|
  {
    sees(i) && Hit(f, s.rows[i]) && RowLocked(s.txns, i)
  }

  function Step(s: State, a: Action): State {
    match a
    case Begin(hash, refundHash, now) => s.(txns := s.txns + [Txn(hash, refundHash, now, Begun)])
    case Advance(t) => if t < |s.txns| then AdvanceTxn(s, t) else s
    case Lose(t) =>
      if t < |s.txns| && Unfinished(s.txns[t]) then
        s.(txns := s.txns[t := s.txns[t].(stage := RolledBack(None))])
      else s
    case Insert(r) =>
      if r.reconciled || KeyLocked(s.txns, r.hash) || Record(s.rows, r).None? then s
      else s.(rows := s.rows + [r], log := s.log + [Recording(r)])
    case Reconcile(f, sees) =>
      if ReconcileWaits(s, f, sees) then s
      else State(ReconcileRows(f, sees, s.rows), s.txns, s.receipts + [ReceiptOf(f, sees, s.rows, |s.rows|)],
                 s.log + [Reconciling(f, sees)])
  }

  function RunFrom(s: State, actions: seq<Action>): State {
    if actions == [] then s else Step(RunFrom(s, actions[..|actions| - 1]), actions[|actions| - 1])
  }

  function Run(actions: seq<Action>): State {
    RunFrom(EMPTY, actions)
  }

  // ---------------------------------------------------------------- locks are kept

  /** What a transaction has read under its locks is still so. */
  predicate TxnHolds(rows: seq<Row>, t: Txn) {
    && (HoldsRow(t) ==> t.stage.at < |rows| && rows[t.stage.at].hash == t.hash && Objection(rows[t.stage.at]).None?)
    && (HoldsKey(t) ==> Find(rows, t.refundHash).None?)
  }

  predicate Exclusive(txns: seq<Txn>) {
    && (forall t, u :: 0 <= t < u < |txns| && HoldsRow(txns[t]) && HoldsRow(txns[u]) ==>
        txns[t].stage.at != txns[u].stage.at)
    && (forall t, u :: 0 <= t < u < |txns| && HoldsKey(txns[t]) && HoldsKey(txns[u]) ==>
        txns[t].refundHash != txns[u].refundHash)
  }

  ghost predicate LockInv(s: State) {
    && UniqueHashes(s.rows)
    && Exclusive(s.txns)
    && forall t :: 0 <= t < |s.txns| ==> TxnHolds(s.rows, s.txns[t])
  }

  lemma FindUnchanged(rows: seq<Row>, rows': seq<Row>, hash: string)
    requires |rows| <= |rows'| && forall i :: 0 <= i < |rows| ==> rows'[i].hash == rows[i].hash
    requires forall i :: |rows| <= i < |rows'| ==> rows'[i].hash != hash
    ensures Find(rows', hash).None? <==> Find(rows, hash).None?
  {
    var (f, f') := (Find(rows, hash), Find(rows', hash));
    if f.Some? {
      assert rows'[f.value].hash == hash;
    }
  }

  /** Rows may be added under other hashes and changed where t holds no lock. */
  lemma HoldsStays(rows: seq<Row>, rows': seq<Row>, t: Txn)
    requires TxnHolds(rows, t)
    requires |rows| <= |rows'| && forall i :: 0 <= i < |rows| ==> rows'[i].hash == rows[i].hash
    requires HoldsRow(t) && t.stage.at < |rows| ==>
             rows'[t.stage.at] == rows[t.stage.at] || rows'[t.stage.at] == MarkReconciled(rows[t.stage.at])
    requires HoldsKey(t) ==> forall i :: |rows| <= i < |rows'| ==> rows'[i].hash != t.refundHash
    ensures TxnHolds(rows', t)
  {
    if HoldsKey(t) {
      FindUnchanged(rows, rows', t.refundHash);
    }
  }

  lemma CommitKeepsLocks(s: State, t: nat)
    requires LockInv(s) && t < |s.txns| && s.txns[t].stage.Updated?
    ensures LockInv(AdvanceTxn(s, t))
  {
    var x := s.txns[t];
    var s' := AdvanceTxn(s, t);
    assert TxnHolds(s.rows, x);
    hide Find;
    forall u | 0 <= u < |s'.txns|
      ensures TxnHolds(s'.rows, s'.txns[u])
    {
      assert TxnHolds(s.rows, s.txns[u]);
      if u != t {
        assert HoldsRow(s.txns[u]) ==> s.txns[u].stage.at != x.stage.at;
        HoldsStays(s.rows, s'.rows, s.txns[u]);
      }
    }
  }

  lemma StatementKeepsLocks(s: State, t: nat)
    requires LockInv(s) && t < |s.txns| && !s.txns[t].stage.Updated?
    ensures LockInv(AdvanceTxn(s, t))
  {
    var x := s.txns[t];
    if Unfinished(x) && !Waits(s.rows, s.txns, x) {
      var x' := x.(stage := NextStage(s.rows, x));
      assert TxnHolds(s.rows, x);
      assert TxnHolds(s.rows, x');
      forall u | 0 <= u < |s.txns| && u != t && HoldsRow(x') && HoldsRow(s.txns[u])
        ensures s.txns[u].stage.at != x'.stage.at
      {
        assert x.stage.Checked? ==> !RowLocked(s.txns, x'.stage.at);
      }
      forall u | 0 <= u < |s.txns| && u != t && HoldsKey(x') && HoldsKey(s.txns[u])
        ensures s.txns[u].refundHash != x'.refundHash
      {
        assert x.stage.Locked? ==> !KeyLocked(s.txns, x'.refundHash);
      }
    }
  }

  lemma InsertKeepsLocks(s: State, r: Row)
    requires LockInv(s)
    ensures LockInv(Step(s, Insert(r)))
  {
    var s' := Step(s, Insert(r));
    if s' != s {
      forall u | 0 <= u < |s.txns|
        ensures TxnHolds(s'.rows, s.txns[u])
      {
        assert TxnHolds(s.rows, s.txns[u]);
        HoldsStays(s.rows, s'.rows, s.txns[u]);
      }
    }
  }

  lemma ReconcileKeepsLocks(s: State, f: Filter, sees: Snapshot)
    requires LockInv(s)
    ensures LockInv(Step(s, Reconcile(f, sees)))
  {
    var rows' := ReconcileRows(f, sees, s.rows);
    forall i | 0 <= i < |s.rows|
      ensures rows'[i].hash == s.rows[i].hash && (rows'[i] == s.rows[i] || rows'[i] == MarkReconciled(s.rows[i]))
    {
      assert rows'[i] == ReconcileRow(f, sees, s.rows[i], i);
    }
    forall u | 0 <= u < |s.txns|
      ensures TxnHolds(rows', s.txns[u])
    {
      assert TxnHolds(s.rows, s.txns[u]);
      HoldsStays(s.rows, rows', s.txns[u]);
    }
  }

  lemma BeginKeepsLocks(s: State, hash: string, refundHash: string, now: int)
    requires LockInv(s)
    ensures LockInv(Step(s, Begin(hash, refundHash, now)))
  {
  }

  lemma LoseKeepsLocks(s: State, t: nat)
    requires LockInv(s)
    ensures LockInv(Step(s, Lose(t)))
  {
  }

  lemma StepKeepsLocks(s: State, a: Action)
    requires LockInv(s)
    ensures LockInv(Step(s, a))
  {
    match a
    case Begin(hash, refundHash, now) => BeginKeepsLocks(s, hash, refundHash, now);
    case Advance(t) =>
      if t < |s.txns| {
        if s.txns[t].stage.Updated? {
          CommitKeepsLocks(s, t);
        } else {
          StatementKeepsLocks(s, t);
        }
      }
    case Lose(t) => LoseKeepsLocks(s, t);
    case Insert(r) => InsertKeepsLocks(s, r);
    case Reconcile(f, sees) => ReconcileKeepsLocks(s, f, sees);
  }

  lemma {:induction false} RunKeepsLocks(actions: seq<Action>)
    ensures LockInv(Run(actions))
  {
    if actions != [] {
      RunKeepsLocks(actions[..|actions| - 1]);
      StepKeepsLocks(Run(actions[..|actions| - 1]), actions[|actions| - 1]);
    }
  }

  // ---------------------------------------------------------------- serial meaning

  /** The events one after another, each alone. */
  function Replay(log: seq<Event>): seq<Row> {
    if log == [] then []
    else
      var rows := Replay(log[..|log| - 1]);
      match log[|log| - 1]
      case Refunding(hash, refundHash, now) => ProcessRefund(rows, hash, refundHash, now).0
      case Recording(r) => if r.reconciled || Record(rows, r).None? then rows else Record(rows, r).value
      case Reconciling(f, sees) => ReconcileRows(f, sees, rows)
  }

  lemma ReplayNext(log: seq<Event>, e: Event)
    ensures (log + [e])[..|log|] == log && (log + [e])[|log|] == e
  {
  }

  /** A commit is what processRefund, alone on the table of that moment, would have done, and it succeeds. */
  lemma CommitIsSerial(s: State, t: nat)
    requires LockInv(s) && t < |s.txns| && s.txns[t].stage.Updated?
    ensures var x := s.txns[t];
            var (rows', outcome) := ProcessRefund(s.rows, x.hash, x.refundHash, x.now);
            AdvanceTxn(s, t).rows == rows' && outcome.Done?
  {
    var x := s.txns[t];
    assert TxnHolds(s.rows, x);
    SameHashSameRow(s.rows, x.stage.at, Find(s.rows, x.hash).value);
  }

  /** The refund hash was recorded by someone else after this transaction had looked. */
  predicate Overtaken(rows: seq<Row>, t: Txn) {
    !t.stage.Begun? && Find(rows, t.refundHash).Some?
  }

  /**
   A rejection is the one processRefund, alone at that moment, would give, exactly unless the
   transaction was overtaken; either way a lone run would have changed nothing.
   */
  lemma RejectionIsSerialIffNotOvertaken(s: State, t: nat)
    requires LockInv(s) && t < |s.txns| && Unfinished(s.txns[t]) && !Waits(s.rows, s.txns, s.txns[t])
    requires NextStage(s.rows, s.txns[t]).RolledBack?
    ensures var x := s.txns[t];
            var error := NextStage(s.rows, x).error;
            var (rows', outcome) := ProcessRefund(s.rows, x.hash, x.refundHash, x.now);
            && rows' == s.rows && error.Some?
            && (outcome == Rejected(error.value) <==> !Overtaken(s.rows, x))
  {
    assert TxnHolds(s.rows, s.txns[t]);
  }

  lemma CommitIsReplayed(s: State, t: nat)
    requires LockInv(s) && s.rows == Replay(s.log) && t < |s.txns| && s.txns[t].stage.Updated?
    ensures AdvanceTxn(s, t).rows == Replay(AdvanceTxn(s, t).log)
  {
    var x := s.txns[t];
    assert TxnHolds(s.rows, x);
    CommitIsSerial(s, t);
    hide LockInv, TxnHolds, ProcessRefund, ApplyRefund;
    ReplayNext(s.log, Refunding(x.hash, x.refundHash, x.now));
  }

  lemma InsertIsReplayed(s: State, r: Row)
    requires s.rows == Replay(s.log)
    ensures Step(s, Insert(r)).rows == Replay(Step(s, Insert(r)).log)
  {
    hide Find, KeyLocked;
    ReplayNext(s.log, Recording(r));
  }

  lemma ReconcileIsReplayed(s: State, f: Filter, sees: Snapshot)
    requires s.rows == Replay(s.log)
    ensures Step(s, Reconcile(f, sees)).rows == Replay(Step(s, Reconcile(f, sees)).log)
  {
    hide ReconcileWaits, ReconcileRows, ReceiptOf;
    ReplayNext(s.log, Reconciling(f, sees));
  }

  lemma StepIsSerial(s: State, a: Action)
    requires LockInv(s) && s.rows == Replay(s.log)
    ensures Step(s, a).rows == Replay(Step(s, a).log)
  {
    hide LockInv, Replay;
    match a
    case Advance(t) =>
      if t < |s.txns| && s.txns[t].stage.Updated? {
        CommitIsReplayed(s, t);
      }
    case Insert(r) => InsertIsReplayed(s, r);
    case Reconcile(f, sees) => ReconcileIsReplayed(s, f, sees);
    case _ =>
  }

  /** Serializability: over every run the table is what its committed events give one after another. */
  lemma {:induction false} RunIsSerial(actions: seq<Action>)
    ensures Run(actions).rows == Replay(Run(actions).log)
  {
    if actions != [] {
      RunIsSerial(actions[..|actions| - 1]);
      RunKeepsLocks(actions[..|actions| - 1]);
      StepIsSerial(Run(actions[..|actions| - 1]), actions[|actions| - 1]);
    }
  }

  // ---------------------------------------------------------------- clean over every run

  /** Every recording in the run is a plain one. */
  predicate PlainRun(actions: seq<Action>) {
    forall k :: 0 <= k < |actions| && actions[k].Insert? ==> Plain(actions[k].r)
  }

  lemma StepKeepsClean(s: State, a: Action)
    requires LockInv(s) && Clean(s.rows) && (a.Insert? ==> Plain(a.r))
    ensures Clean(Step(s, a).rows)
  {
    match a
    case Advance(t) =>
      if t < |s.txns| && s.txns[t].stage.Updated? {
        assert TxnHolds(s.rows, s.txns[t]);
        RefundKeepsClean(s.rows, s.txns[t].stage.at, s.txns[t].refundHash, s.txns[t].now);
      }
    case Insert(r) =>
      if Find(s.rows, r.hash).None? {
        RecordKeepsCleanIff(s.rows, r);
      }
    case Reconcile(f, sees) => ReconcileKeepsClean(f, sees, s.rows);
    case _ =>
  }

  /**
   Over every interleaving of recordings, refunds and reconciliations a transaction is refunded
   exactly when exactly one refund row references it, and no refund is itself refunded.
   */
  lemma {:induction false} RunIsClean(actions: seq<Action>)
    requires PlainRun(actions)
    ensures Clean(Run(actions).rows)
  {
    if actions != [] {
      var n := |actions| - 1;
      assert forall k :: 0 <= k < n ==> actions[..n][k] == actions[k];
      RunIsClean(actions[..n]);
      RunKeepsLocks(actions[..n]);
      StepKeepsClean(Run(actions[..n]), actions[n]);
    }
  }

  // ---------------------------------------------------------------- each transaction is counted once

  function ReceiptSum(receipts: seq<Receipt>): int {
    if receipts == [] then 0 else ReceiptSum(receipts[..|receipts| - 1]) + receipts[|receipts| - 1].total
  }

  predicate Counted(receipts: seq<Receipt>, i: nat) {
    exists k :: 0 <= k < |receipts| && i in receipts[k].marked
  }

  /** A row is on a receipt exactly when it is reconciled, and on no two. */
  ghost predicate ReceiptInv(rows: seq<Row>, receipts: seq<Receipt>) {
    && (forall k, i :: 0 <= k < |receipts| && i in receipts[k].marked ==> i < |rows|)
    && (forall i :: 0 <= i < |rows| ==> (rows[i].reconciled <==> Counted(receipts, i)))
    && (forall k, l :: 0 <= k < l < |receipts| ==> receipts[k].marked !! receipts[l].marked)
    && ReceiptSum(receipts) == ReconciledTotal(rows)
  }

  /** A refund paid back and marked changes no row's reconciliation. */
  lemma RefundKeepsReceipts(rows: seq<Row>, receipts: seq<Receipt>, at: nat, refundHash: string, now: int)
    requires ReceiptInv(rows, receipts) && at < |rows| && Objection(rows[at]).None?
    ensures ReceiptInv(ApplyRefund(rows, at, refundHash, now), receipts)
  {
    RefundKeepsSums("", rows, at, refundHash, now);
    var rows' := ApplyRefund(rows, at, refundHash, now);
    assert forall i :: 0 <= i < |rows| ==> rows'[i].reconciled == rows[i].reconciled;
    NotCounted(rows, receipts, |rows|);
  }

  lemma NotCounted(rows: seq<Row>, receipts: seq<Receipt>, i: nat)
    requires ReceiptInv(rows, receipts) && i >= |rows|
    ensures !Counted(receipts, i)
  {
  }

  lemma RecordKeepsReceipts(rows: seq<Row>, receipts: seq<Receipt>, r: Row)
    requires ReceiptInv(rows, receipts) && !r.reconciled
    ensures ReceiptInv(rows + [r], receipts)
  {
    NotCounted(rows, receipts, |rows|);
    assert (rows + [r])[..|rows|] == rows;
  }

  lemma CountedNext(receipts: seq<Receipt>, r: Receipt, i: nat)
    ensures Counted(receipts + [r], i) <==> Counted(receipts, i) || i in r.marked
  {
    var all := receipts + [r];
    if Counted(receipts, i) {
      var k :| 0 <= k < |receipts| && i in receipts[k].marked;
      assert i in all[k].marked;
    }
    if i in r.marked {
      assert i in all[|receipts|].marked;
    }
  }

  lemma ReconcileKeepsReceipts(rows: seq<Row>, receipts: seq<Receipt>, f: Filter, sees: Snapshot)
    requires ReceiptInv(rows, receipts)
    ensures ReceiptInv(ReconcileRows(f, sees, rows), receipts + [ReceiptOf(f, sees, rows, |rows|)])
  {
    var r := ReceiptOf(f, sees, rows, |rows|);
    var rows' := ReconcileRows(f, sees, rows);
    ReceiptIsTheDifference(f, sees, rows);
    forall i | 0 <= i < |rows|
      ensures rows'[i].reconciled <==> Counted(receipts + [r], i)
    {
      assert rows'[i] == ReconcileRow(f, sees, rows[i], i);
      CountedNext(receipts, r, i);
    }
    forall k | 0 <= k < |receipts|
      ensures receipts[k].marked !! r.marked
    {
      forall i | i in receipts[k].marked
        ensures i !in r.marked
      {
        assert Counted(receipts, i);
      }
    }
    assert (receipts + [r])[..|receipts|] == receipts;
  }

  lemma StepKeepsReceipts(s: State, a: Action)
    requires LockInv(s) && ReceiptInv(s.rows, s.receipts)
    ensures ReceiptInv(Step(s, a).rows, Step(s, a).receipts)
  {
    hide ReceiptInv, ReconcileWaits, ReconcileRows, ReceiptOf, Find, ApplyRefund;
    match a
    case Advance(t) =>
      if t < |s.txns| && s.txns[t].stage.Updated? {
        assert TxnHolds(s.rows, s.txns[t]);
        RefundKeepsReceipts(s.rows, s.receipts, s.txns[t].stage.at, s.txns[t].refundHash, s.txns[t].now);
      }
    case Insert(r) =>
      if !r.reconciled {
        RecordKeepsReceipts(s.rows, s.receipts, r);
      }
    case Reconcile(f, sees) => ReconcileKeepsReceipts(s.rows, s.receipts, f, sees);
    case _ =>
  }

  /**
   Conservation: over every run each transaction is counted by at most one reconcile call, and
   the totals those calls returned add up to the sum of the reconciled amounts.
   */
  lemma {:induction false} EachIsCountedOnce(actions: seq<Action>)
    ensures ReceiptInv(Run(actions).rows, Run(actions).receipts)
  {
    if actions != [] {
      EachIsCountedOnce(actions[..|actions| - 1]);
      RunKeepsLocks(actions[..|actions| - 1]);
      StepKeepsReceipts(Run(actions[..|actions| - 1]), actions[|actions| - 1]);
    }
  }

  // ---------------------------------------------------------------- status and timestamp

  /** The status 'reconciled' comes with the timestamp, and a row with the timestamp is no longer 'completed'. */
  predicate Stamped(r: Row) {
    (r.status == Reconciled ==> r.reconciled) && (r.reconciled ==> r.status != Completed)
  }

  predicate AllStamped(rows: seq<Row>) {
    forall i :: 0 <= i < |rows| ==> Stamped(rows[i])
  }

  lemma StepKeepsStamps(s: State, a: Action)
    requires LockInv(s) && AllStamped(s.rows) && (a.Insert? ==> a.r.status != Reconciled)
    ensures AllStamped(Step(s, a).rows)
  {
    if a.Reconcile? {
      forall i | 0 <= i < |s.rows|
        ensures Stamped(ReconcileRow(a.f, a.sees, s.rows[i], i))
      {
      }
    }
  }

  /** Over every run, unless a recording says 'reconciled' itself, status and timestamp agree. */
  lemma {:induction false} RunKeepsStamps(actions: seq<Action>)
    requires forall k :: 0 <= k < |actions| && actions[k].Insert? ==> actions[k].r.status != Reconciled
    ensures AllStamped(Run(actions).rows)
  {
    if actions != [] {
      var n := |actions| - 1;
      assert forall k :: 0 <= k < n ==> actions[..n][k] == actions[k];
      RunKeepsStamps(actions[..n]);
      RunKeepsLocks(actions[..n]);
      StepKeepsStamps(Run(actions[..n]), actions[n]);
    }
  }

  // ---------------------------------------------------------------- refunds net to zero

  lemma StepKeepsNet(s: State, a: Action, w: string)
    requires LockInv(s) && (a.Insert? ==> Plain(a.r))
    ensures PairedNet(w, Step(s, a).rows) == PairedNet(w, s.rows)
  {
    match a
    case Advance(t) =>
      if t < |s.txns| && s.txns[t].stage.Updated? {
        assert TxnHolds(s.rows, s.txns[t]);
        RefundKeepsSums(w, s.rows, s.txns[t].stage.at, s.txns[t].refundHash, s.txns[t].now);
      }
    case Insert(r) => assert (s.rows + [r])[..|s.rows|] == s.rows;
    case Reconcile(f, sees) => ReconcileKeepsNet(w, f, sees, s.rows);
    case _ =>
  }

  /** Over every run all refunded transactions and refunds together leave every wallet where it was. */
  lemma {:induction false} RefundsNetToZero(actions: seq<Action>, w: string)
    requires PlainRun(actions)
    ensures PairedNet(w, Run(actions).rows) == 0
  {
    if actions != [] {
      var n := |actions| - 1;
      assert forall k :: 0 <= k < n ==> actions[..n][k] == actions[k];
      RefundsNetToZero(actions[..n], w);
      RunKeepsLocks(actions[..n]);
      StepKeepsNet(Run(actions[..n]), actions[n], w);
    }
  }

  // ---------------------------------------------------------------- waiting and being lost

  /** Transaction t has locked row `at`. */
  predicate HoldsAt(txns: seq<Txn>, t: nat, at: nat) {
    t < |txns| && txns[t].stage in {Locked(at), Inserted(at), Updated(at)}
  }

  /** Row i answers to the filter, is not reconciled, and is in the statement's snapshot. */
  predicate Wanted(s: State, f: Filter, sees: Snapshot, i: nat) {
    i < |s.rows| && sees(i) && Matches(f, s.rows[i]) && !s.rows[i].reconciled
  }

  ghost predicate NobodyHolds(txns: seq<Txn>, at: nat) {
    forall t: nat :: !HoldsAt(txns, t, at)
  }

  lemma NobodyHoldsIff(txns: seq<Txn>, at: nat)
    ensures NobodyHolds(txns, at) <==> !RowLocked(txns, at)
  {
    if RowLocked(txns, at) {
      var t :| 0 <= t < |txns| && HoldsRow(txns[t]) && txns[t].stage.at == at;
      assert HoldsAt(txns, t, at);
    }
  }

  /** A reconciliation goes through exactly when nobody holds a row it wants, and gives its receipt then. */
  lemma ReconcilesIff(s: State, f: Filter, sees: Snapshot)
    ensures |Step(s, Reconcile(f, sees)).receipts| == |s.receipts| + 1 <==>
            forall i: nat :: Wanted(s, f, sees, i) ==> NobodyHolds(s.txns, i)
    ensures |Step(s, Reconcile(f, sees)).receipts| == |s.receipts| ==> Step(s, Reconcile(f, sees)) == s
  {
    hide Matches, RowLocked, NobodyHolds, ReconcileRows, ReceiptOf;
    forall i: nat
      ensures NobodyHolds(s.txns, i) <==> !RowLocked(s.txns, i)
    {
      NobodyHoldsIff(s.txns, i);
    }
    if ReconcileWaits(s, f, sees) {
      var i: nat :| i < |s.rows| && WantsLocked(s, f, sees, i);
      assert Wanted(s, f, sees, i);
    } else {
      forall i: nat | Wanted(s, f, sees, i)
        ensures NobodyHolds(s.txns, i)
      {
        assert !WantsLocked(s, f, sees, i);
      }
    }
  }

  /** A transaction that is lost changes no row, lets go of all it had locked, and never moves again. */
  lemma LostHoldsNothing(s: State, t: nat)
    requires t < |s.txns| && Unfinished(s.txns[t])
    ensures var s' := Step(s, Lose(t));
            && s'.rows == s.rows && s'.log == s.log && |s'.txns| == |s.txns|
            && (forall at :: !HoldsAt(s'.txns, t, at)) && !HoldsKey(s'.txns[t])
            && (forall u :: 0 <= u < |s.txns| && u != t ==> s'.txns[u] == s.txns[u])
            && Step(s', Advance(t)) == s' && s'.txns[t].stage == RolledBack(None)
  {
  }

  // ---------------------------------------------------------------- no deadlock

  predicate Enabled(s: State, t: nat)
    requires t < |s.txns|
  {
    Unfinished(s.txns[t]) && !Waits(s.rows, s.txns, s.txns[t])
  }

  predicate SomeoneIsEnabled(s: State) {
    exists t :: 0 <= t < |s.txns| && Enabled(s, t)
  }

  lemma KeyHolderIsEnabled(s: State, hash: string)
    requires KeyLocked(s.txns, hash)
    ensures SomeoneIsEnabled(s)
  {
    var t :| 0 <= t < |s.txns| && HoldsKey(s.txns[t]) && s.txns[t].refundHash == hash;
    assert Enabled(s, t);
  }

  /** The original's row is locked before the refund's hash, so whoever waits, someone can go on. */
  lemma NeverStuck(s: State, t: nat)
    requires t < |s.txns| && Unfinished(s.txns[t])
    ensures SomeoneIsEnabled(s)
  {
    if Enabled(s, t) {
    } else if s.txns[t].stage.Locked? {
      KeyHolderIsEnabled(s, s.txns[t].refundHash);
    } else {
      var at := Find(s.rows, s.txns[t].hash).value;
      var u :| 0 <= u < |s.txns| && HoldsRow(s.txns[u]) && s.txns[u].stage.at == at;
      if !Enabled(s, u) {
        KeyHolderIsEnabled(s, s.txns[u].refundHash);
      }
    }
  }
}
