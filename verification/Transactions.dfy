/**
 The transactions table as values: recording, refunding and reconciling, each run alone,
 and what they keep. Amounts are in ten-millionths, the table's seven decimals.
 */
module Transactions {
  import opened Options

  datatype Kind = Distribution | Redemption | Transfer | Refund

  datatype Status = Pending | Completed | Failed | Refunded | Reconciled

  datatype Row = Row(
    hash: string,
    kind: Kind,
    amount: int,
    from: Option<string>,
    to: Option<string>,
    status: Status,
    reference: Option<string>,
    reconciled: bool,
    user: Option<int>,
    merchant: Option<int>,
    createdAt: int)

  function Find(rows: seq<Row>, hash: string): (at: Option<nat>)
    ensures at.Some? ==> at.value < |rows| && rows[at.value].hash == hash
    ensures at.None? ==> forall i :: 0 <= i < |rows| ==> rows[i].hash != hash
  {
    if rows == [] then None
    else if rows[0].hash == hash then Some(0)
    else match Find(rows[1..], hash) case Some(i) => Some(i + 1) case None => None
  }

  /** UNIQUE (tx_hash). */
  predicate UniqueHashes(rows: seq<Row>) {
    forall i, j :: 0 <= i < j < |rows| ==> rows[i].hash != rows[j].hash
  }

  // ---------------------------------------------------------------- recordTransaction

  /** recordTransaction takes any type, status and reference; reconciled_at is always NULL. */
  function Record(rows: seq<Row>, r: Row): (result: Option<seq<Row>>)
    requires !r.reconciled
  {
    if Find(rows, r.hash).Some? then None else Some(rows + [r])
  }

  // ---------------------------------------------------------------- processRefund

  datatype Error = DuplicateTransaction | NotFound | InvalidRefundTarget | AlreadyRefunded | UniqueViolation

  datatype Outcome = Done(original: Row, refund: Row) | Rejected(error: Error)

  function MarkRefunded(r: Row): Row {
    r.(status := Refunded)
  }

  /** The refund of `r`: the same amount back the other way. */
  function RefundOf(r: Row, refundHash: string, now: int): Row {
    Row(refundHash, Refund, r.amount, r.to, r.from, Completed, Some(r.hash), false, r.user, r.merchant, now)
  }

  /** Why row r, if there is one, cannot be refunded. */
  function Objection(r: Row): Option<Error> {
    if r.kind == Refund then Some(InvalidRefundTarget)
    else if r.status == Refunded then Some(AlreadyRefunded)
    else None
  }

  function ApplyRefund(rows: seq<Row>, at: nat, refundHash: string, now: int): seq<Row>
    requires at < |rows|
  {
    rows[at := MarkRefunded(rows[at])] + [RefundOf(rows[at], refundHash, now)]
  }

  function ProcessRefund(rows: seq<Row>, hash: string, refundHash: string, now: int): (seq<Row>, Outcome) {
    if Find(rows, refundHash).Some? then (rows, Rejected(DuplicateTransaction))
    else
      match Find(rows, hash)
      case None => (rows, Rejected(NotFound))
      case Some(at) =>
        match Objection(rows[at])
        case Some(e) => (rows, Rejected(e))
        case None => (ApplyRefund(rows, at, refundHash, now),
                      Done(MarkRefunded(rows[at]), RefundOf(rows[at], refundHash, now)))
  }

  predicate IsAt(rows: seq<Row>, hash: string, i: nat) {
    i < |rows| && rows[i].hash == hash
  }

  /** No transaction has the hash. */
  ghost predicate Absent(rows: seq<Row>, hash: string) {
    forall i: nat :: !IsAt(rows, hash, i)
  }

  lemma FoundAt(rows: seq<Row>, hash: string, i: nat)
    requires UniqueHashes(rows) && IsAt(rows, hash, i)
    ensures Find(rows, hash) == Some(i)
  {
    hide Find, UniqueHashes;
    SameHashSameRow(rows, Find(rows, hash).value, i);
  }

  /**
   Why a refund of the transaction at i is refused: its hash is taken, or it is itself a refund, or it
   has been refunded; and when it is none of these it is made.
   */
  lemma RefundIsRefusedIff(rows: seq<Row>, i: nat, refundHash: string, now: int)
    requires UniqueHashes(rows) && i < |rows|
    ensures var (rows', outcome) := ProcessRefund(rows, rows[i].hash, refundHash, now);
            var free := Absent(rows, refundHash);
            && (outcome == Rejected(DuplicateTransaction) <==> !free)
            && (outcome == Rejected(InvalidRefundTarget) <==> free && rows[i].kind == Refund)
            && (outcome == Rejected(AlreadyRefunded) <==>
                  free && rows[i].kind != Refund && rows[i].status == Refunded)
            && (outcome.Done? <==> free && rows[i].kind != Refund && rows[i].status != Refunded)
            && (outcome.Done? ==> |rows'| == |rows| + 1 && outcome == Done(rows'[i], rows'[|rows|]))
            && (!outcome.Done? ==> rows' == rows)
  {
    FoundAt(rows, rows[i].hash, i);
    AbsentIsNotFound(rows, refundHash);
    hide Find, UniqueHashes, Absent;
  }

  lemma AbsentIsNotFound(rows: seq<Row>, hash: string)
    ensures Absent(rows, hash) <==> Find(rows, hash).None?
  {
    if Find(rows, hash).Some? {
      assert IsAt(rows, hash, Find(rows, hash).value);
    }
  }

  /** A refund of a transaction there is none of is refused as such. */
  lemma MissingIsNotRefunded(rows: seq<Row>, hash: string, refundHash: string, now: int)
    requires Absent(rows, hash)
    ensures ProcessRefund(rows, hash, refundHash, now) ==
            (rows, Rejected(if Absent(rows, refundHash) then NotFound else DuplicateTransaction))
  {
    AbsentIsNotFound(rows, hash);
    AbsentIsNotFound(rows, refundHash);
  }

  // ---------------------------------------------------------------- reconcileTransactions

  /** buildHistoryFilters. */
  datatype Filter = Filter(
    user: Option<int>,
    merchant: Option<int>,
    kind: Option<Kind>,
    status: Option<Status>,
    start: Option<int>,
    end: Option<int>,
    reconciled: Option<bool>)

  predicate Matches(f: Filter, r: Row) {
    && (f.user.Some? ==> r.user == f.user)
    && (f.merchant.Some? ==> r.merchant == f.merchant)
    && (f.kind.Some? ==> r.kind == f.kind.value)
    && (f.status.Some? ==> r.status == f.status.value)
    && (f.start.Some? ==> r.createdAt >= f.start.value)
    && (f.end.Some? ==> r.createdAt <= f.end.value)
    && (f.reconciled.Some? ==> r.reconciled == f.reconciled.value)
  }

  predicate Hit(f: Filter, r: Row) {
    Matches(f, r) && !r.reconciled
  }

  function MarkReconciled(r: Row): Row {
    r.(reconciled := true, status := if r.status == Completed then Reconciled else r.status)
  }

  /** Which rows a statement sees: rows committed after it began are not in its snapshot. */
  type Snapshot = nat -> bool

  const EVERYTHING: Snapshot := _ => true

  function ReconcileRow(f: Filter, sees: Snapshot, r: Row, i: nat): Row {
    if sees(i) && Hit(f, r) then MarkReconciled(r) else r
  }

  function ReconcileRows(f: Filter, sees: Snapshot, rows: seq<Row>): (rows': seq<Row>)
    ensures |rows'| == |rows|
    ensures forall i :: 0 <= i < |rows| ==> rows'[i] == ReconcileRow(f, sees, rows[i], i)
  {
    seq(|rows|, i requires 0 <= i < |rows| => ReconcileRow(f, sees, rows[i], i))
  }

  /** What the call returns: the rows it marked, by index, and their total. */
  datatype Receipt = Receipt(marked: set<nat>, total: int)

  /** The receipt over the first n rows. */
  function ReceiptOf(f: Filter, sees: Snapshot, rows: seq<Row>, n: nat): (r: Receipt)
    requires n <= |rows|
    ensures forall i :: i in r.marked <==> 0 <= i < n && sees(i) && Hit(f, rows[i])
  {
    if n == 0 then Receipt({}, 0)
    else
      var r := ReceiptOf(f, sees, rows, n - 1);
      if sees(n - 1) && Hit(f, rows[n - 1]) then Receipt(r.marked + {n - 1}, r.total + rows[n - 1].amount) else r
  }

  // ---------------------------------------------------------------- clean tables

  /** Money that has moved: completed, and reconciled once a reconciliation has marked it. */
  predicate Settled(r: Row) {
    r.status == if r.reconciled then Reconciled else Completed
  }

  /** Refund row r stands for a refund of row o: the same owner's, paid back at once. */
  predicate RefundFor(o: Row, r: Row) {
    && r.kind == Refund && r.reference == Some(o.hash) && Settled(r)
    && o.kind != Refund && o.status == Refunded
    && r.amount == o.amount && r.from == o.to && r.to == o.from
    && r.user == o.user && r.merchant == o.merchant
  }

  predicate PairAt(rows: seq<Row>, i: nat, j: nat) {
    i < |rows| && j < |rows| && RefundFor(rows[i], rows[j])
  }

  ghost predicate HasRefund(rows: seq<Row>, i: nat) {
    exists j: nat :: PairAt(rows, i, j)
  }

  ghost predicate HasOriginal(rows: seq<Row>, j: nat) {
    exists i: nat :: PairAt(rows, i, j)
  }

  predicate ClaimsOf(rows: seq<Row>, j: nat, hash: string)
    requires j < |rows|
  {
    rows[j].kind == Refund && rows[j].reference == Some(hash)
  }

  /** No two refund rows reference the same transaction. */
  predicate OneRefundEach(rows: seq<Row>) {
    forall j, k :: 0 <= j < k < |rows| && rows[j].kind == Refund && rows[k].kind == Refund ==>
        rows[j].reference != rows[k].reference
  }

  ghost predicate EachRefundedHasRefund(rows: seq<Row>) {
    forall i :: 0 <= i < |rows| && rows[i].status == Refunded ==> HasRefund(rows, i)
  }

  ghost predicate EachRefundHasOriginal(rows: seq<Row>) {
    forall j :: 0 <= j < |rows| && rows[j].kind == Refund ==> HasOriginal(rows, j)
  }

  /** Refunded transactions and refund rows are in one-to-one correspondence, and each pair nets to zero. */
  ghost predicate Clean(rows: seq<Row>) {
    UniqueHashes(rows) && OneRefundEach(rows) && EachRefundedHasRefund(rows) && EachRefundHasOriginal(rows)
  }

  /** What a clean table says of one transaction: it is refunded exactly when exactly one refund row references it. */
  lemma CleanMeans(rows: seq<Row>, i: nat)
    requires Clean(rows) && i < |rows|
    ensures rows[i].status == Refunded <==> exists j :: 0 <= j < |rows| && ClaimsOf(rows, j, rows[i].hash)
    ensures forall j, k ::
              0 <= j < |rows| && 0 <= k < |rows| ==>
                ClaimsOf(rows, j, rows[i].hash) && ClaimsOf(rows, k, rows[i].hash) ==> j == k
    ensures rows[i].kind == Refund ==> rows[i].status != Refunded
  {
    if rows[i].status == Refunded {
      assert HasRefund(rows, i);
      var j: nat :| PairAt(rows, i, j);
      assert ClaimsOf(rows, j, rows[i].hash);
    }
    forall j | 0 <= j < |rows| && ClaimsOf(rows, j, rows[i].hash)
      ensures rows[i].status == Refunded
    {
      assert HasOriginal(rows, j);
      var o: nat :| PairAt(rows, o, j);
      SameHashSameRow(rows, o, i);
    }
    forall j, k | 0 <= j < |rows| && 0 <= k < |rows| && ClaimsOf(rows, j, rows[i].hash) &&
        ClaimsOf(rows, k, rows[i].hash)
      ensures j == k
    {
      SameReferenceSameRow(rows, j, k);
    }
  }

  lemma SameHashSameRow(rows: seq<Row>, i: nat, j: nat)
    requires UniqueHashes(rows) && i < |rows| && j < |rows|
    ensures rows[i].hash == rows[j].hash ==> i == j
  {
  }

  lemma SameReferenceSameRow(rows: seq<Row>, j: nat, k: nat)
    requires OneRefundEach(rows) && j < |rows| && k < |rows| && rows[j].kind == Refund && rows[k].kind == Refund
    ensures rows[j].reference == rows[k].reference ==> j == k
  {
  }

  /** Row r' is row r with at most its status, and never a 'refunded' one, or its reconciliation changed. */
  predicate SameDeal(r: Row, r': Row) {
    && r'.hash == r.hash && r'.kind == r.kind && r'.amount == r.amount && r'.from == r.from && r'.to == r.to
    && r'.reference == r.reference && (r.status == Refunded ==> r'.status == Refunded)
    && r'.user == r.user && r'.merchant == r.merchant && r'.createdAt == r.createdAt
    && (r.kind == Refund && Settled(r) ==> Settled(r'))
  }

  predicate Carries(rows: seq<Row>, rows': seq<Row>) {
    |rows| <= |rows'| && forall k :: 0 <= k < |rows| ==> SameDeal(rows[k], rows'[k])
  }

  lemma HasRefundStays(rows: seq<Row>, rows': seq<Row>, i: nat)
    requires Carries(rows, rows') && i < |rows| && HasRefund(rows, i)
    ensures HasRefund(rows', i)
  {
    var j: nat :| PairAt(rows, i, j);
    assert SameDeal(rows[i], rows'[i]) && SameDeal(rows[j], rows'[j]);
    assert PairAt(rows', i, j);
  }

  lemma HasOriginalStays(rows: seq<Row>, rows': seq<Row>, j: nat)
    requires Carries(rows, rows') && j < |rows| && HasOriginal(rows, j)
    ensures HasOriginal(rows', j)
  {
    var i: nat :| PairAt(rows, i, j);
    assert SameDeal(rows[i], rows'[i]) && SameDeal(rows[j], rows'[j]);
    assert PairAt(rows', i, j);
  }

  /** The old rows' pairs are all there; what is left to show concerns rows newly refunded or added. */
  lemma PairsStay(rows: seq<Row>, rows': seq<Row>)
    requires Carries(rows, rows') && EachRefundedHasRefund(rows) && EachRefundHasOriginal(rows)
    ensures forall i :: 0 <= i < |rows| && rows[i].status == Refunded ==> HasRefund(rows', i)
    ensures forall j :: 0 <= j < |rows| && rows[j].kind == Refund ==> HasOriginal(rows', j)
  {
    forall i | 0 <= i < |rows| && rows[i].status == Refunded
      ensures HasRefund(rows', i)
    {
      HasRefundStays(rows, rows', i);
    }
    forall j | 0 <= j < |rows| && rows[j].kind == Refund
      ensures HasOriginal(rows', j)
    {
      HasOriginalStays(rows, rows', j);
    }
  }

  /** No refund row references a transaction that can still be refunded. */
  lemma NoClaimYet(rows: seq<Row>, at: nat, j: nat)
    requires Clean(rows) && at < |rows| && Objection(rows[at]).None? && j < |rows| && rows[j].kind == Refund
    ensures rows[j].reference != Some(rows[at].hash)
  {
    assert HasOriginal(rows, j);
    var i: nat :| PairAt(rows, i, j);
    SameHashSameRow(rows, i, at);
  }

  /** A refund keeps the table clean. */
  lemma RefundKeepsClean(rows: seq<Row>, at: nat, refundHash: string, now: int)
    requires Clean(rows) && at < |rows| && Objection(rows[at]).None? && Find(rows, refundHash).None?
    ensures Clean(ApplyRefund(rows, at, refundHash, now))
  {
    hide HasRefund, HasOriginal, EachRefundedHasRefund, EachRefundHasOriginal, UniqueHashes, OneRefundEach, Find;
    var (o, r) := (MarkRefunded(rows[at]), RefundOf(rows[at], refundHash, now));
    forall j | 0 <= j < |rows| && rows[j].kind == Refund
      ensures rows[j].reference != r.reference
    {
      NoClaimYet(rows, at, j);
    }
    var rows' := rows[at := o] + [r];
    PairIsPair(rows', at, |rows|);
    RefundedStayBacked(rows, rows', at);
    RefundsStayFounded(rows, rows');
    RefundAddsKeys(rows, at, o, r);
  }

  lemma RefundAddsKeys(rows: seq<Row>, at: nat, o: Row, r: Row)
    requires UniqueHashes(rows) && OneRefundEach(rows) && at < |rows| && SameDeal(rows[at], o)
    requires forall k :: 0 <= k < |rows| ==> rows[k].hash != r.hash
    requires forall j :: 0 <= j < |rows| && rows[j].kind == Refund ==> rows[j].reference != r.reference
    ensures UniqueHashes(rows[at := o] + [r]) && OneRefundEach(rows[at := o] + [r])
  {
    var rows' := rows[at := o] + [r];
    assert forall k :: 0 <= k < |rows| ==> SameDeal(rows[k], rows'[k]) || k == at;
  }

  lemma RefundedStayBacked(rows: seq<Row>, rows': seq<Row>, at: nat)
    requires EachRefundedHasRefund(rows) && at < |rows| && Carries(rows, rows') && |rows'| == |rows| + 1
    requires forall i :: 0 <= i < |rows| && i != at ==> rows'[i].status == rows[i].status
    requires HasRefund(rows', at) && rows'[|rows|].status != Refunded
    ensures EachRefundedHasRefund(rows')
  {
    forall i | 0 <= i < |rows'| && rows'[i].status == Refunded
      ensures HasRefund(rows', i)
    {
      if i != at {
        HasRefundStays(rows, rows', i);
      }
    }
  }

  lemma RefundsStayFounded(rows: seq<Row>, rows': seq<Row>)
    requires EachRefundHasOriginal(rows) && Carries(rows, rows') && |rows'| == |rows| + 1
    requires HasOriginal(rows', |rows|)
    ensures EachRefundHasOriginal(rows')
  {
    forall j | 0 <= j < |rows'| && rows'[j].kind == Refund
      ensures HasOriginal(rows', j)
    {
      if j < |rows| {
        assert SameDeal(rows[j], rows'[j]);
        HasOriginalStays(rows, rows', j);
      }
    }
  }

  lemma PairIsPair(rows: seq<Row>, i: nat, j: nat)
    requires PairAt(rows, i, j)
    ensures HasRefund(rows, i) && HasOriginal(rows, j)
  {
  }

  /** A reconciliation keeps every pair. */
  lemma ReconcileKeepsClean(f: Filter, sees: Snapshot, rows: seq<Row>)
    requires Clean(rows)
    ensures Clean(ReconcileRows(f, sees, rows))
  {
    var rows' := ReconcileRows(f, sees, rows);
    forall i | 0 <= i < |rows|
      ensures SameDeal(rows[i], rows'[i]) && (rows'[i].status == Refunded ==> rows[i].status == Refunded)
    {
      assert rows'[i] == ReconcileRow(f, sees, rows[i], i);
    }
    PairsStay(rows, rows');
  }

  /** What recordTransaction must be given for the table to stay clean. */
  predicate Plain(r: Row) {
    r.kind != Refund && r.status != Refunded
  }

  /**
   recordTransaction takes refund rows and 'refunded' rows too. It keeps the table clean exactly
   when it is given neither.
   */
  lemma RecordKeepsCleanIff(rows: seq<Row>, r: Row)
    requires Clean(rows) && Find(rows, r.hash).None?
    ensures Clean(rows + [r]) <==> Plain(r)
  {
    if Plain(r) {
      PlainKeepsClean(rows, r);
    } else {
      OddRowIsNotClean(rows, r);
    }
  }

  lemma PlainKeepsClean(rows: seq<Row>, r: Row)
    requires Clean(rows) && Find(rows, r.hash).None? && Plain(r)
    ensures Clean(rows + [r])
  {
    hide HasRefund, HasOriginal, UniqueHashes, OneRefundEach, Find;
    var rows' := rows + [r];
    assert forall k :: 0 <= k < |rows| ==> rows'[k] == rows[k];
    PairsStay(rows, rows');
    PlainKeepsKeys(rows, r);
  }

  lemma PlainKeepsKeys(rows: seq<Row>, r: Row)
    requires UniqueHashes(rows) && OneRefundEach(rows) && Find(rows, r.hash).None? && r.kind != Refund
    ensures UniqueHashes(rows + [r]) && OneRefundEach(rows + [r])
  {
    hide Find;
  }

  lemma OddRowIsNotClean(rows: seq<Row>, r: Row)
    requires Clean(rows) && Find(rows, r.hash).None? && !Plain(r)
    ensures !Clean(rows + [r])
  {
    var rows' := rows + [r];
    var n := |rows|;
    forall k | 0 <= k < n && RefundFor(rows'[k], r)
      ensures !OneRefundEach(rows')
    {
      assert HasRefund(rows, k);
      var j: nat :| PairAt(rows, k, j);
      assert rows'[j].reference == rows'[n].reference;
    }
    forall j | 0 <= j < n
      ensures !RefundFor(r, rows'[j])
    {
      if rows[j].kind == Refund {
        assert HasOriginal(rows, j);
      }
    }
    assert rows'[n] == r && !RefundFor(r, r);
    assert r.status == Refunded ==> !HasRefund(rows', n);
    assert r.kind == Refund && HasOriginal(rows', n) ==> !OneRefundEach(rows');
  }

  // ---------------------------------------------------------------- money

  /** What row r moves into wallet w, less what it moves out. */
  function Net(w: string, r: Row): int {
    (if r.to == Some(w) then r.amount else 0) - (if r.from == Some(w) then r.amount else 0)
  }

  predicate InPair(r: Row) {
    r.kind == Refund || r.status == Refunded
  }

  /** The net effect on a wallet of every refunded transaction and every refund. */
  function PairedNet(w: string, rows: seq<Row>): int {
    if rows == [] then 0
    else PairedNet(w, rows[..|rows| - 1]) + if InPair(rows[|rows| - 1]) then Net(w, rows[|rows| - 1]) else 0
  }

  function ReconciledTotal(rows: seq<Row>): int {
    if rows == [] then 0
    else ReconciledTotal(rows[..|rows| - 1]) + if rows[|rows| - 1].reconciled then rows[|rows| - 1].amount else 0
  }

  lemma {:induction false} PairedNetOfMark(w: string, rows: seq<Row>, at: nat)
    requires at < |rows| && !InPair(rows[at])
    ensures PairedNet(w, rows[at := MarkRefunded(rows[at])]) == PairedNet(w, rows) + Net(w, rows[at])
  {
    var n := |rows| - 1;
    var rows' := rows[at := MarkRefunded(rows[at])];
    if at == n {
      assert rows'[..n] == rows[..n];
    } else {
      PairedNetOfMark(w, rows[..n], at);
      assert rows'[..n] == rows[..n][at := MarkRefunded(rows[at])];
    }
  }

  lemma ReconciledTotalOfMark(rows: seq<Row>, at: nat)
    requires at < |rows|
    ensures ReconciledTotal(rows[at := MarkRefunded(rows[at])]) == ReconciledTotal(rows)
  {
    var n := |rows| - 1;
    var rows' := rows[at := MarkRefunded(rows[at])];
    if at == n {
      assert rows'[..n] == rows[..n];
    } else {
      ReconciledTotalOfMark(rows[..n], at);
      assert rows'[..n] == rows[..n][at := MarkRefunded(rows[at])];
    }
  }

  /** A refund leaves every wallet's net over the pairs, and the reconciled total, as they were. */
  lemma RefundKeepsSums(w: string, rows: seq<Row>, at: nat, refundHash: string, now: int)
    requires at < |rows| && Objection(rows[at]).None?
    ensures PairedNet(w, ApplyRefund(rows, at, refundHash, now)) == PairedNet(w, rows)
    ensures ReconciledTotal(ApplyRefund(rows, at, refundHash, now)) == ReconciledTotal(rows)
  {
    var marked := rows[at := MarkRefunded(rows[at])];
    var rows' := ApplyRefund(rows, at, refundHash, now);
    assert rows'[..|rows|] == marked;
    PairedNetOfMark(w, rows, at);
    ReconciledTotalOfMark(rows, at);
  }

  lemma {:induction false} ReconcileKeepsNet(w: string, f: Filter, sees: Snapshot, rows: seq<Row>)
    ensures PairedNet(w, ReconcileRows(f, sees, rows)) == PairedNet(w, rows)
  {
    if rows != [] {
      var n := |rows| - 1;
      ReconcileKeepsNet(w, f, sees, rows[..n]);
      assert ReconcileRows(f, sees, rows)[..n] == ReconcileRows(f, sees, rows[..n]);
    }
  }

  /** What a reconciliation returns as its total is what it adds to the reconciled total. */
  lemma {:induction false} ReceiptIsTheDifference(f: Filter, sees: Snapshot, rows: seq<Row>)
    ensures ReconciledTotal(ReconcileRows(f, sees, rows)) ==
            ReconciledTotal(rows) + ReceiptOf(f, sees, rows, |rows|).total
  {
    if rows != [] {
      var n := |rows| - 1;
      ReceiptIsTheDifference(f, sees, rows[..n]);
      assert ReconcileRows(f, sees, rows)[..n] == ReconcileRows(f, sees, rows[..n]);
      ReceiptOfPrefix(f, sees, rows, rows[..n], n);
    }
  }

  lemma {:induction false} ReceiptOfPrefix(f: Filter, sees: Snapshot, rows: seq<Row>, rows': seq<Row>, n: nat)
    requires n <= |rows'| && rows' <= rows
    ensures ReceiptOf(f, sees, rows, n) == ReceiptOf(f, sees, rows', n)
  {
    if n > 0 {
      ReceiptOfPrefix(f, sees, rows, rows', n - 1);
    }
  }
}
