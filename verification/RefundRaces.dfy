/**
 A refund whose statements nobody disturbs is processRefund. Two refunds of different transactions
 that race with one refund hash: both have looked, the first commits, and the second is refused by
 the unique hash, with an error that a lone call never gives.
 */
module RefundRaces {
  import opened Options
  import opened Transactions
  import opened RefundRuns

  // ---------------------------------------------------------------- one refund alone

  function One(s: State, x: Txn, stage: Stage): State {
    s.(txns := [x.(stage := stage)])
  }

  function Advanced(s: State, n: nat): State
    decreases n
  {
    if n == 0 then s else Advanced(Step(s, Advance(0)), n - 1)
  }

  /** How a transaction ends whose caller gets this answer. */
  function Ending(outcome: Outcome): Stage {
    match outcome
    case Done(_, _) => Committed
    case Rejected(error) => RolledBack(Some(error))
  }

  lemma OneMoves(s: State, x: Txn, a: Stage)
    requires a.Begun? || a.Checked? || a.Locked? || a.Inserted?
    ensures Step(One(s, x, a), Advance(0)) == One(s, x, NextStage(s.rows, x.(stage := a)))
  {
    hide Find, NextStage;
    assert forall at :: !RowLocked([x.(stage := Checked)], at);
    assert !KeyLocked([x.(stage := a)], x.refundHash) || a.Inserted?;
  }

  lemma OneCommits(s: State, x: Txn, at: nat)
    requires at < |s.rows|
    ensures Step(One(s, x, Updated(at)), Advance(0)) ==
            State(ApplyRefund(s.rows, at, x.refundHash, x.now), [x.(stage := Committed)], s.receipts,
                  s.log + [Refunding(x.hash, x.refundHash, x.now)])
  {
  }

  lemma {:induction false} OneStays(s: State, n: nat)
    requires |s.txns| == 1 && !Unfinished(s.txns[0])
    ensures Advanced(s, n) == s
  {
    if n > 0 {
      OneStays(s, n - 1);
    }
  }

  lemma OneRefunds(s: State, x: Txn, at: nat, n: nat)
    requires at < |s.rows| && Find(s.rows, x.refundHash).None? && n >= 3
    ensures Advanced(One(s, x, Locked(at)), n) ==
            State(ApplyRefund(s.rows, at, x.refundHash, x.now), [x.(stage := Committed)], s.receipts,
                  s.log + [Refunding(x.hash, x.refundHash, x.now)])
  {
    OneMoves(s, x, Locked(at));
    OneMoves(s, x, Inserted(at));
    OneCommits(s, x, at);
    hide Step, ApplyRefund;
    OneStays(Step(One(s, x, Updated(at)), Advance(0)), n - 3);
    assert Advanced(One(s, x, Inserted(at)), n - 1) == Advanced(One(s, x, Updated(at)), n - 2);
  }

  /** The five statements of a refund, undisturbed, leave the table and give the answer that processRefund does. */
  lemma AloneIsProcessRefund(s: State, x: Txn)
    ensures var s' := Advanced(One(s, x, Begun), 5);
            var (rows', outcome) := ProcessRefund(s.rows, x.hash, x.refundHash, x.now);
            && s'.rows == rows' && s'.txns == [x.(stage := Ending(outcome))]
            && s'.log == s.log + if outcome.Done? then [Refunding(x.hash, x.refundHash, x.now)] else []
  {
    hide Step, ApplyRefund, Advanced, Find;
    OneMoves(s, x, Begun);
    OneMoves(s, x, Checked);
    AdvancedOnce(One(s, x, Begun), 5);
    AdvancedOnce(One(s, x, Checked), 4);
    var found := NextStage(s.rows, x.(stage := Checked));
    if Find(s.rows, x.refundHash).Some? {
      OneStays(One(s, x, RolledBack(Some(DuplicateTransaction))), 4);
    } else if found.RolledBack? {
      OneStays(One(s, x, found), 3);
    } else {
      OneRefunds(s, x, found.at, 3);
    }
  }

  lemma AdvancedOnce(s: State, n: nat)
    requires n > 0
    ensures Advanced(s, n) == Advanced(Step(s, Advance(0)), n - 1)
  {
  }

  // ---------------------------------------------------------------- two that race

  /** Two transactions, at these stages, and nothing else in progress. */
  function Two(s: State, x: Txn, a: Stage, y: Txn, b: Stage): State {
    s.(txns := [x.(stage := a), y.(stage := b)])
  }

  lemma FirstMoves(s: State, x: Txn, a: Stage, y: Txn, b: Stage)
    requires Unfinished(x.(stage := a)) && !a.Updated?
    requires !Waits(s.rows, Two(s, x, a, y, b).txns, x.(stage := a))
    ensures Step(Two(s, x, a, y, b), Advance(0)) == Two(s, x, NextStage(s.rows, x.(stage := a)), y, b)
  {
    hide Find, NextStage, Waits;
  }

  lemma SecondMoves(s: State, x: Txn, a: Stage, y: Txn, b: Stage)
    requires Unfinished(y.(stage := b)) && !b.Updated?
    requires !Waits(s.rows, Two(s, x, a, y, b).txns, y.(stage := b))
    ensures Step(Two(s, x, a, y, b), Advance(1)) == Two(s, x, a, y, NextStage(s.rows, y.(stage := b)))
  {
    hide Find, NextStage, Waits;
  }

  /** Rows i and j can be refunded, no row has the refund hash, and x and y are to refund them with it. */
  predicate Racing(rows: seq<Row>, x: Txn, i: nat, y: Txn, j: nat) {
    && i < |rows| && j < |rows| && i != j
    && Find(rows, x.hash) == Some(i) && Find(rows, y.hash) == Some(j)
    && Objection(rows[i]).None? && Objection(rows[j]).None?
    && x.refundHash == y.refundHash && Find(rows, x.refundHash).None?
  }

  lemma FirstIsLocked(s: State, x: Txn, i: nat, y: Txn, j: nat)
    requires Racing(s.rows, x, i, y, j)
    ensures Step(Step(Two(s, x, Begun, y, Begun), Advance(0)), Advance(0)) == Two(s, x, Locked(i), y, Begun)
  {
    hide Find;
    FirstMoves(s, x, Begun, y, Begun);
    FirstMoves(s, x, Checked, y, Begun);
    hide Step;
  }

  lemma SecondIsLocked(s: State, x: Txn, i: nat, y: Txn, j: nat)
    requires Racing(s.rows, x, i, y, j)
    ensures Step(Step(Two(s, x, Locked(i), y, Begun), Advance(1)), Advance(1)) == Two(s, x, Locked(i), y, Locked(j))
  {
    hide Find;
    SecondMoves(s, x, Locked(i), y, Begun);
    SecondMoves(s, x, Locked(i), y, Checked);
    hide Step;
  }

  lemma FirstIsUpdated(s: State, x: Txn, i: nat, y: Txn, j: nat)
    requires Racing(s.rows, x, i, y, j)
    ensures Step(Step(Two(s, x, Locked(i), y, Locked(j)), Advance(0)), Advance(0)) ==
            Two(s, x, Updated(i), y, Locked(j))
  {
    hide Find;
    FirstMoves(s, x, Locked(i), y, Locked(j));
    FirstMoves(s, x, Inserted(i), y, Locked(j));
    hide Step;
  }

  /** The table after the first refund has committed. */
  function AfterFirst(s: State, x: Txn, i: nat): State
    requires i < |s.rows|
  {
    State(ApplyRefund(s.rows, i, x.refundHash, x.now), s.txns, s.receipts,
          s.log + [Refunding(x.hash, x.refundHash, x.now)])
  }

  lemma FirstCommits(s: State, x: Txn, i: nat, y: Txn, j: nat)
    requires i < |s.rows|
    ensures Step(Two(s, x, Updated(i), y, Locked(j)), Advance(0)) ==
            Two(AfterFirst(s, x, i), x, Committed, y, Locked(j))
  {
    hide ApplyRefund, Find;
  }

  lemma RefundHashIsTaken(rows: seq<Row>, at: nat, refundHash: string, now: int)
    requires at < |rows|
    ensures Find(ApplyRefund(rows, at, refundHash, now), refundHash).Some?
  {
    assert ApplyRefund(rows, at, refundHash, now)[|rows|].hash == refundHash;
  }

  /** The second has been overtaken: its insert meets the unique hash, where a lone call would report a duplicate. */
  lemma SecondIsRefused(s: State, x: Txn, i: nat, y: Txn, j: nat)
    requires i < |s.rows| && x.refundHash == y.refundHash
    ensures var s' := AfterFirst(s, x, i);
            && Overtaken(s'.rows, y.(stage := Locked(j)))
            && Step(Two(s', x, Committed, y, Locked(j)), Advance(1)) ==
               Two(s', x, Committed, y, RolledBack(Some(UniqueViolation)))
            && ProcessRefund(s'.rows, y.hash, y.refundHash, y.now).1 == Rejected(DuplicateTransaction)
  {
    var s' := AfterFirst(s, x, i);
    RefundHashIsTaken(s.rows, i, x.refundHash, x.now);
    hide ApplyRefund, Find;
    assert !KeyLocked(Two(s', x, Committed, y, Locked(j)).txns, y.refundHash);
    SecondMoves(s', x, Committed, y, Locked(j));
  }

  /** Both look and lock, then the first goes on to its commit, then the second. */
  const RACE: seq<Action> := [
    Advance(0), Advance(0), Advance(1), Advance(1), Advance(0), Advance(0), Advance(0), Advance(1)
  ]

  lemma {:induction false} RunJoin(s: State, first: seq<Action>, second: seq<Action>)
    ensures RunFrom(s, first + second) == RunFrom(RunFrom(s, first), second)
  {
    hide Step;
    if second == [] {
      assert first + second == first;
    } else {
      var n := |second| - 1;
      assert (first + second)[..|first| + n] == first + second[..n];
      RunJoin(s, first, second[..n]);
    }
  }

  lemma RunTwo(s: State, a: Action, b: Action)
    ensures RunFrom(s, [a, b]) == Step(Step(s, a), b)
  {
    hide Step;
    assert [a, b][..1] == [a] && [a][..0] == [];
    assert RunFrom(s, [a]) == Step(s, a);
  }

  lemma RunRace(s: State)
    ensures RunFrom(s, RACE) ==
            Step(Step(Step(Step(Step(Step(Step(Step(s, Advance(0)), Advance(0)), Advance(1)), Advance(1)),
                                Advance(0)), Advance(0)), Advance(0)), Advance(1))
  {
    hide Step, RunFrom;
    var (zero, one, last) := ([Advance(0), Advance(0)], [Advance(1), Advance(1)], [Advance(0), Advance(1)]);
    assert RACE == zero + one + zero + last;
    RunJoin(s, zero + one + zero, last);
    RunJoin(s, zero + one, zero);
    RunJoin(s, zero, one);
    RunTwo(s, Advance(0), Advance(0));
    RunTwo(RunFrom(s, zero), Advance(1), Advance(1));
    RunTwo(RunFrom(RunFrom(s, zero), one), Advance(0), Advance(0));
    RunTwo(RunFrom(RunFrom(RunFrom(s, zero), one), zero), Advance(0), Advance(1));
  }

  /**
   Two refunds with one refund hash, both past their look-up: the first commits, and the
   second, overtaken, ends with the unique hash's error where a lone call would have been
   told of a duplicate.
   */
  lemma RacingRefunds(s: State, x: Txn, i: nat, y: Txn, j: nat)
    requires Racing(s.rows, x, i, y, j)
    ensures RunFrom(Two(s, x, Begun, y, Begun), RACE) ==
            Two(AfterFirst(s, x, i), x, Committed, y, RolledBack(Some(UniqueViolation)))
    ensures Overtaken(AfterFirst(s, x, i).rows, y.(stage := Locked(j)))
    ensures ProcessRefund(AfterFirst(s, x, i).rows, y.hash, y.refundHash, y.now).1 == Rejected(DuplicateTransaction)
  {
    FirstIsLocked(s, x, i, y, j);
    SecondIsLocked(s, x, i, y, j);
    FirstIsUpdated(s, x, i, y, j);
    FirstCommits(s, x, i, y, j);
    SecondIsRefused(s, x, i, y, j);
    RunRace(Two(s, x, Begun, y, Begun));
    hide Step, RunFrom, AfterFirst, Two, Overtaken, ProcessRefund;
  }

  // ---------------------------------------------------------------- such a race

  /** Two recordings, then two refunds begin. */
  function Setting(r0: Row, r1: Row, refundHash: string, now: int): seq<Action> {
    [Insert(r0), Insert(r1)] + [Begin(r0.hash, refundHash, now), Begin(r1.hash, refundHash, now)]
  }

  function Recorded(r0: Row, r1: Row): State {
    State([r0, r1], [], [], [Recording(r0), Recording(r1)])
  }

  lemma TwoRecordings(r0: Row, r1: Row)
    requires !r0.reconciled && !r1.reconciled && r0.hash != r1.hash
    ensures RunFrom(EMPTY, [Insert(r0), Insert(r1)]) == Recorded(r0, r1)
  {
    RunTwo(EMPTY, Insert(r0), Insert(r1));
    var s1 := State([r0], [], [], [Recording(r0)]);
    assert Find([], r0.hash).None? && Find([r0], r1.hash).None?;
    hide Find, RunFrom;
    assert Step(EMPTY, Insert(r0)) == s1;
    assert Step(s1, Insert(r1)) == Recorded(r0, r1);
  }

  lemma TwoBegin(s: State, x: Txn, y: Txn)
    requires s.txns == [] && x.stage == Begun && y.stage == Begun
    ensures RunFrom(s, [Begin(x.hash, x.refundHash, x.now), Begin(y.hash, y.refundHash, y.now)]) ==
            Two(s, x, Begun, y, Begun)
  {
    RunTwo(s, Begin(x.hash, x.refundHash, x.now), Begin(y.hash, y.refundHash, y.now));
    hide RunFrom;
    assert Step(s, Begin(x.hash, x.refundHash, x.now)) == s.(txns := [x]);
  }

  lemma RecordedRace(r0: Row, r1: Row, refundHash: string, now: int)
    requires Plain(r0) && Plain(r1) && r0.hash != r1.hash && refundHash != r0.hash && refundHash != r1.hash
    ensures Racing([r0, r1], Txn(r0.hash, refundHash, now, Begun), 0, Txn(r1.hash, refundHash, now, Begun), 1)
  {
    var rows := [r0, r1];
    assert rows[0] == r0 && rows[1] == r1;
    assert Find(rows, refundHash).None?;
  }

  /** A whole run from the empty table in which a refund ends with the unique hash's error. */
  lemma UniqueViolationIsReached(r0: Row, r1: Row, refundHash: string, now: int)
    requires Plain(r0) && Plain(r1) && !r0.reconciled && !r1.reconciled
    requires r0.hash != r1.hash && refundHash != r0.hash && refundHash != r1.hash
    ensures var s := Run(Setting(r0, r1, refundHash, now) + RACE);
            && |s.txns| == 2 && s.txns[0].stage == Committed
            && s.txns[1].stage == RolledBack(Some(UniqueViolation))
  {
    var (x, y) := (Txn(r0.hash, refundHash, now, Begun), Txn(r1.hash, refundHash, now, Begun));
    RecordedRace(r0, r1, refundHash, now);
    hide RunFrom, Step, Racing, AfterFirst;
    RunJoin(EMPTY, Setting(r0, r1, refundHash, now), RACE);
    RunJoin(EMPTY, [Insert(r0), Insert(r1)], [Begin(r0.hash, refundHash, now), Begin(r1.hash, refundHash, now)]);
    TwoRecordings(r0, r1);
    TwoBegin(Recorded(r0, r1), x, y);
    RacingRefunds(Recorded(r0, r1), x, 0, y, 1);
  }
}
