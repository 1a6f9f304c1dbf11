/**
 A transaction left to run from where it is, the others waiting: what it is told, and what
 becomes of two redemptions that race with one idempotency key.
 */
module PointsRaces {
  import opened Options
  import opened PointsDatabase
  import opened PointsMachine
  import opened PointsRuns

  // ---------------------------------------------------------------- the answer of an overtaken redemption

  /** The answer to a redemption that looks its key up too early: the unique key refuses it at the end. */
  function BlindRedeem(db: Db, req: Request, id: nat): (outcome: Outcome)
    requires req.Redeem?
    ensures outcome.Refused?
  {
    var outcome := Execute(db.(redemptions := []), req, id).1;
    if outcome.Fresh? then Refused(KeyTaken) else outcome
  }

  lemma OvertakenOnBalance(s: State, t: Tid)
    requires Live(s, t) && TxnInv(s, t) && Rank(s.txns[t].stage) <= 5 && Overtaken(s, s.txns[t])
    requires EffectOf(s, s.txns[t]).End?
    ensures EffectOf(s, s.txns[t]).outcome == BlindRedeem(s.db, s.txns[t].req, s.nextId)
  {
    assert FindKey([], s.txns[t].req.key).None?;
    hide FindKey, FindAfter, RowAccepted, Round, BalanceKnown;
  }

  lemma OvertakenLate(s: State, t: Tid)
    requires Live(s, t) && TxnInv(s, t) && 6 <= Rank(s.txns[t].stage) && Overtaken(s, s.txns[t])
    requires Rank(s.txns[t].stage) < 8 && EffectOf(s, s.txns[t]).End?
    ensures EffectOf(s, s.txns[t]).outcome == BlindRedeem(s.db, s.txns[t].req, s.nextId)
  {
    assert FindKey([], s.txns[t].req.key).None?;
    assert BalanceKnown(s.db, s.txns[t]);
    hide FindKey, FindAfter, Round;
  }

  /** What an overtaken transaction is told instead of the stored redemption. */
  lemma OvertakenAnswer(s: State, t: Tid)
    requires Inv(s) && Live(s, t) && Shaped(s.txns[t]) && s.txns[t].stage != Commit
    requires Overtaken(s, s.txns[t]) && EffectOf(s, s.txns[t]).End?
    ensures EffectOf(s, s.txns[t]).outcome == BlindRedeem(s.db, s.txns[t].req, s.nextId)
  {
    TxnInvOf(s, t);
    hide Inv, TxnInv, EffectOf, BlindRedeem, Overtaken;
    if Rank(s.txns[t].stage) <= 5 {
      OvertakenOnBalance(s, t);
    } else {
      OvertakenLate(s, t);
    }
  }

  // ---------------------------------------------------------------- running on alone

  function StepsOf(s: State, t: Tid, n: nat): State
    decreases n
  {
    if n == 0 then s else StepsOf(Apply(s, Advance(t)), t, n - 1)
  }

  lemma StepsOfFirst(s: State, t: Tid, n: nat)
    requires n > 0
    ensures StepsOf(s, t, n) == StepsOf(Apply(s, Advance(t)), t, n - 1)
  {
    hide Apply;
  }

  function Steps(t: Tid, n: nat): seq<Action> {
    if n == 0 then [] else [Advance(t)] + Steps(t, n - 1)
  }

  lemma {:induction false} RunSteps(s: State, t: Tid, n: nat)
    ensures Run(s, Steps(t, n)) == StepsOf(s, t, n)
    decreases n
  {
    if n > 0 {
      hide Apply;
      RunSteps(Apply(s, Advance(t)), t, n - 1);
      RunJoin(s, [Advance(t)], Steps(t, n - 1));
      assert [Advance(t)][..0] == [];
    }
  }

  /** The id of t's ledger row, drawn or to be drawn next. */
  predicate WillUse(s: State, t: Tid, id: nat)
    requires t in s.txns
  {
    if s.txns[t].row.Some? then s.txns[t].row.value.id == id else s.nextId == id
  }

  /** The tables and the answer t is heading for. */
  function Due(s: State, t: Tid, id: nat): (Db, Outcome)
    requires t in s.txns
  {
    var req := s.txns[t].req;
    if Overtaken(s, s.txns[t]) then (s.db, BlindRedeem(s.db, req, id)) else Execute(s.db, req, id)
  }

  lemma EndIsDue(s: State, t: Tid, id: nat)
    requires Inv(s) && Enabled(s, t) && Shaped(s.txns[t]) && s.txns[t].stage != Commit && WillUse(s, t, id)
    requires EffectOf(s, s.txns[t]).End?
    ensures Due(s, t, id) == (s.db, EffectOf(s, s.txns[t]).outcome)
  {
    TxnInvOf(s, t);
    AnswerIsSerialIffNotOvertaken(s, t);
    if Overtaken(s, s.txns[t]) {
      OvertakenAnswer(s, t);
      BlindIgnoresId(s, t, id);
    } else {
      EndsWithoutRow(s, t);
      RefusedChangesNothing(s.db, s.txns[t].req, s.nextId);
    }
  }

  /** A transaction that is not overtaken cannot end after its ledger insert except by COMMIT. */
  lemma EndsWithoutRow(s: State, t: Tid)
    requires Live(s, t) && TxnInv(s, t) && s.txns[t].stage != Commit && EffectOf(s, s.txns[t]).End?
    requires !Overtaken(s, s.txns[t])
    ensures s.txns[t].row.None?
  {
    hide RewardKnown, BalanceKnown, RowKnown, EntryKnown, AmountKnown;
  }

  lemma RefusedChangesNothing(db: Db, req: Request, id: nat)
    requires !Posts(db, req, id)
    ensures Execute(db, req, id).0 == db
  {
  }

  lemma BlindIgnoresId(s: State, t: Tid, id: nat)
    requires t in s.txns && s.txns[t].req.Redeem?
    ensures BlindRedeem(s.db, s.txns[t].req, id) == BlindRedeem(s.db, s.txns[t].req, s.nextId)
  {
    hide FindKey, FindAfter, Round;
  }

  lemma GoKeepsRowId(s: State, t: Tid, id: nat)
    requires Live(s, t) && TxnInv(s, t) && s.txns[t].stage != Commit && WillUse(s, t, id)
    requires EffectOf(s, s.txns[t]).Go?
    ensures var s' := Step(s, t);
            t in s'.txns && s'.txns[t].req == s.txns[t].req && s'.db == s.db && WillUse(s', t, id)
  {
    hide RewardKnown, BalanceKnown, RowKnown, EntryKnown, AmountKnown, FindKey, RowAccepted;
  }

  lemma GoKeepsOvertaken(s: State, t: Tid)
    requires Live(s, t) && TxnInv(s, t) && s.txns[t].stage != Commit && EffectOf(s, s.txns[t]).Go?
    ensures var s' := Step(s, t); t in s'.txns && (Overtaken(s', s'.txns[t]) <==> Overtaken(s, s.txns[t]))
  {
    hide RewardKnown, BalanceKnown, RowKnown, EntryKnown, AmountKnown, FindAfter, RowAccepted;
  }

  /** A statement that goes on leaves tables, row id and what is due as they are. */
  lemma GoKeepsDue(s: State, t: Tid, id: nat)
    requires Live(s, t) && TxnInv(s, t) && s.txns[t].stage != Commit && WillUse(s, t, id)
    requires EffectOf(s, s.txns[t]).Go?
    ensures var s' := Step(s, t); t in s'.txns && WillUse(s', t, id) && Due(s', t, id) == Due(s, t, id)
  {
    assert Shaped(s.txns[t]);
    hide TxnInv, Overtaken, BlindRedeem, Execute, EffectOf, Step, WillUse;
    GoKeepsRowId(s, t, id);
    GoKeepsOvertaken(s, t);
  }

  lemma CommitIsDue(s: State, t: Tid, id: nat)
    requires Live(s, t) && TxnInv(s, t) && s.txns[t].stage == Commit && WillUse(s, t, id)
    ensures StepCommit(s, t).db == Due(s, t, id).0 && StepCommit(s, t).txns[t].stage == Finished(Due(s, t, id).1)
  {
    CommitIsSerial(s, t);
    assert !Overtaken(s, s.txns[t]);
    hide Execute, BlindRedeem;
  }

  lemma {:induction false} FinishedStays(s: State, t: Tid, n: nat)
    requires t in s.txns && s.txns[t].stage.Finished?
    ensures StepsOf(s, t, n) == s
  {
    if n > 0 {
      assert Apply(s, Advance(t)) == s;
      FinishedStays(s, t, n - 1);
    }
  }

  /** The last statement: t is finished, with the tables and the answer that were due, and no other has moved. */
  predicate Done(s: State, s': State, t: Tid, id: nat)
    requires t in s.txns
  {
    && s'.db == Due(s, t, id).0
    && t in s'.txns && s'.txns == s.txns[t := s'.txns[t]]
    && s'.txns[t].stage == Finished(Due(s, t, id).1)
  }

  lemma LastStepIsDone(s: State, t: Tid, id: nat)
    requires Inv(s) && Enabled(s, t) && Shaped(s.txns[t]) && WillUse(s, t, id)
    requires s.txns[t].stage == Commit || EffectOf(s, s.txns[t]).End?
    ensures Done(s, Step(s, t), t, id)
  {
    TxnInvOf(s, t);
    StepAdvances(s, t);
    if s.txns[t].stage == Commit {
      CommitIsDue(s, t, id);
    } else {
      EndIsDue(s, t, id);
    }
    hide Inv, TxnInv, Due, Enabled;
  }

  lemma DoneLater(s: State, s1: State, s': State, t: Tid, id: nat)
    requires t in s.txns && Advances(s, s1, t)
    requires Due(s1, t, id) == Due(s, t, id) && Done(s1, s', t, id)
    ensures Done(s, s', t, id)
  {
    hide Due;
  }

  /** One statement of the furthest transaction: the last one, or one that leaves it furthest with the same due. */
  lemma FurthestSteps(s: State, t: Tid, id: nat)
    requires Inv(s) && Furthest(s, t) && WillUse(s, t, id)
    ensures t in s.txns
    ensures var s' := Apply(s, Advance(t));
            && Inv(s') && Advances(s, s', t) && t in s'.txns && Rank(s.txns[t].stage) < Rank(s'.txns[t].stage) <= 9
            && if s'.txns[t].stage.Finished? then Done(s, s', t, id)
               else Furthest(s', t) && WillUse(s', t, id) && Due(s', t, id) == Due(s, t, id)
  {
    FurthestIsEnabled(s, t);
    StepKeepsInv(s, t);
    StepAdvances(s, t);
    TxnInvOf(s, t);
    if s.txns[t].stage == Commit || EffectOf(s, s.txns[t]).End? {
      LastStepIsDone(s, t, id);
      hide Inv, Enabled, Due, Step, TxnInv, EffectOf, Furthest;
    } else {
      GoKeepsDue(s, t, id);
      StepKeepsFurthest(s, t);
      GoStaysLive(s, t);
      hide Inv, Enabled, Due, Step, TxnInv, EffectOf, Furthest;
    }
  }

  /**
   A transaction that has come furthest runs on without waiting. Unless it has been overtaken
   it leaves the tables, and is told, what the request run alone on these tables would; if it
   has been, it leaves the tables alone and is refused.
   */
  lemma {:induction false} FurthestIsDone(s: State, t: Tid, id: nat, n: nat)
    requires Inv(s) && Furthest(s, t) && WillUse(s, t, id) && 9 - Rank(s.txns[t].stage) <= n
    ensures Done(s, StepsOf(s, t, n), t, id) && Inv(StepsOf(s, t, n))
    decreases n
  {
    hide Inv, Due, Done, Apply, Furthest, WillUse, StepsOf, Advances, Rank;
    var s' := Apply(s, Advance(t));
    FurthestSteps(s, t, id);
    StepsOfFirst(s, t, n);
    if s'.txns[t].stage.Finished? {
      FinishedStays(s', t, n - 1);
    } else {
      FurthestIsDone(s', t, id, n - 1);
      DoneLater(s, s', StepsOf(s', t, n - 1), t, id);
    }
  }

  lemma GoStaysLive(s: State, t: Tid)
    requires Live(s, t) && Shaped(s.txns[t]) && s.txns[t].stage != Commit && EffectOf(s, s.txns[t]).Go?
    ensures Live(Step(s, t), t)
  {
    EffectMovesOn(s, s.txns[t]);
    hide EffectOf;
  }

  /** Undisturbed from BEGIN on, the statements of a request do what the request alone does. */
  lemma AloneIsExecute(s: State, t: Tid, req: Request)
    requires Inv(s) && LiveTxns(s) == {} && t !in s.txns
    ensures var s' := StepsOf(Apply(s, Begin(t, req)), t, 9);
            t in s'.txns && (s'.db, s'.txns[t].stage) ==
              (Execute(s.db, req, s.nextId).0, Finished(Execute(s.db, req, s.nextId).1))
  {
    var begun := Apply(s, Begin(t, req));
    BeginKeepsInv(s, t, req);
    forall u | Live(begun, u)
      ensures u == t
    {
      assert u != t ==> u in LiveTxns(s);
    }
    FurthestIsDone(begun, t, s.nextId, 9);
    hide Inv, Execute, StepsOf;
  }

  // ---------------------------------------------------------------- two redemptions with one key

  /** Both begin and look the key up; then the first runs to its end, then the second. */
  function TwoWithOneKey(req: Request): seq<Action> {
    LookUp(0, req) + LookUp(1, req) + Steps(0, 7) + Steps(1, 7)
  }

  function LookUp(t: Tid, req: Request): seq<Action> {
    [Begin(t, req), Advance(t), Advance(t)]
  }

  function LookedUp(s: State, t: Tid, req: Request): State {
    s.(txns := s.txns[t := NewTxn(req).(stage := LockReward)])
  }

  lemma LookUpRuns(s: State, t: Tid, req: Request)
    requires t !in s.txns && req.Redeem? && FindKey(s.db.redemptions, req.key).None?
    ensures Run(s, LookUp(t, req)) == LookedUp(s, t, req)
  {
    LookUpSteps(s, t, req);
    hide FindKey, Apply;
    var a := LookUp(t, req);
    assert a[..2] == [Begin(t, req), Advance(t)] && a[..2][..1] == [Begin(t, req)] && [Begin(t, req)][..0] == [];
    assert Run(s, [Begin(t, req)]) == Apply(s, Begin(t, req));
    assert Run(s, a[..2]) == Apply(Apply(s, Begin(t, req)), Advance(t));
  }

  lemma LookUpSteps(s: State, t: Tid, req: Request)
    requires t !in s.txns && req.Redeem? && FindKey(s.db.redemptions, req.key).None?
    ensures Apply(Apply(Apply(s, Begin(t, req)), Advance(t)), Advance(t)) == LookedUp(s, t, req)
  {
    hide FindKey, FindAfter, DoLockReward, DoEnsureBalance, DoLockBalance, DoInsertLedger, DoInsertRedemption,
        StepCommit;
    var s1 := s.(txns := s.txns[t := NewTxn(req)]);
    var s2 := s.(txns := s.txns[t := NewTxn(req).(stage := CheckKey)]);
    assert Apply(s, Begin(t, req)) == s1;
    MissesKey(s, s1, s2, t, req);
  }

  lemma NextStep(s: State, t: Tid, txn: Txn)
    requires t in s.txns && Shaped(s.txns[t]) && (s.txns[t].stage == Start || s.txns[t].stage == CheckKey)
    requires EffectOf(s, s.txns[t]) == Next(txn)
    ensures Apply(s, Advance(t)) == s.(txns := s.txns[t := txn])
  {
    hide EffectOf;
  }

  lemma MissesKey(s: State, s1: State, s2: State, t: Tid, req: Request)
    requires req.Redeem? && FindKey(s.db.redemptions, req.key).None?
    requires s1 == s.(txns := s.txns[t := NewTxn(req)])
    requires s2 == s.(txns := s.txns[t := NewTxn(req).(stage := CheckKey)])
    ensures Apply(Apply(s1, Advance(t)), Advance(t)) == LookedUp(s, t, req)
  {
    hide FindKey, FindAfter, Apply;
    assert EffectOf(s1, NewTxn(req)) == Next(NewTxn(req).(stage := CheckKey));
    assert EffectOf(s2, s2.txns[t]) == Next(NewTxn(req).(stage := LockReward));
    hide EffectOf, Next;
    assert s1.txns[t := NewTxn(req).(stage := CheckKey)] == s2.txns;
    assert s2.txns[t := NewTxn(req).(stage := LockReward)] == LookedUp(s, t, req).txns;
    NextStep(s1, t, NewTxn(req).(stage := CheckKey));
    NextStep(s2, t, NewTxn(req).(stage := LockReward));
  }

  lemma RunsInTurn(s: State, a: seq<Action>, b: seq<Action>, c: seq<Action>, d: seq<Action>)
    ensures Run(s, a + b + c + d) == Run(Run(Run(Run(s, a), b), c), d)
  {
    RunJoin(s, a + b + c, d);
    RunJoin(s, a + b, c);
    RunJoin(s, a, b);
    hide Run;
  }

  lemma BothLookedUp(s: State, req: Request)
    requires s.txns == map[] && req.Redeem? && FindKey(s.db.redemptions, req.key).None?
    ensures Run(Run(s, LookUp(0, req)), LookUp(1, req)) == LookedUp(LookedUp(s, 0, req), 1, req)
  {
    hide Run, LookUp, FindKey;
    LookUpRuns(s, 0, req);
    LookUpRuns(LookedUp(s, 0, req), 1, req);
  }

  /** At LockReward with no one further on: this one goes first. */
  predicate AtReward(s: State, t: Tid, req: Request) {
    t in s.txns && req.Redeem? && s.txns[t] == NewTxn(req).(stage := LockReward)
  }

  lemma FreshKeyIsStored(db: Db, req: Request, id: nat)
    requires req.Redeem? && Execute(db, req, id).1.Fresh?
    ensures FindKey(db.redemptions, req.key).None?
    ensures FindKey(Execute(db, req, id).0.redemptions, req.key).Some?
  {
    var r := Execute(db, req, id).1.redemption;
    FindKeyAppended(db.redemptions, r);
  }

  /** The winner's turn: it makes the redemption, and by that overtakes the other. */
  lemma FirstWins(s: State, s': State, t: Tid, u: Tid, req: Request)
    requires AtReward(s, t, req) && AtReward(s, u, req) && u != t
    requires Execute(s.db, req, s.nextId).1.Fresh? && Done(s, s', t, s.nextId)
    ensures s'.db == Execute(s.db, req, s.nextId).0
    ensures s'.txns[t].stage == Finished(Execute(s.db, req, s.nextId).1)
    ensures AtReward(s', u, req) && Overtaken(s', s'.txns[u])
  {
    FreshKeyIsStored(s.db, req, s.nextId);
    hide Execute, BlindRedeem, FindKey;
  }

  /** The loser's turn: it is refused. */
  lemma SecondIsRefused(s: State, s': State, u: Tid, req: Request)
    requires AtReward(s, u, req) && Overtaken(s, s.txns[u]) && Done(s, s', u, s.nextId)
    ensures s'.db == s.db && s'.txns[u].stage == Finished(BlindRedeem(s.db, req, s.nextId))
    ensures forall v :: v in s.txns && v != u ==> v in s'.txns && s'.txns[v] == s.txns[v]
  {
    hide BlindRedeem, Overtaken;
  }

  /** The first one is furthest while both are at LockReward, and the second one after the first has finished. */
  lemma FurthestOfTwo(s: State, t: Tid, u: Tid, req: Request)
    requires s.txns.Keys == {t, u} && AtReward(s, u, req) && (AtReward(s, t, req) || s.txns[t].stage.Finished?)
    ensures Furthest(s, u)
  {
  }

  /** The outcome of the race: the first is answered as if alone, the second refused. */
  predicate Raced(db: Db, id: nat, id': nat, req: Request, s: State)
    requires req.Redeem?
  {
    && s.db == Execute(db, req, id).0
    && s.txns.Keys == {0, 1}
    && s.txns[0].stage == Finished(Execute(db, req, id).1)
    && s.txns[1].stage == Finished(BlindRedeem(Execute(db, req, id).0, req, id'))
  }

  lemma FirstTurn(s: State, req: Request)
    requires Inv(s) && s.txns.Keys == {0, 1} && AtReward(s, 0, req) && AtReward(s, 1, req)
    requires Execute(s.db, req, s.nextId).1.Fresh?
    ensures var s' := StepsOf(s, 0, 7);
            && Inv(s') && s'.db == Execute(s.db, req, s.nextId).0 && s'.txns.Keys == {0, 1}
            && s'.txns[0].stage == Finished(Execute(s.db, req, s.nextId).1)
            && AtReward(s', 1, req) && Overtaken(s', s'.txns[1])
  {
    hide Inv, StepsOf, Execute, Furthest, FindKey, Overtaken, Due;
    FurthestOfTwo(s, 1, 0, req);
    FurthestIsDone(s, 0, s.nextId, 7);
    FirstWins(s, StepsOf(s, 0, 7), 0, 1, req);
  }

  lemma SecondTurn(s: State, req: Request)
    requires Inv(s) && s.txns.Keys == {0, 1} && s.txns[0].stage.Finished? && AtReward(s, 1, req)
    requires Overtaken(s, s.txns[1])
    ensures var s' := StepsOf(s, 1, 7);
            && s'.db == s.db && s'.txns.Keys == {0, 1} && s'.txns[0] == s.txns[0]
            && s'.txns[1].stage == Finished(BlindRedeem(s.db, req, s.nextId))
  {
    hide Inv, StepsOf, BlindRedeem, Furthest, FindKey, Overtaken, Due;
    FurthestOfTwo(s, 0, 1, req);
    FurthestIsDone(s, 1, s.nextId, 7);
    SecondIsRefused(s, StepsOf(s, 1, 7), 1, req);
  }

  lemma BothTurns(s: State, req: Request)
    requires Inv(s) && s.txns.Keys == {0, 1} && AtReward(s, 0, req) && AtReward(s, 1, req)
    requires Execute(s.db, req, s.nextId).1.Fresh?
    ensures Raced(s.db, s.nextId, StepsOf(s, 0, 7).nextId, req, StepsOf(StepsOf(s, 0, 7), 1, 7))
  {
    hide Inv, StepsOf, Execute, BlindRedeem, AtReward, Overtaken;
    FirstTurn(s, req);
    SecondTurn(StepsOf(s, 0, 7), req);
  }

  lemma RaceBegins(start: Db, nextId: nat, req: Request)
    requires Startable(start, nextId) && req.Redeem? && FindKey(start.redemptions, req.key).None?
    ensures var s := LookedUp(LookedUp(Initial(start, nextId), 0, req), 1, req);
            && Inv(s) && s == Run(Initial(start, nextId), LookUp(0, req) + LookUp(1, req))
  {
    hide Run, LookUp, FindKey, Startable, Inv;
    RunIsGood(start, nextId, LookUp(0, req) + LookUp(1, req));
    RunJoin(Initial(start, nextId), LookUp(0, req), LookUp(1, req));
    BothLookedUp(Initial(start, nextId), req);
  }

  lemma TurnsAreRuns(s: State, s1: State, first: seq<Action>, second: seq<Action>)
    requires Run(s, first + second) == s1
    ensures Run(s, first + second + Steps(0, 7) + Steps(1, 7)) == StepsOf(StepsOf(s1, 0, 7), 1, 7)
  {
    hide Run, Steps, StepsOf;
    RunsInTurn(s, first, second, Steps(0, 7), Steps(1, 7));
    RunJoin(s, first, second);
    RunSteps(s1, 0, 7);
    RunSteps(StepsOf(s1, 0, 7), 1, 7);
  }

  /**
   Two requests with one key, both past the look-up: whichever runs first makes the
   redemption, and the second is refused, never shown the redemption its caller asked for.
   */
  lemma RacingRedemptions(start: Db, nextId: nat, req: Request) returns (id: nat)
    requires Startable(start, nextId) && req.Redeem? && Execute(start, req, nextId).1.Fresh?
    ensures Raced(start, nextId, id, req, Run(Initial(start, nextId), TwoWithOneKey(req)))
  {
    hide Execute, Raced, FindKey, Startable, StepsOf, Inv, Run, LookUp, Steps;
    var s1 := LookedUp(LookedUp(Initial(start, nextId), 0, req), 1, req);
    FreshKeyIsStored(start, req, nextId);
    RaceBegins(start, nextId, req);
    TurnsAreRuns(Initial(start, nextId), s1, LookUp(0, req), LookUp(1, req));
    BothTurns(s1, req);
    id := StepsOf(s1, 0, 7).nextId;
  }

  // ---------------------------------------------------------------- such a race

  /** One user with points for two, earned in one row, and a reward with two in stock. */
  function Shop(user: int, reward: int, cost: nat): Db {
    Db({user}, map[reward := Reward(cost as real, 2, true, false)], map[user := 2 * cost],
       [LedgerRow(0, user, Earned, 2 * cost, 0, 2 * cost)], [])
  }

  lemma ShopIsStartable(user: int, reward: int, cost: nat)
    ensures Startable(Shop(user, reward, cost), 1)
  {
    var (db, row) := (Shop(user, reward, cost), LedgerRow(0, user, Earned, 2 * cost, 0, 2 * cost));
    forall u
      ensures Account(db, u)
    {
      var none := Db(db.users, db.rewards, map[], [], []);
      assert Account(none, u);
      assert BalanceOf(none, user) == 0;
      PostKeepsAccount(none, row, u);
      assert Post(none, row).ledger == db.ledger && Post(none, row).balances == db.balances;
      SameAccount(Post(none, row), db, u);
    }
  }

  lemma SameAccount(db: Db, db': Db, user: int)
    requires Account(db, user) && db'.ledger == db.ledger && db'.balances == db.balances
    ensures Account(db', user)
  {
  }

  lemma WholeCost(cost: nat)
    ensures Round(cost as real) == cost
  {
  }

  /** The shop can serve the request once, and, but for the key, twice. */
  lemma ShopServesTwice(user: int, reward: int, cost: nat, key: string, id: nat)
    requires 0 < cost < 0x4000_0000
    ensures var (db, req) := (Shop(user, reward, cost), Redeem(user, reward, None, key));
            && Execute(db, req, 1).1.Fresh?
            && BlindRedeem(Execute(db, req, 1).0, req, id) == Refused(KeyTaken)
  {
    WholeCost(cost);
    var (db, req) := (Shop(user, reward, cost), Redeem(user, reward, None, key));
    assert FindKey(db.redemptions, key).None?;
    hide Round, FindAfter;
    var db1 := Execute(db, req, 1).0;
    assert db1.rewards[reward] == Reward(cost as real, 1, true, false) && db1.balances == map[user := cost];
  }

  /** There the second of two racing requests is told that its key is taken, though the first made the redemption. */
  lemma KeyTakenIsReached(user: int, reward: int, cost: nat, key: string)
    requires 0 < cost < 0x4000_0000
    ensures var s := Run(Initial(Shop(user, reward, cost), 1), TwoWithOneKey(Redeem(user, reward, None, key)));
            && s.txns.Keys == {0, 1} && s.txns[0].stage.Finished? && s.txns[0].stage.outcome.Fresh?
            && s.txns[1].stage == Finished(Refused(KeyTaken))
  {
    hide Shop, Execute, BlindRedeem, Run, Startable, TwoWithOneKey;
    ShopIsStartable(user, reward, cost);
    ShopServesTwice(user, reward, cost, key, 0);
    var id := RacingRedemptions(Shop(user, reward, cost), 1, Redeem(user, reward, None, key));
    ShopServesTwice(user, reward, cost, key, id);
  }
}
