/**
 How often the handler of one event's row is run, and when it is over for good. A row is in
 hand while its own handler, or an open round of the retry loop, has it and has not marked it.
 */
module EventDispatches {
  import opened EventIngest
  import opened Options

  function RunFrom(c: Config, s: State, actions: seq<Action>): State {
    if actions == [] then s
    else Step(c, RunFrom(c, s, actions[..|actions| - 1]), actions[|actions| - 1])
  }

  /** How many have the row in hand. */
  function InHand(s: State, row: nat): nat {
    (if BeingDispatched(s.conn, row) then 1 else 0) + InRounds(s.rounds, row)
  }

  /** The action is the return of a dispatch of this row, and marks it. */
  predicate Marks(s: State, a: Action, row: nat) {
    match a
    case Dispatched(_) => BeingDispatched(s.conn, row) && row < |s.db.rows|
    case Retry(r, _) => CanRetry(s, r) && s.rounds[r][0] == row
    case _ => false
  }

  ghost predicate GoodRounds(s: State) {
    forall r :: 0 <= r < |s.rounds| ==> GoodRound(s.rounds[r], |s.db.rows|)
  }

  /** A dispatch that returns is one fewer in hand. */
  lemma MarkMoves(c: Config, s: State, a: Action, row: nat)
    requires GoodRounds(s) && Marks(s, a, row)
    ensures row < |s.db.rows| && |Step(c, s, a).db.rows| == |s.db.rows|
    ensures Step(c, s, a).db.rows[row] == MarkRow(s.db.rows[row], a.ok)
    ensures InHand(s, row) >= 1 && InHand(Step(c, s, a), row) == InHand(s, row) - 1
    ensures |Step(c, s, a).rounds| <= |s.rounds|
  {
    if a.Retry? {
      assert GoodRound(s.rounds[a.round], |s.db.rows|);
      InNextRounds(s.rounds, a.round, row);
    }
    hide InRounds, MarkRow;
  }

  /** Anything else leaves the row as it is, and only a query puts it in hand once more. */
  lemma OthersKeepRow(c: Config, s: State, a: Action, row: nat)
    requires GoodRounds(s) && row < |s.db.rows| && !Marks(s, a, row)
    ensures row < |Step(c, s, a).db.rows| && Step(c, s, a).db.rows[row] == s.db.rows[row]
    ensures InHand(Step(c, s, a), row) <=
            InHand(s, row) + if a.Query? && Eligible(c, s.db.rows[row]) then 1 else 0
    ensures BeingDispatched(Step(c, s, a).conn, row) ==> BeingDispatched(s.conn, row)
  {
    match a
    case Query =>
      var ids := PendingRows(c, s.db.rows, |s.db.rows|);
      InRoundsAppend(s.rounds, NonEmpty(ids), row);
      InNoRound(ids, row);
      PendingRowsAreAll(c, s.db.rows, |s.db.rows|, row);
      hide PendingRows, InRounds, Eligible;
    case Retry(r, ok) =>
      if CanRetry(s, r) {
        assert GoodRound(s.rounds[r], |s.db.rows|);
        InNextRounds(s.rounds, r, row);
      }
      hide InRounds;
    case _ => hide InRounds, Inserts;
  }

  lemma RoundsStayGood(rounds: seq<seq<nat>>, n: nat, n': nat)
    requires n <= n' && forall r :: 0 <= r < |rounds| ==> GoodRound(rounds[r], n)
    ensures forall r :: 0 <= r < |rounds| ==> GoodRound(rounds[r], n')
  {
    forall r | 0 <= r < |rounds|
      ensures GoodRound(rounds[r], n')
    {
      assert GoodRound(rounds[r], n);
    }
  }

  lemma StepKeepsRounds(c: Config, s: State, a: Action)
    requires GoodRounds(s)
    ensures GoodRounds(Step(c, s, a)) && |s.db.rows| <= |Step(c, s, a).db.rows|
  {
    match a
    case Retry(r, ok) =>
      if CanRetry(s, r) {
        NextRoundsAreGood(s.rounds, r, |s.db.rows|);
      }
      hide NextRounds;
    case Advance =>
      RoundsStayGood(s.rounds, |s.db.rows|, |Step(c, s, a).db.rows|);
      hide Inserts, GoodRound;
    case _ =>
  }

  // ---------------------------------------------------------------- a success is the end of it

  /** A row whose dispatch has returned is to be taken up by no query, however many retries are allowed. */
  lemma SuccessIsNotEligible(c: Config, r: Row)
    ensures !Eligible(c, MarkRow(r, true))
  {
  }

  /** The row is processed, and nobody has it in hand. */
  predicate Settled(s: State, row: nat) {
    row < |s.db.rows| && s.db.rows[row].status == Processed && InHand(s, row) == 0
  }

  /** When a dispatch returns the row is settled exactly unless someone else has it in hand too. */
  lemma SuccessSettlesIff(c: Config, s: State, a: Action, row: nat)
    requires GoodRounds(s) && Marks(s, a, row) && a.ok
    ensures row < |Step(c, s, a).db.rows| && Step(c, s, a).db.rows[row].status == Processed
    ensures Settled(Step(c, s, a), row) <==> InHand(s, row) == 1
  {
    MarkMoves(c, s, a, row);
    hide InRounds, Step;
  }

  lemma {:induction false} InHandIsInRound(rounds: seq<seq<nat>>, row: nat)
    ensures InRounds(rounds, row) > 0 <==> exists r :: 0 <= r < |rounds| && row in rounds[r]
  {
    if rounds != [] {
      var n := |rounds| - 1;
      InHandIsInRound(rounds[..n], row);
      if InRounds(rounds[..n], row) > 0 {
        var r :| 0 <= r < n && row in rounds[..n][r];
        assert row in rounds[r];
      }
      forall r | 0 <= r < |rounds| && row in rounds[r]
        ensures InRounds(rounds, row) > 0
      {
        assert r < n ==> row in rounds[..n][r];
      }
    }
  }

  lemma SettledIsInNoQuery(c: Config, s: State, row: nat)
    requires Settled(s, row)
    ensures row !in PendingRows(c, s.db.rows, |s.db.rows|)
    ensures forall r :: 0 <= r < |s.rounds| ==> row !in s.rounds[r]
  {
    PendingRowsAreAll(c, s.db.rows, |s.db.rows|, row);
    InHandIsInRound(s.rounds, row);
    hide PendingRows, InRounds;
  }

  lemma StepKeepsSettled(c: Config, s: State, a: Action, row: nat)
    requires GoodRounds(s) && Settled(s, row)
    ensures !Marks(s, a, row)
    ensures Settled(Step(c, s, a), row) && Step(c, s, a).db.rows[row] == s.db.rows[row]
  {
    SettledIsNotMarked(c, s, a, row);
    SettledIsInNoQuery(c, s, row);
    PendingRowsAreAll(c, s.db.rows, |s.db.rows|, row);
    hide GoodRounds, InHand, Step, Marks, PendingRows, BeingDispatched;
    OthersKeepRow(c, s, a, row);
  }

  lemma SettledIsNotMarked(c: Config, s: State, a: Action, row: nat)
    requires GoodRounds(s) && Settled(s, row)
    ensures !Marks(s, a, row)
  {
    SettledIsInNoQuery(c, s, row);
    hide InRounds;
  }

  /** The k-th action of the run is the return of a dispatch of the row. */
  predicate MarksAt(c: Config, s: State, actions: seq<Action>, k: nat, row: nat)
    requires k < |actions|
  {
    Marks(RunFrom(c, s, actions[..k]), actions[k], row)
  }

  /** A settled row stays as it is: whatever follows, no query returns it and no dispatch of it returns again. */
  lemma {:induction false} SettledForGood(c: Config, s: State, actions: seq<Action>, row: nat)
    requires GoodRounds(s) && Settled(s, row)
    ensures var s' := RunFrom(c, s, actions);
            && GoodRounds(s') && Settled(s', row) && s'.db.rows[row] == s.db.rows[row]
            && row !in PendingRows(c, s'.db.rows, |s'.db.rows|)
    ensures forall k :: 0 <= k < |actions| ==> !MarksAt(c, s, actions, k, row)
  {
    hide GoodRounds, Settled, Step, Marks, PendingRows;
    if actions != [] {
      var n := |actions| - 1;
      var before := RunFrom(c, s, actions[..n]);
      SettledForGood(c, s, actions[..n], row);
      SettledIsThere(before, row);
      StepKeepsRounds(c, before, actions[n]);
      StepKeepsSettled(c, before, actions[n], row);
      forall k | 0 <= k < n
        ensures !MarksAt(c, s, actions, k, row)
      {
        assert actions[..n][..k] == actions[..k];
        assert !MarksAt(c, s, actions[..n], k, row);
      }
    }
    SettledIsThere(s, row);
    SettledIsThere(RunFrom(c, s, actions), row);
    SettledIsInNoQuery(c, RunFrom(c, s, actions), row);
  }

  lemma SettledIsThere(s: State, row: nat)
    requires Settled(s, row)
    ensures row < |s.db.rows|
  {
  }

  /** While someone still has it in hand, a row can be failed, whatever its status: a processed one too. */
  lemma HeldCanFail(c: Config, s: State, row: nat) returns (more: seq<Action>)
    requires GoodRounds(s) && row < |s.db.rows| && InHand(s, row) > 0
    ensures var s' := RunFrom(c, s, more);
            row < |s'.db.rows| && s'.db.rows[row] == MarkRow(s.db.rows[row], false)
    ensures more != [] && MarksAt(c, s, more, |more| - 1, row)
  {
    if BeingDispatched(s.conn, row) {
      more := [Dispatched(false)];
      MarkMoves(c, s, Dispatched(false), row);
      RunOne(c, s, Dispatched(false));
    } else {
      InHandIsInRound(s.rounds, row);
      var r :| 0 <= r < |s.rounds| && row in s.rounds[r];
      more := FailInRound(c, s, row, r);
    }
  }

  predicate MarkedBy(c: Config, s: State, more: seq<Action>, row: nat) {
    exists k :: 0 <= k < |more| && MarksAt(c, s, more, k, row)
  }

  /**
   A dispatch that has returned is the row's last, whatever follows, if and only if nobody else had
   the row in hand: neither its handler nor another open round.
   */
  lemma ReturnIsFinalIff(c: Config, s: State, a: Action, row: nat)
    requires GoodRounds(s) && Marks(s, a, row) && a.ok
    ensures (forall more :: !MarkedBy(c, Step(c, s, a), more, row)) <==> InHand(s, row) == 1
  {
    hide Marks, InHand, Step, GoodRounds, MarksAt;
    var s1 := Step(c, s, a);
    StepKeepsRounds(c, s, a);
    SuccessSettlesIff(c, s, a, row);
    MarkMoves(c, s, a, row);
    if Settled(s1, row) {
      forall more
        ensures !MarkedBy(c, s1, more, row)
      {
        SettledForGood(c, s1, more, row);
      }
    } else {
      var more := HeldCanFail(c, s1, row);
      assert MarkedBy(c, s1, more, row);
    }
  }

  /** So with at most one round open, and the row's handler done, the round's success settles it. */
  lemma OneRoundSettles(c: Config, s: State, r: nat, row: nat)
    requires GoodRounds(s) && |s.rounds| <= 1 && !BeingDispatched(s.conn, row) && Marks(s, Retry(r, true), row)
    ensures Settled(Step(c, s, Retry(r, true)), row)
  {
    MarkMoves(c, s, Retry(r, true), row);
    SuccessSettlesIff(c, s, Retry(r, true), row);
    hide Step;
  }

  /** A crash takes handler and rounds with it, and nothing stored: whatever row was processed by then is settled. */
  lemma CrashSettles(c: Config, s: State, row: nat)
    ensures var s' := Step(c, s, Crash);
            && s'.db == s.db && s'.stream == s.stream && InHand(s', row) == 0
            && (row < |s.db.rows| && s.db.rows[row].status == Processed <==> Settled(s', row))
  {
  }

  lemma RunOne(c: Config, s: State, a: Action)
    ensures RunFrom(c, s, [a]) == Step(c, s, a)
  {
    assert [a][..0] == [];
    hide Step;
  }

  lemma {:induction false} RunFirst(c: Config, s: State, a: Action, more: seq<Action>)
    ensures RunFrom(c, s, [a] + more) == RunFrom(c, Step(c, s, a), more)
  {
    hide Step;
    if more == [] {
      assert [a] + more == [a];
      RunOne(c, s, a);
    } else {
      var n := |more| - 1;
      assert ([a] + more)[..n + 1] == [a] + more[..n];
      RunFirst(c, s, a, more[..n]);
    }
  }

  lemma MarksLater(c: Config, s: State, a: Action, more: seq<Action>, k: nat, row: nat)
    requires k < |more|
    ensures MarksAt(c, s, [a] + more, k + 1, row) <==> MarksAt(c, Step(c, s, a), more, k, row)
  {
    hide Step, RunFrom, Marks;
    assert ([a] + more)[..k + 1] == [a] + more[..k];
    RunFirst(c, s, a, more[..k]);
  }

  /** The round goes on to the row, past the rows before it. */
  lemma {:induction false} FailInRound(c: Config, s: State, row: nat, r: nat) returns (more: seq<Action>)
    requires GoodRounds(s) && row < |s.db.rows| && r < |s.rounds| && row in s.rounds[r]
    ensures var s' := RunFrom(c, s, more);
            row < |s'.db.rows| && s'.db.rows[row] == MarkRow(s.db.rows[row], false)
    ensures more != [] && MarksAt(c, s, more, |more| - 1, row)
    decreases if r < |s.rounds| then |s.rounds[r]| else 0
  {
    assert GoodRound(s.rounds[r], |s.db.rows|);
    if s.rounds[r][0] == row {
      more := [Retry(r, false)];
      MarkMoves(c, s, Retry(r, false), row);
      RunOne(c, s, Retry(r, false));
    } else {
      var s1 := Step(c, s, Retry(r, true));
      RoundGoesOn(c, s, row, r);
      StepKeepsRounds(c, s, Retry(r, true));
      OthersKeepRow(c, s, Retry(r, true), row);
      hide Step, RunFrom, GoodRounds, MarkRow, MarksAt, GoodRound;
      var rest := FailInRound(c, s1, row, r);
      more := [Retry(r, true)] + rest;
      RunFirst(c, s, Retry(r, true), rest);
      MarksLater(c, s, Retry(r, true), rest, |rest| - 1, row);
    }
  }

  lemma RoundGoesOn(c: Config, s: State, row: nat, r: nat)
    requires r < |s.rounds| && s.rounds[r] != [] && s.rounds[r][0] < |s.db.rows|
    requires row in s.rounds[r] && s.rounds[r][0] != row
    ensures var s1 := Step(c, s, Retry(r, true));
            r < |s1.rounds| && row in s1.rounds[r] && |s1.rounds[r]| < |s.rounds[r]|
  {
    assert s.rounds[r] == [s.rounds[r][0]] + s.rounds[r][1..];
    assert NextRounds(s.rounds, r)[r] == s.rounds[r][1..];
  }

  // ---------------------------------------------------------------- how many dispatches return

  /** How many dispatches of the row have returned, or thrown, over a run. */
  function Dispatches(c: Config, actions: seq<Action>, row: nat): nat {
    if actions == [] then 0
    else
      var before := actions[..|actions| - 1];
      Dispatches(c, before, row) + if Marks(Run(c, before), actions[|actions| - 1], row) then 1 else 0
  }

  /** One for the handler, and `peak` for each of n times that the row has come to be eligible. */
  function Allowance(c: Config, peak: nat, n: nat): nat {
    1 + peak * if n < MaxOne(c.maxRetries) then n else MaxOne(c.maxRetries)
  }

  lemma Product(a: nat, b: nat, a': nat, b': nat)
    requires a <= a' && b <= b'
    ensures a * b <= a' * b'
  {
    assert a' * b' == a * b + a * (b' - b) + (a' - a) * b';
    assert a * (b' - b) >= 0 && (a' - a) * b' >= 0;
  }

  lemma AllowanceGrows(c: Config, peak: nat, n: nat, peak': nat, n': nat)
    requires peak <= peak' && n <= n'
    ensures Allowance(c, peak, n) <= Allowance(c, peak', n')
    ensures n < MaxOne(c.maxRetries) ==> Allowance(c, peak, n + 1) == Allowance(c, peak, n) + peak
  {
    var m := MaxOne(c.maxRetries);
    Product(peak, if n < m then n else m, peak', if n' < m then n' else m);
    if n < m {
      assert peak * (n + 1) == peak * n + peak;
    }
  }

  predicate Allowed(c: Config, s: State, row: nat, marks: nat, peak: nat)
    requires row < |s.db.rows|
  {
    var r := s.db.rows[row];
    && (r.status == Pending ==> r.retries == 0 && marks == 0)
    && (r.status == Failed ==>
          marks + (if BeingDispatched(s.conn, row) then 1 else 0) <= Allowance(c, peak, r.retries))
    && marks + InHand(s, row) <= Allowance(c, peak, r.retries + 1)
  }

  lemma MarkKeepsAllowed(c: Config, s: State, a: Action, row: nat, marks: nat, peak: nat)
    requires GoodRounds(s) && Marks(s, a, row) && row < |s.db.rows| && Allowed(c, s, row, marks, peak)
    ensures row < |Step(c, s, a).db.rows| && Allowed(c, Step(c, s, a), row, marks + 1, peak)
  {
    MarkMoves(c, s, a, row);
    AllowanceGrows(c, peak, s.db.rows[row].retries + 1, peak, s.db.rows[row].retries + 2);
    hide Step, InRounds, Allowance;
  }

  lemma NoAllowance(c: Config, peak: nat)
    ensures Allowance(c, peak, 0) == 1 && Allowance(c, peak, 1) == 1 + peak
  {
    AllowanceGrows(c, peak, 0, peak, 0);
    assert peak * 0 == 0;
  }

  /** A row taken up once more was pending, or failed fewer times than it may: there is a round's worth left. */
  lemma SameRowIsAllowed(c: Config, s: State, s': State, row: nat, marks: nat, peak: nat)
    requires row < |s.db.rows| && Allowed(c, s, row, marks, peak) && |s'.rounds| <= peak
    requires row < |s'.db.rows| && s'.db.rows[row] == s.db.rows[row]
    requires InHand(s', row) <= InHand(s, row) + if Eligible(c, s.db.rows[row]) then 1 else 0
    requires BeingDispatched(s'.conn, row) ==> BeingDispatched(s.conn, row)
    ensures Allowed(c, s', row, marks, peak)
  {
    hide Allowance, InRounds;
    NoAllowance(c, peak);
    AllowanceGrows(c, peak, s.db.rows[row].retries, peak, s.db.rows[row].retries + 1);
    assert InHand(s', row) <= (if BeingDispatched(s'.conn, row) then 1 else 0) + peak;
  }

  lemma OthersKeepAllowed(c: Config, s: State, a: Action, row: nat, marks: nat, peak: nat)
    requires GoodRounds(s) && !Marks(s, a, row) && row < |s.db.rows| && Allowed(c, s, row, marks, peak)
    requires |Step(c, s, a).rounds| <= peak
    ensures row < |Step(c, s, a).db.rows| && Allowed(c, Step(c, s, a), row, marks, peak)
  {
    hide GoodRounds, Marks, Allowed, Step, InHand, Eligible, BeingDispatched;
    OthersKeepRow(c, s, a, row);
    SameRowIsAllowed(c, s, Step(c, s, a), row, marks, peak);
  }

  lemma NewRowIsAllowed(c: Config, s: State, a: Action, row: nat, peak: nat)
    requires GoodRounds(s) && |s.db.rows| <= row < |Step(c, s, a).db.rows|
    ensures Allowed(c, Step(c, s, a), row, 0, peak) && !Marks(s, a, row)
  {
    NewRowIsInNoRound(s.rounds, |s.db.rows|);
    hide InRounds, Inserts;
  }

  lemma MorePeakIsAllowed(c: Config, s: State, row: nat, marks: nat, peak: nat, peak': nat)
    requires row < |s.db.rows| && Allowed(c, s, row, marks, peak) && peak <= peak'
    ensures Allowed(c, s, row, marks, peak')
  {
    AllowanceGrows(c, peak, s.db.rows[row].retries, peak', s.db.rows[row].retries);
    AllowanceGrows(c, peak, s.db.rows[row].retries + 1, peak', s.db.rows[row].retries + 1);
    hide Allowance, InHand;
  }

  lemma {:induction false} RunIsAllowed(c: Config, actions: seq<Action>, row: nat)
    ensures GoodRounds(Run(c, actions))
    ensures row < |Run(c, actions).db.rows| ==>
              Allowed(c, Run(c, actions), row, Dispatches(c, actions, row), Peak(c, actions))
    ensures row >= |Run(c, actions).db.rows| ==> Dispatches(c, actions, row) == 0
  {
    if actions != [] {
      hide Step, GoodRounds, Allowed, Marks;
      var (before, a) := (actions[..|actions| - 1], actions[|actions| - 1]);
      var (s, marks, peak) := (Run(c, before), Dispatches(c, before, row), Peak(c, actions));
      RunIsAllowed(c, before, row);
      StepKeepsRounds(c, s, a);
      if row < |s.db.rows| {
        MorePeakIsAllowed(c, s, row, marks, Peak(c, before), peak);
        if Marks(s, a, row) {
          MarkKeepsAllowed(c, s, a, row, marks, peak);
        } else {
          OthersKeepAllowed(c, s, a, row, marks, peak);
        }
      } else if row < |Step(c, s, a).db.rows| {
        NewRowIsAllowed(c, s, a, row, peak);
      } else {
        UnknownRowIsNotMarked(s, a, row);
      }
    }
  }

  lemma UnknownRowIsNotMarked(s: State, a: Action, row: nat)
    requires row >= |s.db.rows|
    ensures !Marks(s, a, row)
  {
  }

  /**
   Over any run at most 1 + max(1, maxRetries) * (rounds open at once) dispatches of a row
   return or throw, successes included.
   */
  lemma DispatchesAreBounded(c: Config, actions: seq<Action>, row: nat)
    ensures Dispatches(c, actions, row) <= 1 + Peak(c, actions) * MaxOne(c.maxRetries)
  {
    hide Run, Peak, Dispatches, InHand;
    var (s, marks, peak) := (Run(c, actions), Dispatches(c, actions, row), Peak(c, actions));
    RunIsAllowed(c, actions, row);
    if row < |s.db.rows| {
      AllowanceIsAtMost(c, peak, s.db.rows[row].retries + 1);
    } else {
      Product(0, 0, peak, MaxOne(c.maxRetries));
    }
  }

  lemma AllowanceIsAtMost(c: Config, peak: nat, n: nat)
    ensures Allowance(c, peak, n) <= 1 + peak * MaxOne(c.maxRetries)
  {
    Product(peak, if n < MaxOne(c.maxRetries) then n else MaxOne(c.maxRetries), peak, MaxOne(c.maxRetries));
  }

  // ---------------------------------------------------------------- both are reached

  /** One event, recorded, being dispatched, its row in each of n open rounds. */
  function TheRow(e: Event, r: Row, n: nat): State {
    State([e], Db([r], Some(0)), Up(0, 0, Dispatching(0)), Some(0), Some(0), seq(n, i => [0]))
  }

  predicate Gets(c: Config, actions: seq<Action>, e: Event, r: Row, n: nat, peak: nat, marks: nat) {
    Run(c, actions) == TheRow(e, r, n) && Peak(c, actions) == peak && Dispatches(c, actions, 0) == marks
  }

  lemma OneMoreDispatch(c: Config, actions: seq<Action>, a: Action, row: nat)
    ensures Dispatches(c, actions + [a], row) ==
            Dispatches(c, actions, row) + if Marks(Run(c, actions), a, row) then 1 else 0
  {
    assert (actions + [a])[..|actions|] == actions;
    hide Run, Marks;
  }

  lemma QueryTheRow(c: Config, e: Event, r: Row, n: nat)
    requires Eligible(c, r)
    ensures Step(c, TheRow(e, r, n), Query) == TheRow(e, r, n + 1)
  {
    var (s, s') := (TheRow(e, r, n), TheRow(e, r, n + 1));
    assert PendingRows(c, s.db.rows, 0) == [];
    assert PendingRows(c, s.db.rows, 1) == [0];
    assert s.rounds + [[0]] == s'.rounds;
  }

  lemma ReturnTheRow(c: Config, e: Event, r: Row, n: nat, ok: bool)
    ensures Marks(TheRow(e, r, n + 1), Retry(0, ok), 0)
    ensures Step(c, TheRow(e, r, n + 1), Retry(0, ok)) == TheRow(e, MarkRow(r, ok), n)
  {
    hide MarkRow;
    var (s, s') := (TheRow(e, r, n + 1), TheRow(e, MarkRow(r, ok), n));
    assert [0][1..] == [];
    assert NextRounds(s.rounds, 0) == s'.rounds;
    assert Mark(s.db, 0, ok) == s'.db;
  }

  lemma ThenOpen(c: Config, actions: seq<Action>, e: Event, r: Row, n: nat, peak: nat, marks: nat)
    requires Gets(c, actions, e, r, n, peak, marks) && Eligible(c, r)
    ensures Gets(c, actions + [Query], e, r, n + 1, if peak < n + 1 then n + 1 else peak, marks)
  {
    hide Step, Run, Peak, Dispatches;
    OneMore(c, actions, Query);
    OneMoreDispatch(c, actions, Query, 0);
    QueryTheRow(c, e, r, n);
  }

  lemma ThenReturn(c: Config, actions: seq<Action>, e: Event, r: Row, n: nat, peak: nat, marks: nat, ok: bool)
    requires Gets(c, actions, e, r, n + 1, peak, marks) && n <= peak
    ensures Gets(c, actions + [Retry(0, ok)], e, MarkRow(r, ok), n, peak, marks + 1)
  {
    hide Step, Run, Peak, Dispatches, MarkRow, Marks;
    OneMore(c, actions, Retry(0, ok));
    OneMoreDispatch(c, actions, Retry(0, ok), 0);
    ReturnTheRow(c, e, r, n, ok);
  }

  lemma {:induction false} OpenAll(c: Config, actions: seq<Action>, e: Event, r: Row, n: nat, peak: nat, marks: nat)
    returns (open: seq<Action>)
    requires Gets(c, actions, e, r, 0, peak, marks) && Eligible(c, r)
    ensures Gets(c, open, e, r, n, if peak < n then n else peak, marks)
  {
    hide Gets;
    if n == 0 {
      open := actions;
    } else {
      var before := OpenAll(c, actions, e, r, n - 1, peak, marks);
      ThenOpen(c, before, e, r, n - 1, if peak < n - 1 then n - 1 else peak, marks);
      open := before + [Query];
    }
  }

  /** All succeed but the last: the row is processed until then, and is taken up again for that failure. */
  lemma {:induction false} ReturnAll(c: Config, actions: seq<Action>, e: Event, r: Row, n: nat, peak: nat, marks: nat)
    returns (done: seq<Action>)
    requires Gets(c, actions, e, r, n, peak, marks) && 1 <= n <= peak
    ensures Gets(c, done, e, Row(r.token, r.key, Failed, r.retries + 1), 0, peak, marks + n)
    decreases n
  {
    hide Gets;
    ThenReturn(c, actions, e, r, n - 1, peak, marks, n > 1);
    done := actions + [Retry(0, n > 1)];
    if n > 1 {
      done := ReturnAll(c, done, e, MarkRow(r, true), n - 1, peak, marks + 1);
    }
  }

  lemma RecordedIsTakenUp(c: Config, e: Event) returns (actions: seq<Action>)
    requires Storable(c, e)
    ensures Gets(c, actions, e, OnceFailed(e, 0), 0, 0, 0)
  {
    hide Run, Peak, Dispatches, Storable;
    actions := Recording(c, e);
    RunIsAllowed(c, actions, 0);
    assert OneRow(e, 0, 0) == TheRow(e, OnceFailed(e, 0), 0);
  }

  lemma OneBatch(c: Config, before: seq<Action>, e: Event, r: Row, n: nat, peak: nat, marks: nat)
    returns (done: seq<Action>)
    requires Gets(c, before, e, r, 0, peak, marks) && Eligible(c, r) && peak <= n && n >= 1
    ensures Gets(c, done, e, Row(r.token, r.key, Failed, r.retries + 1), 0, n, marks + n)
  {
    hide Gets, Eligible;
    var open := OpenAll(c, before, e, r, n, peak, marks);
    done := ReturnAll(c, open, e, r, n, n, marks);
  }

  lemma {:induction false} TakenUp(c: Config, e: Event, n: nat, k: nat) returns (actions: seq<Action>)
    requires Storable(c, e) && n >= 1 && k <= MaxOne(c.maxRetries)
    ensures Gets(c, actions, e, OnceFailed(e, k), 0, if k == 0 then 0 else n, n * k)
  {
    hide Gets, Storable;
    if k == 0 {
      actions := RecordedIsTakenUp(c, e);
      assert n * k == 0;
    } else {
      var before := TakenUp(c, e, n, k - 1);
      actions := OneBatch(c, before, e, OnceFailed(e, k - 1), n, if k == 1 then 0 else n, n * (k - 1));
      assert n * (k - 1) + n == n * k;
    }
  }

  /** The bound is exact: n rounds take the row up together each time it is eligible, and then its handler returns. */
  lemma DispatchBoundIsReached(c: Config, e: Event, n: nat) returns (actions: seq<Action>)
    requires Storable(c, e) && n >= 1
    ensures Peak(c, actions) == n && Dispatches(c, actions, 0) == 1 + n * MaxOne(c.maxRetries)
  {
    var before := TakenUp(c, e, n, MaxOne(c.maxRetries));
    actions := before + [Dispatched(true)];
    OneMore(c, before, Dispatched(true));
    OneMoreDispatch(c, before, Dispatched(true), 0);
    hide Run, Peak, Dispatches;
  }

  /**
   One open round is enough for a processed row to be failed again: the round takes the row up
   while its own handler is still at it.
   */
  lemma HandlerRacesRound(c: Config, e: Event) returns (actions: seq<Action>)
    requires Storable(c, e)
    ensures Peak(c, actions) == 1 && Dispatches(c, actions, 0) == 2 && |actions| > 0
    ensures Run(c, actions[..|actions| - 1]).db.rows == [Row(0, e.key, Processed, 0)]
    ensures Run(c, actions).db.rows == [Row(0, e.key, Failed, 1)]
  {
    var before := RecordedIsTakenUp(c, e);
    var r := OnceFailed(e, 0);
    ThenOpen(c, before, e, r, 0, 0, 0);
    var open := before + [Query];
    var returned := open + [Dispatched(true)];
    actions := returned + [Retry(0, false)];
    OneMore(c, open, Dispatched(true));
    OneMoreDispatch(c, open, Dispatched(true), 0);
    OneMore(c, returned, Retry(0, false));
    OneMoreDispatch(c, returned, Retry(0, false), 0);
    assert actions[..|actions| - 1] == returned;
    ThenRoundFails(c, e, r);
    hide Run, Peak, Dispatches, Step, Marks;
  }

  lemma ThenRoundFails(c: Config, e: Event, r: Row)
    ensures var s := Step(c, TheRow(e, r, 1), Dispatched(true));
            && s.db.rows == [MarkRow(r, true)] && |s.rounds| == 1
            && Marks(TheRow(e, r, 1), Dispatched(true), 0) && Marks(s, Retry(0, false), 0)
            && Step(c, s, Retry(0, false)).db.rows == [MarkRow(MarkRow(r, true), false)]
            && Step(c, s, Retry(0, false)).rounds == []
  {
    assert [0][1..] == [];
  }
}
