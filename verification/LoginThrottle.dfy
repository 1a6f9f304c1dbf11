/**
 The login throttle of one IP address: a failure counter that expires, a soft lock
 enforced on read, and a hard block set on write. Requests interleave: between a
 request's check and the recording of its failure others may run.

 Main result: with at most K requests of the address between check and record, the
 hard block can be reached exactly when K exceeds hard - soft.
 */
module LoginThrottle {

  type Rid = nat

  datatype Config = Config(soft: int, hard: int, inFlight: int)

  predicate Valid(c: Config) {
    c.soft >= 1 && c.hard >= 1 && c.inFlight >= 1
  }

  /**
   Redis' counter (0 when the key is absent), whether it has a TTL, the block key; and the
   requests that found no block, that passed the soft lock, and whose failure was counted.
   */
  datatype State = State(
    count: nat,
    armed: bool,
    blocked: bool,
    arrived: set<Rid>,
    checked: set<Rid>,
    counted: map<Rid, nat>)

  datatype Action =
    | Arrive(r: Rid)        // isBlocked
    | ReadCount(r: Rid)     // failedLoginCount, compared with the soft threshold
    | Fail(r: Rid)          // INCR
    | Follow(r: Rid)        // EXPIRE on the first failure, then the block at the hard threshold
    | Succeed(r: Rid)
    | Die(r: Rid)           // the process serving it ends, between any two of its statements
    | CounterExpires
    | BlockExpires

  const START := State(0, false, false, {}, {}, map[])

  predicate Unknown(s: State, r: Rid) {
    r !in s.arrived && r !in s.checked && r !in s.counted
  }

  /** One step; one that is not possible, or would put more than K requests in flight, changes nothing. */
  function Step(c: Config, s: State, a: Action): State {
    match a
    case Arrive(r) => if Unknown(s, r) && !s.blocked then s.(arrived := s.arrived + {r}) else s
    case ReadCount(r) =>
      if r !in s.arrived || |s.checked| >= c.inFlight then s
      else if s.count < c.soft then s.(arrived := s.arrived - {r}, checked := s.checked + {r})
      else s.(arrived := s.arrived - {r})
    case Fail(r) =>
      if r !in s.checked then s
      else s.(count := s.count + 1, checked := s.checked - {r}, counted := s.counted[r := s.count + 1])
    case Follow(r) =>
      if r !in s.counted then s
      else
        s.(armed := s.armed || s.counted[r] == 1,
           blocked := s.blocked || s.counted[r] >= c.hard,
           counted := s.counted - {r})
    case Succeed(r) => s.(checked := s.checked - {r})
    case Die(r) => s.(arrived := s.arrived - {r}, checked := s.checked - {r}, counted := s.counted - {r})
    case CounterExpires => if s.armed then s.(count := 0, armed := false) else s
    case BlockExpires => s.(blocked := false)
  }

  function Run(c: Config, s: State, actions: seq<Action>): State {
    if actions == [] then s
    else Step(c, Run(c, s, actions[..|actions| - 1]), actions[|actions| - 1])
  }

  // ---------------------------------------------------------------- the counter's ceiling

  /** Failures counted and still to be counted stay below soft + K. */
  predicate SumBounded(c: Config, s: State) {
    s.count + |s.checked| <= c.soft - 1 + c.inFlight
  }

  /** So does every count anyone was given. */
  predicate CountsBounded(c: Config, s: State) {
    forall r :: r in s.counted ==> s.counted[r] <= c.soft - 1 + c.inFlight
  }

  predicate Bounded(c: Config, s: State) {
    SumBounded(c, s) && CountsBounded(c, s)
  }

  lemma OneMoreOrLess(rs: set<Rid>, r: Rid)
    ensures |rs + {r}| <= |rs| + 1
    ensures |rs - {r}| == if r in rs then |rs| - 1 else |rs|
  {
    if r in rs {
      assert rs + {r} == rs;
    } else {
      assert rs - {r} == rs;
    }
  }

  lemma StepKeepsSum(c: Config, s: State, a: Action)
    requires Valid(c) && SumBounded(c, s)
    ensures SumBounded(c, Step(c, s, a))
  {
    match a
    case ReadCount(r) => OneMoreOrLess(s.checked, r);
    case Fail(r) => OneMoreOrLess(s.checked, r);
    case Succeed(r) => OneMoreOrLess(s.checked, r);
    case Die(r) => OneMoreOrLess(s.checked, r);
    case _ =>
  }

  lemma StepKeepsCounts(c: Config, s: State, a: Action)
    requires Valid(c) && Bounded(c, s)
    ensures CountsBounded(c, Step(c, s, a))
  {
    if a.Fail? {
      OneMoreOrLess(s.checked, a.r);
    }
  }

  lemma StepKeepsBounded(c: Config, s: State, a: Action)
    requires Valid(c) && Bounded(c, s)
    ensures Bounded(c, Step(c, s, a))
  {
    StepKeepsSum(c, s, a);
    StepKeepsCounts(c, s, a);
  }

  lemma {:induction false} RunKeepsBounded(c: Config, actions: seq<Action>)
    requires Valid(c)
    ensures Bounded(c, Run(c, START, actions))
  {
    if actions != [] {
      RunKeepsBounded(c, actions[..|actions| - 1]);
      StepKeepsBounded(c, Run(c, START, actions[..|actions| - 1]), actions[|actions| - 1]);
    }
  }

  /** While K is at most hard - soft nobody is ever blocked. */
  lemma {:induction false} NeverBlocked(c: Config, actions: seq<Action>)
    requires Valid(c) && c.inFlight <= c.hard - c.soft
    ensures !Run(c, START, actions).blocked
    ensures Run(c, START, actions).count <= c.soft - 1 + c.inFlight < c.hard
  {
    RunKeepsBounded(c, actions);
    if actions != [] {
      RunKeepsBounded(c, actions[..|actions| - 1]);
      NeverBlocked(c, actions[..|actions| - 1]);
    }
  }

  // ---------------------------------------------------------------- reaching the block

  lemma {:induction false} RunJoin(c: Config, s: State, first: seq<Action>, second: seq<Action>)
    ensures Run(c, s, first + second) == Run(c, Run(c, s, first), second)
  {
    if second == [] {
      assert first + second == first;
    } else {
      assert (first + second)[..|first + second| - 1] == first + second[..|second| - 1];
      RunJoin(c, s, first, second[..|second| - 1]);
    }
  }

  lemma RunOne(c: Config, s: State, actions: seq<Action>, a: Action)
    ensures Run(c, s, actions + [a]) == Step(c, Run(c, s, actions), a)
  {
    assert (actions + [a])[..|actions|] == actions;
  }

  /** n requests, one after the other, each failing before the next arrives. */
  lemma {:induction false} FailInTurn(c: Config, n: nat) returns (actions: seq<Action>)
    requires Valid(c) && n < c.soft && n < c.hard
    ensures Run(c, START, actions) == State(n, n > 0, false, {}, {}, map[])
  {
    actions := [];
    if n > 0 {
      actions := FailInTurn(c, n - 1);
      var s := Run(c, START, actions);
      RunOne(c, START, actions, Arrive(n));
      actions := actions + [Arrive(n)];
      assert Run(c, START, actions) == s.(arrived := {n});
      RunOne(c, START, actions, ReadCount(n));
      actions := actions + [ReadCount(n)];
      assert Run(c, START, actions) == s.(checked := {n});
      RunOne(c, START, actions, Fail(n));
      actions := actions + [Fail(n)];
      assert Run(c, START, actions) == s.(count := n, counted := map[n := n]);
      RunOne(c, START, actions, Follow(n));
      actions := actions + [Follow(n)];
      assert map[n := n] - {n} == map[];
    }
  }

  function Requests(m: nat): set<Rid> {
    if m == 0 then {} else Requests(m - 1) + {m - 1}
  }

  lemma {:induction false} RequestsAre(m: nat, r: Rid)
    ensures r in Requests(m) <==> r < m
  {
    if m > 0 {
      RequestsAre(m - 1, r);
    }
  }

  lemma {:induction false} RequestsCount(m: nat)
    ensures |Requests(m)| == m
  {
    if m > 0 {
      RequestsCount(m - 1);
      RequestsAre(m - 1, m - 1);
    }
  }

  /** m requests pass the check before any of them is recorded. */
  lemma {:induction false} GatherRequests(c: Config, before: seq<Action>, n: nat, armed: bool, m: nat)
    returns (actions: seq<Action>)
    requires Valid(c) && n < c.soft && m <= c.inFlight
    requires Run(c, START, before) == State(n, armed, false, {}, {}, map[])
    ensures Run(c, START, actions) == State(n, armed, false, {}, Requests(m), map[])
  {
    if m == 0 {
      actions := before;
    } else {
      var r := m - 1;
      actions := GatherRequests(c, before, n, armed, r);
      RequestsCount(r);
      RequestsAre(r, r);
      RunOne(c, START, actions, Arrive(r));
      actions := actions + [Arrive(r)];
      assert Run(c, START, actions) == State(n, armed, false, {r}, Requests(r), map[]);
      RunOne(c, START, actions, ReadCount(r));
      actions := actions + [ReadCount(r)];
      assert {r} - {r} == {};
    }
  }

  /** Of m requests that passed together when the count was n, `left` have not failed yet. */
  predicate FailedDownTo(s: State, n: nat, m: nat, left: nat) {
    && left <= m
    && s.count == n + m - left
    && s.checked == Requests(left)
    && (left < m ==> left in s.counted && s.counted[left] == n + m - left)
  }

  lemma OneMoreFails(c: Config, s: State, n: nat, m: nat, left: nat)
    requires left < m && FailedDownTo(s, n, m, left + 1)
    ensures FailedDownTo(Step(c, s, Fail(left)), n, m, left)
  {
    RequestsAre(left, left);
    assert Requests(left + 1) - {left} == Requests(left);
  }

  /** They fail one by one, until `left` are left: the last to fail is told how many that makes. */
  lemma {:induction false} FailTogether(c: Config, before: seq<Action>, n: nat, m: nat, left: nat)
    returns (actions: seq<Action>)
    requires left <= m && FailedDownTo(Run(c, START, before), n, m, m)
    ensures FailedDownTo(Run(c, START, actions), n, m, left)
    decreases m - left
  {
    actions := before;
    if left < m {
      actions := FailTogether(c, before, n, m, left + 1);
      OneMoreFails(c, Run(c, START, actions), n, m, left);
      RunOne(c, START, actions, Fail(left));
      actions := actions + [Fail(left)];
    }
  }

  lemma BlockIsReachable(c: Config) returns (actions: seq<Action>)
    requires Valid(c) && c.inFlight > c.hard - c.soft
    ensures Run(c, START, actions).blocked
  {
    var n := (if c.soft < c.hard then c.soft else c.hard) - 1;
    var m := c.hard - n;
    actions := FailInTurn(c, n);
    actions := GatherRequests(c, actions, n, n > 0, m);
    actions := FailTogether(c, actions, n, m, 0);
    RunOne(c, START, actions, Follow(0));
    actions := actions + [Follow(0)];
  }

  ghost predicate CanBlock(c: Config) {
    exists actions :: Run(c, START, actions).blocked
  }

  /** The hard block is within reach exactly when more than hard - soft requests may be in flight at once. */
  lemma BlockReachableIff(c: Config)
    requires Valid(c)
    ensures CanBlock(c) <==> c.inFlight > c.hard - c.soft
  {
    if c.inFlight > c.hard - c.soft {
      var actions := BlockIsReachable(c);
      assert Run(c, START, actions).blocked;
    } else {
      forall actions
        ensures !Run(c, START, actions).blocked
      {
        NeverBlocked(c, actions);
      }
    }
  }

  // ---------------------------------------------------------------- each request, from arrival to answer

  /**
   A request is at one stage at a time. A counter with a TTL counts something, and only one
   without is still waiting for the request that counted its first failure to set one.
   */
  predicate InOrder(s: State) {
    && s.arrived !! s.checked && s.arrived !! s.counted.Keys && s.checked !! s.counted.Keys
    && (s.armed ==> s.count >= 1)
    && (forall r :: r in s.counted ==> s.counted[r] >= 1)
    && (forall r :: r in s.counted && s.counted[r] == 1 ==> !s.armed && s.count >= 1)
    && (forall q, r :: q in s.counted && r in s.counted && s.counted[q] == 1 && s.counted[r] == 1 ==> q == r)
  }

  lemma FailKeepsOrder(c: Config, s: State, r: Rid)
    requires InOrder(s)
    ensures InOrder(Step(c, s, Fail(r)))
  {
  }

  lemma StepKeepsOrder(c: Config, s: State, a: Action)
    requires InOrder(s)
    ensures InOrder(Step(c, s, a))
  {
    match a
    case Fail(r) => FailKeepsOrder(c, s, r);
    case _ =>
  }

  lemma {:induction false} RunKeepsOrder(c: Config, actions: seq<Action>)
    ensures InOrder(Run(c, START, actions))
  {
    if actions != [] {
      RunKeepsOrder(c, actions[..|actions| - 1]);
      StepKeepsOrder(c, Run(c, START, actions[..|actions| - 1]), actions[|actions| - 1]);
    }
  }

  /** Whatever the state, each request under way can be answered, and is then at no stage any more. */
  lemma RequestCanLeave(c: Config, s: State, r: Rid)
    requires Valid(c) && InOrder(s)
    ensures r in s.arrived && |s.checked| < c.inFlight && s.count >= c.soft ==> Unknown(Step(c, s, ReadCount(r)), r)
    ensures r in s.arrived && |s.checked| < c.inFlight && s.count < c.soft ==>
              Step(c, s, ReadCount(r)) == s.(arrived := s.arrived - {r}, checked := s.checked + {r})
    ensures r in s.checked ==> Unknown(Step(c, s, Succeed(r)), r)
    ensures r in s.checked ==>
              var s1 := Step(c, s, Fail(r));
              r in s1.counted && s1.count == s.count + 1 && Unknown(Step(c, s1, Follow(r)), r)
    ensures Unknown(Step(c, s, Die(r)), r)
  {
  }

  predicate Without(actions: seq<Action>, a: Action) {
    forall k :: 0 <= k < |actions| ==> actions[k] != a
  }

  lemma StepKeepsBlocked(c: Config, s: State, a: Action, r: Rid)
    requires s.blocked && a != BlockExpires && Unknown(s, r)
    ensures Step(c, s, a).blocked && Unknown(Step(c, s, a), r)
  {
  }

  /** While the block stands no new request gets as far as the soft lock. */
  lemma {:induction false} BlockedServesNobody(c: Config, s: State, actions: seq<Action>, r: Rid)
    requires s.blocked && Without(actions, BlockExpires) && Unknown(s, r)
    ensures Run(c, s, actions).blocked && Unknown(Run(c, s, actions), r)
  {
    if actions != [] {
      var n := |actions| - 1;
      assert forall k :: 0 <= k < n ==> actions[..n][k] == actions[k];
      hide Step, Unknown;
      BlockedServesNobody(c, s, actions[..n], r);
      StepKeepsBlocked(c, Run(c, s, actions[..n]), actions[n], r);
    }
  }

  lemma StepKeepsSoftLock(c: Config, s: State, a: Action)
    requires s.count >= c.soft && a != CounterExpires
    ensures Step(c, s, a).count >= c.soft && Step(c, s, a).checked <= s.checked
  {
  }

  /** While the counter stands at the soft threshold no request passes it. */
  lemma {:induction false} SoftLockServesNobody(c: Config, s: State, actions: seq<Action>)
    requires s.count >= c.soft && Without(actions, CounterExpires)
    ensures Run(c, s, actions).count >= c.soft && Run(c, s, actions).checked <= s.checked
  {
    if actions != [] {
      var n := |actions| - 1;
      assert forall k :: 0 <= k < n ==> actions[..n][k] == actions[k];
      hide Step;
      SoftLockServesNobody(c, s, actions[..n]);
      StepKeepsSoftLock(c, Run(c, s, actions[..n]), actions[n]);
    }
  }

  /** Once counter and block have expired the next request is served. */
  lemma ServedAfterExpiry(c: Config, s: State, r: Rid)
    requires Valid(c) && s.armed && Unknown(s, r) && |s.checked| < c.inFlight
    ensures var s1 := Step(c, Step(c, s, CounterExpires), BlockExpires);
            s1.count == 0 && !s1.blocked && r in Step(c, Step(c, s1, Arrive(r)), ReadCount(r)).checked
  {
  }

  // ---------------------------------------------------------------- a counter that never expires

  /** The counter stands without a TTL, and nobody is left to set one. */
  predicate Abandoned(s: State) {
    s.count > 0 && !s.armed && forall r :: r in s.counted ==> s.counted[r] != 1
  }

  /** The process dies between the first failure's INCR and its EXPIRE. */
  predicate FirstDies(s: State, a: Action) {
    a.Die? && a.r in s.counted && s.counted[a.r] == 1
  }

  lemma StepAbandonsIff(c: Config, s: State, a: Action)
    requires InOrder(s)
    ensures Abandoned(Step(c, s, a)) <==> Abandoned(s) || FirstDies(s, a)
  {
    var s' := Step(c, s, a);
    if a.Fail? && a.r in s.checked && s.count == 0 {
      assert s'.counted[a.r] == 1;
    } else if s.count > 0 && !s.armed && !Abandoned(s) {
      var r :| r in s.counted && s.counted[r] == 1;
      assert a != Follow(r) && a != Die(r) ==> r in s'.counted && s'.counted[r] == 1;
    }
  }

  predicate FirstDiesAt(c: Config, actions: seq<Action>, k: nat)
    requires k < |actions|
  {
    FirstDies(Run(c, START, actions[..k]), actions[k])
  }

  /** Over every run a counter is without hope of a TTL if and only if some process died just before setting one. */
  lemma {:induction false} AbandonedIffFirstDied(c: Config, actions: seq<Action>)
    ensures Abandoned(Run(c, START, actions)) <==> exists k :: 0 <= k < |actions| && FirstDiesAt(c, actions, k)
  {
    if actions != [] {
      var n := |actions| - 1;
      var s := Run(c, START, actions[..n]);
      RunKeepsOrder(c, actions[..n]);
      StepAbandonsIff(c, s, actions[n]);
      AbandonedIffFirstDied(c, actions[..n]);
      hide Abandoned, FirstDies, Step, InOrder;
      forall k | 0 <= k < n
        ensures FirstDiesAt(c, actions, k) <==> FirstDiesAt(c, actions[..n], k)
      {
        assert actions[..n][..k] == actions[..k];
      }
      if Abandoned(s) {
        var k :| 0 <= k < n && FirstDiesAt(c, actions[..n], k);
        assert FirstDiesAt(c, actions, k);
      }
      assert FirstDiesAt(c, actions, n) <==> FirstDies(s, actions[n]);
    }
  }

  ghost predicate CanExpire(c: Config, s: State) {
    exists more :: Run(c, s, more).count == 0
  }

  lemma {:induction false} AbandonedStays(c: Config, s: State, more: seq<Action>)
    requires InOrder(s) && Abandoned(s)
    ensures InOrder(Run(c, s, more)) && Abandoned(Run(c, s, more)) && Run(c, s, more).count >= s.count
  {
    if more != [] {
      var n := |more| - 1;
      AbandonedStays(c, s, more[..n]);
      StepKeepsOrder(c, Run(c, s, more[..n]), more[n]);
      StepAbandonsIff(c, Run(c, s, more[..n]), more[n]);
    }
  }

  lemma ArmedExpires(c: Config, s: State)
    requires s.armed
    ensures Step(c, s, CounterExpires).count == 0
  {
  }

  lemma FollowArms(c: Config, s: State, r: Rid)
    requires r in s.counted && s.counted[r] == 1
    ensures Step(c, s, Follow(r)).armed
  {
  }

  lemma CanExpireIfAlive(c: Config, s: State)
    requires s.count > 0 && !Abandoned(s)
    ensures CanExpire(c, s)
  {
    hide Step;
    var more := [];
    assert Run(c, s, more) == s;
    if !s.armed {
      var r :| r in s.counted && s.counted[r] == 1;
      FollowArms(c, s, r);
      RunOne(c, s, more, Follow(r));
      more := more + [Follow(r)];
    }
    hide Run;
    ArmedExpires(c, Run(c, s, more));
    RunOne(c, s, more, CounterExpires);
    assert Run(c, s, more + [CounterExpires]).count == 0;
  }

  /** A counter, once it counts, can ever go back to 0 if and only if it is not abandoned. */
  lemma ExpiresIff(c: Config, s: State)
    requires InOrder(s) && s.count > 0
    ensures CanExpire(c, s) <==> !Abandoned(s)
  {
    hide InOrder, Run;
    if Abandoned(s) {
      forall more
        ensures Run(c, s, more).count != 0
      {
        AbandonedStays(c, s, more);
      }
    } else {
      CanExpireIfAlive(c, s);
    }
  }

  /** An abandoned counter at the soft threshold shuts its address out for good. */
  lemma {:induction false} ShutOutForGood(c: Config, s: State, more: seq<Action>)
    requires InOrder(s) && Abandoned(s) && s.count >= c.soft
    ensures Run(c, s, more).count >= c.soft && Run(c, s, more).checked <= s.checked
  {
    if more != [] {
      var n := |more| - 1;
      ShutOutForGood(c, s, more[..n]);
      AbandonedStays(c, s, more[..n]);
      AbandonedIsNotArmed(Run(c, s, more[..n]));
      hide Step, Abandoned, InOrder;
      if more[n] == CounterExpires {
        NothingExpires(c, Run(c, s, more[..n]));
      } else {
        StepKeepsSoftLock(c, Run(c, s, more[..n]), more[n]);
      }
    }
  }

  lemma AbandonedIsNotArmed(s: State)
    requires Abandoned(s)
    ensures !s.armed
  {
  }

  lemma NothingExpires(c: Config, s: State)
    requires !s.armed
    ensures Step(c, s, CounterExpires) == s
  {
  }

  /** One request after the other fails, the first one's process dying before EXPIRE. */
  lemma {:induction false} FirstDiesThenFail(c: Config, n: nat) returns (actions: seq<Action>)
    requires Valid(c) && 1 <= n <= c.soft
    ensures Run(c, START, actions) == State(n, false, false, {}, {}, map[])
  {
    var s := START;
    actions := [];
    if n > 1 {
      actions := FirstDiesThenFail(c, n - 1);
      s := Run(c, START, actions);
    }
    RunOne(c, START, actions, Arrive(n));
    actions := actions + [Arrive(n)];
    assert Run(c, START, actions) == s.(arrived := {n});
    RunOne(c, START, actions, ReadCount(n));
    actions := actions + [ReadCount(n)];
    assert Run(c, START, actions) == s.(checked := {n});
    RunOne(c, START, actions, Fail(n));
    actions := actions + [Fail(n)];
    assert Run(c, START, actions) == s.(count := n, counted := map[n := n]);
    RunOne(c, START, actions, Die(n));
    actions := actions + [Die(n)];
    assert map[n := n] - {n} == map[];
  }

  /** So there is a run after which the address is shut out whatever follows, although nobody is blocked. */
  lemma DeathShutsOut(c: Config) returns (actions: seq<Action>)
    requires Valid(c)
    ensures var s := Run(c, START, actions);
            && !s.blocked && s.count == c.soft && Abandoned(s)
            && forall more :: Run(c, s, more).checked == {} && Run(c, s, more).count >= c.soft
  {
    actions := FirstDiesThenFail(c, c.soft);
    RunKeepsOrder(c, actions);
    var s := Run(c, START, actions);
    forall more
      ensures Run(c, s, more).checked == {} && Run(c, s, more).count >= c.soft
    {
      ShutOutForGood(c, s, more);
    }
  }

  // ---------------------------------------------------------------- the middleware in its own form

  datatype Verdict = Allowed | IpBlocked | SoftLocked

  /** The three Redis keys of one address, changed in place. */
  class AbuseDetection {
    const config: Config
    var count: nat
    var armed: bool
    var blocked: bool

    constructor (config: Config)
      ensures this.config == config && count == 0 && !armed && !blocked
    {
      this.config := config;
      count, armed, blocked := 0, false, false;
    }

    /** The keys, with the given requests in flight. */
    function Keys(arrived: set<Rid>, checked: set<Rid>, counted: map<Rid, nat>): State
      reads this
    {
      State(count, armed, blocked, arrived, checked, counted)
    }

    /** Read-only: an undisturbed check is Arrive followed by ReadCount. */
    method CheckIpBlock(r: Rid) returns (verdict: Verdict)
      requires config.inFlight >= 1
      ensures verdict.IpBlocked? <==> blocked
      ensures verdict.Allowed? <==>
                r in Step(config, Step(config, Keys({}, {}, map[]), Arrive(r)), ReadCount(r)).checked
    {
      if blocked {
        return IpBlocked;
      }
      assert Step(config, Keys({}, {}, map[]), Arrive(r)) == Keys({r}, {}, map[]);
      if count >= config.soft {
        return SoftLocked;
      }
      return Allowed;
    }

    /** increment: INCR, and EXPIRE when this was the first failure. */
    method Increment() returns (n: nat)
      modifies this`count, this`armed
      ensures n == count == old(count) + 1
      ensures armed == (old(armed) || n == 1)
    {
      count := count + 1;
      if count == 1 {
        armed := true;
      }
      n := count;
    }

    /** Undisturbed, recording a failure is Fail followed by Follow. */
    method RecordFailedLogin(r: Rid)
      modifies this
      ensures Keys({}, {}, map[]) ==
              Step(config, Step(config, old(Keys({}, {r}, map[])), Fail(r)), Follow(r))
    {
      assert {r} - {r} == {};
      assert map[r := count + 1] - {r} == map[];
      var n := Increment();
      if n >= config.hard {
        blocked := true;
      }
    }
  }
}
