/**
 Callers of enqueueRewardIssuance racing with one another and with the worker: a read, an
 insert under a unique key, and a queue that drops a job whose id it already holds, but
 forgets completed jobs. A caller may crash between any two of its statements: before the
 read, the insert or the add to the queue, and between that add and its answer.
 */
module Issuance {
  import opened Options

  datatype Status = Pending | Confirmed(txHash: string) | Failed(error: string)

  datatype Row = Row(id: nat, key: string, status: Status, attempts: nat)

  function FindKey(rows: seq<Row>, key: string): (at: Option<nat>)
    ensures at.Some? ==> at.value < |rows| && rows[at.value].key == key
    ensures at.None? ==> forall i :: 0 <= i < |rows| ==> rows[i].key != key
  {
    if rows == [] then None
    else if rows[|rows| - 1].key == key then Some(|rows| - 1)
    else FindKey(rows[..|rows| - 1], key)
  }

  /** An existing record, as the duplicate answer shows it. */
  datatype Seen = Seen(id: nat, status: Status)

  /** What a crashed caller leaves behind. */
  datatype Left = NoRow | RowWithoutJob(id: nat) | RowWithJob(id: nat)

  datatype Stage =
    | Arrived
    | Missed                          // the read found no record
    | Created(id: nat)                // the insert went through
    | LostRace                        // the insert hit the unique key
    | Added(id: nat)                  // queue.add has returned
    | Queued(id: nat)                 // answered queued: true
    | Duplicate(seen: Option<Seen>)   // answered duplicate: true
    | Crashed(left: Left)

  datatype Caller = Caller(key: string, stage: Stage)

  /**
   `creators` names the caller that inserted each row, and `added` lists every job the queue
   ever took; both are for the statements only. `queue` holds the jobs not completed yet.
   */
  datatype State = State(
    rows: seq<Row>, creators: seq<nat>, nextId: nat, queue: seq<string>, added: seq<string>, callers: seq<Caller>)

  const EMPTY := State([], [], 1, [], [], [])

  datatype Action =
    | Arrive(key: string)
    | Advance(c: nat)
    | Crash(c: nat)
    | Work(row: nat, status: Status)  // the worker counts an attempt and writes a status
    | Complete(job: nat)              // a completed job is removed

  function See(rows: seq<Row>, key: string): Option<Seen> {
    match FindKey(rows, key)
    case Some(i) => Some(Seen(rows[i].id, rows[i].status))
    case None => None
  }

  function WithStage(s: State, c: nat, stage: Stage): seq<Caller>
    requires c < |s.callers|
  {
    s.callers[c := Caller(s.callers[c].key, stage)]
  }

  function AdvanceCaller(s: State, c: nat): State
    requires c < |s.callers|
  {
    var key := s.callers[c].key;
    match s.callers[c].stage
    case Arrived =>
      s.(callers := WithStage(s, c, if See(s.rows, key).Some? then Duplicate(See(s.rows, key)) else Missed))
    case Missed =>
      // A serial id is used up even when the insert fails.
      if FindKey(s.rows, key).Some? then s.(nextId := s.nextId + 1, callers := WithStage(s, c, LostRace))
      else State(s.rows + [Row(s.nextId, key, Pending, 0)], s.creators + [c], s.nextId + 1, s.queue, s.added,
                 WithStage(s, c, Created(s.nextId)))
    case LostRace => s.(callers := WithStage(s, c, Duplicate(See(s.rows, key))))
    case Created(id) =>
      if key in s.queue then s.(callers := WithStage(s, c, Added(id)))
      else State(s.rows, s.creators, s.nextId, s.queue + [key], s.added + [key], WithStage(s, c, Added(id)))
    case Added(id) => s.(callers := WithStage(s, c, Queued(id)))
    case _ => s
  }

  predicate Answered(stage: Stage) {
    stage.Queued? || stage.Duplicate?
  }

  predicate Ended(stage: Stage) {
    Answered(stage) || stage.Crashed?
  }

  function LeftBy(stage: Stage): Left {
    match stage
    case Created(id) => RowWithoutJob(id)
    case Added(id) => RowWithJob(id)
    case _ => NoRow
  }

  function Step(s: State, a: Action): State {
    match a
    case Arrive(key) => s.(callers := s.callers + [Caller(key, Arrived)])
    case Advance(c) => if c < |s.callers| then AdvanceCaller(s, c) else s
    case Crash(c) =>
      if c < |s.callers| && !Ended(s.callers[c].stage) then
        s.(callers := WithStage(s, c, Crashed(LeftBy(s.callers[c].stage))))
      else s
    case Work(row, status) =>
      if row < |s.rows| then
        s.(rows := s.rows[row := Row(s.rows[row].id, s.rows[row].key, status, s.rows[row].attempts + 1)])
      else s
    case Complete(job) => if job < |s.queue| then s.(queue := s.queue[..job] + s.queue[job + 1..]) else s
  }

  function RunFrom(s: State, actions: seq<Action>): State {
    if actions == [] then s else Step(RunFrom(s, actions[..|actions| - 1]), actions[|actions| - 1])
  }

  function Run(actions: seq<Action>): State {
    RunFrom(EMPTY, actions)
  }

  // ---------------------------------------------------------------- invariant

  predicate UniqueKeys(rows: seq<Row>) {
    forall i, j :: 0 <= i < j < |rows| ==> rows[i].key != rows[j].key
  }

  predicate FreshIds(rows: seq<Row>, nextId: nat) {
    && (forall i :: 0 <= i < |rows| ==> rows[i].id < nextId)
    && (forall i, j :: 0 <= i < j < |rows| ==> rows[i].id != rows[j].id)
  }

  predicate NoRepeats(keys: seq<string>) {
    forall i, j :: 0 <= i < j < |keys| ==> keys[i] != keys[j]
  }

  /** The row a caller has inserted, if it has. */
  function RowOf(stage: Stage): Option<nat> {
    match stage
    case Created(id) => Some(id)
    case Added(id) => Some(id)
    case Queued(id) => Some(id)
    case Crashed(RowWithoutJob(id)) => Some(id)
    case Crashed(RowWithJob(id)) => Some(id)
    case _ => None
  }

  /** The caller's add to the queue has gone through. */
  predicate HasAdded(stage: Stage) {
    stage.Added? || stage.Queued? || (stage.Crashed? && stage.left.RowWithJob?)
  }

  /** Row i was inserted by a caller with its key. */
  predicate RowIsCreators(rows: seq<Row>, creators: seq<nat>, callers: seq<Caller>, i: nat)
    requires i < |rows| && |creators| == |rows|
  {
    && creators[i] < |callers|
    && callers[creators[i]].key == rows[i].key
    && RowOf(callers[creators[i]].stage) == Some(rows[i].id)
  }

  predicate CreatedRow(rows: seq<Row>, creators: seq<nat>, c: nat, id: nat, i: nat) {
    i < |rows| && i < |creators| && creators[i] == c && rows[i].id == id
  }

  predicate SeenRow(rows: seq<Row>, key: string, seen: Seen, i: nat) {
    i < |rows| && rows[i].key == key && rows[i].id == seen.id
  }

  ghost predicate CallerInv(rows: seq<Row>, creators: seq<nat>, caller: Caller, c: nat) {
    && (RowOf(caller.stage).Some? ==> exists i: nat :: CreatedRow(rows, creators, c, RowOf(caller.stage).value, i))
    && (caller.stage.LostRace? ==> FindKey(rows, caller.key).Some?)
    && (caller.stage.Duplicate? ==>
          caller.stage.seen.Some? && exists i: nat :: SeenRow(rows, caller.key, caller.stage.seen.value, i))
  }

  /** A row's key was added to the queue exactly when its creator got that far. */
  predicate AddedInv(rows: seq<Row>, creators: seq<nat>, callers: seq<Caller>, added: seq<string>)
    requires |creators| == |rows|
  {
    && NoRepeats(added)
    && (forall k :: 0 <= k < |added| ==> FindKey(rows, added[k]).Some?)
    && (forall i :: 0 <= i < |rows| && creators[i] < |callers| ==>
          (rows[i].key in added <==> HasAdded(callers[creators[i]].stage)))
  }

  ghost predicate RowsInv(s: State) {
    && |s.creators| == |s.rows|
    && UniqueKeys(s.rows)
    && FreshIds(s.rows, s.nextId)
    && forall i :: 0 <= i < |s.rows| ==> RowIsCreators(s.rows, s.creators, s.callers, i)
  }

  ghost predicate CallersInv(s: State) {
    forall c :: 0 <= c < |s.callers| ==> CallerInv(s.rows, s.creators, s.callers[c], c)
  }

  ghost predicate QueueInv(s: State)
    requires |s.creators| == |s.rows|
  {
    && AddedInv(s.rows, s.creators, s.callers, s.added)
    && forall k :: 0 <= k < |s.queue| ==> s.queue[k] in s.added
  }

  ghost predicate Inv(s: State) {
    RowsInv(s) && CallersInv(s) && QueueInv(s)
  }

  // ---------------------------------------------------------------- preservation

  lemma SameKeySameRow(rows: seq<Row>, i: nat, j: nat)
    requires UniqueKeys(rows) && i < |rows| && j < |rows|
    ensures rows[i].key == rows[j].key ==> i == j
  {
  }

  /** Rows may be added, and their status and attempts change. */
  predicate Continues(rows: seq<Row>, rows': seq<Row>) {
    |rows| <= |rows'| && forall i :: 0 <= i < |rows| ==> rows'[i].id == rows[i].id && rows'[i].key == rows[i].key
  }

  lemma StillFound(rows: seq<Row>, rows': seq<Row>, key: string)
    requires Continues(rows, rows') && FindKey(rows, key).Some?
    ensures FindKey(rows', key).Some?
  {
    assert rows'[FindKey(rows, key).value].key == key;
  }

  lemma CallerStays(rows: seq<Row>, rows': seq<Row>, creators: seq<nat>, creators': seq<nat>, caller: Caller, c: nat)
    requires Continues(rows, rows') && creators <= creators' && CallerInv(rows, creators, caller, c)
    ensures CallerInv(rows', creators', caller, c)
  {
    if RowOf(caller.stage).Some? {
      var i: nat :| CreatedRow(rows, creators, c, RowOf(caller.stage).value, i);
      assert CreatedRow(rows', creators', c, RowOf(caller.stage).value, i);
    } else if caller.stage.LostRace? {
      StillFound(rows, rows', caller.key);
    } else if caller.stage.Duplicate? {
      var i: nat :| SeenRow(rows, caller.key, caller.stage.seen.value, i);
      assert SeenRow(rows', caller.key, caller.stage.seen.value, i);
    }
  }

  lemma CallersStay(s: State, rows': seq<Row>, creators': seq<nat>)
    requires CallersInv(s) && Continues(s.rows, rows') && s.creators <= creators'
    ensures forall c :: 0 <= c < |s.callers| ==> CallerInv(rows', creators', s.callers[c], c)
  {
    forall c | 0 <= c < |s.callers|
      ensures CallerInv(rows', creators', s.callers[c], c)
    {
      CallerStays(s.rows, rows', s.creators, creators', s.callers[c], c);
    }
  }

  lemma WorkKeepsInv(s: State, row: nat, status: Status)
    requires Inv(s) && row < |s.rows|
    ensures Inv(Step(s, Work(row, status)))
  {
    var s' := Step(s, Work(row, status));
    CallersStay(s, s'.rows, s.creators);
    forall k | 0 <= k < |s.added|
      ensures FindKey(s'.rows, s.added[k]).Some?
    {
      StillFound(s.rows, s'.rows, s.added[k]);
    }
    forall i | 0 <= i < |s.rows|
      ensures RowIsCreators(s'.rows, s.creators, s.callers, i)
    {
      assert RowIsCreators(s.rows, s.creators, s.callers, i);
    }
  }

  lemma CompleteKeepsInv(s: State, job: nat)
    requires Inv(s) && job < |s.queue|
    ensures Inv(Step(s, Complete(job)))
  {
    var s' := Step(s, Complete(job));
    hide RowIsCreators, UniqueKeys, FreshIds, CallerInv, AddedInv;
    forall k | 0 <= k < |s'.queue|
      ensures s'.queue[k] in s.added
    {
      assert s'.queue[k] == s.queue[if k < job then k else k + 1];
    }
  }

  /**
   A caller moves to a stage with the same row, if any, and the same progress with the
   queue: it reads, crashes, or answers.
   */
  lemma MoveKeepsInv(s: State, c: nat, stage: Stage, nextId: nat)
    requires Inv(s) && c < |s.callers| && nextId >= s.nextId
    requires RowOf(stage) == RowOf(s.callers[c].stage) && HasAdded(stage) == HasAdded(s.callers[c].stage)
    requires CallerInv(s.rows, s.creators, Caller(s.callers[c].key, stage), c)
    ensures Inv(s.(nextId := nextId, callers := WithStage(s, c, stage)))
  {
    hide CallerInv, FindKey, RowOf, HasAdded;
    forall i | 0 <= i < |s.rows|
      ensures RowIsCreators(s.rows, s.creators, WithStage(s, c, stage), i)
    {
      assert RowIsCreators(s.rows, s.creators, s.callers, i);
    }
  }

  /** A new row of a caller that had none. */
  lemma RowsMore(s: State, c: nat, row: Row)
    requires RowsInv(s) && c < |s.callers| && RowOf(s.callers[c].stage).None?
    requires row.id == s.nextId && row.key == s.callers[c].key && FindKey(s.rows, row.key).None?
    ensures RowsInv(s.(rows := s.rows + [row], creators := s.creators + [c], nextId := s.nextId + 1,
                       callers := WithStage(s, c, Created(row.id))))
    ensures forall i :: 0 <= i < |s.rows| ==> s.creators[i] != c
  {
    var (rows', creators', callers') := (s.rows + [row], s.creators + [c], WithStage(s, c, Created(row.id)));
    forall i | 0 <= i < |rows'|
      ensures RowIsCreators(rows', creators', callers', i)
      ensures i < |s.rows| ==> s.creators[i] != c
    {
      assert i < |s.rows| ==> RowIsCreators(s.rows, s.creators, s.callers, i);
    }
  }

  lemma AddedStays(s: State, c: nat, row: Row)
    requires |s.creators| == |s.rows| && c < |s.callers| && AddedInv(s.rows, s.creators, s.callers, s.added)
    requires FindKey(s.rows, row.key).None? && forall i :: 0 <= i < |s.rows| ==> s.creators[i] != c
    ensures AddedInv(s.rows + [row], s.creators + [c], WithStage(s, c, Created(row.id)), s.added)
  {
    assert !HasAdded(Created(row.id));
    hide NoRepeats, HasAdded;
    forall k | 0 <= k < |s.added|
      ensures FindKey(s.rows + [row], s.added[k]).Some? && s.added[k] != row.key
    {
      StillFound(s.rows, s.rows + [row], s.added[k]);
    }
  }

  lemma CreateKeepsInv(s: State, c: nat)
    requires Inv(s) && c < |s.callers| && s.callers[c].stage.Missed? && FindKey(s.rows, s.callers[c].key).None?
    ensures Inv(AdvanceCaller(s, c))
  {
    var s' := AdvanceCaller(s, c);
    var row := Row(s.nextId, s.callers[c].key, Pending, 0);
    RowsMore(s, c, row);
    AddedStays(s, c, row);
    hide RowsInv, FindKey, AddedInv, See;
    CallersStay(s, s'.rows, s'.creators);
    assert CreatedRow(s'.rows, s'.creators, c, row.id, |s.rows|);
  }

  /** The row of a caller that has one, and that it is the caller's. */
  lemma RowOfCaller(s: State, c: nat) returns (i: nat)
    requires Inv(s) && c < |s.callers| && RowOf(s.callers[c].stage).Some?
    ensures i < |s.rows| && i < |s.creators| && s.creators[i] == c
    ensures s.rows[i].id == RowOf(s.callers[c].stage).value && s.rows[i].key == s.callers[c].key
    ensures s.rows[i].key in s.added <==> HasAdded(s.callers[c].stage)
  {
    i :| CreatedRow(s.rows, s.creators, c, RowOf(s.callers[c].stage).value, i);
    assert RowIsCreators(s.rows, s.creators, s.callers, i);
  }

  /** The creator's key has not been added: whatever the queue has forgotten, this is its first job. */
  lemma FirstJob(s: State, c: nat)
    requires Inv(s) && c < |s.callers| && s.callers[c].stage.Created?
    ensures s.callers[c].key !in s.added && s.callers[c].key !in s.queue
  {
    var i := RowOfCaller(s, c);
  }

  /** Row `at` gets its job: its creator moves on, and no other row has the key. */
  lemma AddedMore(s: State, c: nat, id: nat, at: nat)
    requires RowsInv(s) && c < |s.callers| && AddedInv(s.rows, s.creators, s.callers, s.added)
    requires at < |s.rows| && at < |s.creators| && s.creators[at] == c && s.rows[at].key == s.callers[c].key
    requires s.callers[c].key !in s.added
    ensures AddedInv(s.rows, s.creators, WithStage(s, c, Added(id)), s.added + [s.callers[c].key])
  {
    var (key, callers') := (s.callers[c].key, WithStage(s, c, Added(id)));
    assert FindKey(s.rows, key).Some?;
    hide FindKey;
    forall i | 0 <= i < |s.rows|
      ensures s.creators[i] < |callers'|
           && (s.rows[i].key in s.added + [key] <==> HasAdded(callers'[s.creators[i]].stage))
    {
      assert RowIsCreators(s.rows, s.creators, s.callers, i);
      SameKeySameRow(s.rows, i, at);
    }
  }

  lemma RowsStay(s: State, c: nat, id: nat, queue: seq<string>, added: seq<string>)
    requires RowsInv(s) && c < |s.callers| && s.callers[c].stage == Created(id)
    ensures RowsInv(s.(queue := queue, added := added, callers := WithStage(s, c, Added(id))))
  {
    forall i | 0 <= i < |s.rows|
      ensures RowIsCreators(s.rows, s.creators, WithStage(s, c, Added(id)), i)
    {
      assert RowIsCreators(s.rows, s.creators, s.callers, i);
    }
  }

  lemma QueueKeepsInv(s: State, c: nat)
    requires Inv(s) && c < |s.callers| && s.callers[c].stage.Created?
    ensures Inv(AdvanceCaller(s, c))
  {
    var s' := AdvanceCaller(s, c);
    var (key, id) := (s.callers[c].key, s.callers[c].stage.id);
    FirstJob(s, c);
    var at := RowOfCaller(s, c);
    AddedMore(s, c, id, at);
    RowsStay(s, c, id, s'.queue, s'.added);
    hide RowsInv, AddedInv, FindKey;
    forall k | 0 <= k < |s'.queue|
      ensures s'.queue[k] in s'.added
    {
      assert k < |s.queue| ==> s'.queue[k] == s.queue[k];
      assert s'.added[|s.added|] == key;
    }
  }

  lemma CrashKeepsInv(s: State, c: nat)
    requires Inv(s) && c < |s.callers| && !Ended(s.callers[c].stage)
    ensures Inv(Step(s, Crash(c)))
  {
    hide AddedInv, RowsInv, FindKey;
    MoveKeepsInv(s, c, Crashed(LeftBy(s.callers[c].stage)), s.nextId);
  }

  lemma SeeFinds(rows: seq<Row>, key: string)
    ensures See(rows, key).Some? <==> FindKey(rows, key).Some?
    ensures See(rows, key).Some? ==> exists i: nat :: SeenRow(rows, key, See(rows, key).value, i)
  {
    if FindKey(rows, key).Some? {
      assert SeenRow(rows, key, See(rows, key).value, FindKey(rows, key).value);
    }
  }

  lemma AdvanceKeepsInv(s: State, c: nat)
    requires Inv(s) && c < |s.callers|
    ensures Inv(AdvanceCaller(s, c))
  {
    var key := s.callers[c].key;
    SeeFinds(s.rows, key);
    hide RowsInv, AddedInv, FindKey, See;
    match s.callers[c].stage
    case Arrived =>
      MoveKeepsInv(s, c, if See(s.rows, key).Some? then Duplicate(See(s.rows, key)) else Missed, s.nextId);
    case Missed =>
      if FindKey(s.rows, key).Some? {
        MoveKeepsInv(s, c, LostRace, s.nextId + 1);
      } else {
        CreateKeepsInv(s, c);
      }
    case LostRace => MoveKeepsInv(s, c, Duplicate(See(s.rows, key)), s.nextId);
    case Created(_) => QueueKeepsInv(s, c);
    case Added(id) => MoveKeepsInv(s, c, Queued(id), s.nextId);
    case _ =>
  }

  lemma ArriveKeepsInv(s: State, key: string)
    requires Inv(s)
    ensures Inv(Step(s, Arrive(key)))
  {
    forall i | 0 <= i < |s.rows|
      ensures RowIsCreators(s.rows, s.creators, Step(s, Arrive(key)).callers, i) && s.creators[i] < |s.callers|
    {
      assert RowIsCreators(s.rows, s.creators, s.callers, i);
    }
  }

  lemma StepKeepsInv(s: State, a: Action)
    requires Inv(s)
    ensures Inv(Step(s, a))
  {
    hide Inv;
    match a
    case Arrive(key) => ArriveKeepsInv(s, key);
    case Advance(c) =>
      if c < |s.callers| {
        AdvanceKeepsInv(s, c);
      }
    case Crash(c) =>
      if c < |s.callers| && !Ended(s.callers[c].stage) {
        CrashKeepsInv(s, c);
      }
    case Work(row, status) =>
      if row < |s.rows| {
        WorkKeepsInv(s, row, status);
      }
    case Complete(job) =>
      if job < |s.queue| {
        CompleteKeepsInv(s, job);
      }
  }

  lemma {:induction false} RunFromKeepsInv(s: State, actions: seq<Action>)
    requires Inv(s)
    ensures Inv(RunFrom(s, actions))
  {
    hide Inv, Step;
    if actions != [] {
      RunFromKeepsInv(s, actions[..|actions| - 1]);
      StepKeepsInv(RunFrom(s, actions[..|actions| - 1]), actions[|actions| - 1]);
    }
  }

  lemma RunKeepsInv(actions: seq<Action>)
    ensures Inv(Run(actions))
  {
    RunFromKeepsInv(EMPTY, actions);
  }

  // ---------------------------------------------------------------- what callers are told

  predicate ToldQueued(s: State, c: nat, key: string) {
    c < |s.callers| && s.callers[c].key == key && s.callers[c].stage.Queued?
  }

  /** Over every run a key has at most one row, at most one job ever, and at most one caller told queued: true. */
  lemma AtMostOnce(actions: seq<Action>, c: nat, d: nat, key: string)
    ensures var s := Run(actions);
            && UniqueKeys(s.rows) && NoRepeats(s.added)
            && (ToldQueued(s, c, key) && ToldQueued(s, d, key) ==> c == d)
            && (ToldQueued(s, c, key) ==> key in s.added)
  {
    RunKeepsInv(actions);
    var s := Run(actions);
    if ToldQueued(s, c, key) {
      var i := RowOfCaller(s, c);
      if ToldQueued(s, d, key) {
        var j := RowOfCaller(s, d);
        SameKeySameRow(s.rows, i, j);
      }
    }
  }

  /** The table has a row with the key, with what was seen. */
  predicate ShownBy(rows: seq<Row>, key: string, seen: Seen) {
    exists i :: 0 <= i < |rows| && rows[i].key == key && rows[i].id == seen.id && rows[i].status == seen.status
  }

  lemma AnswersDuplicate(s: State, a: Action, c: nat)
    requires c < |Step(s, a).callers| && Step(s, a).callers[c].stage.Duplicate?
    requires Step(s, a).callers[c].stage.seen.Some?
    requires c >= |s.callers| || s.callers[c].stage != Step(s, a).callers[c].stage
    ensures ShownBy(s.rows, Step(s, a).callers[c].key, Step(s, a).callers[c].stage.seen.value)
    ensures c < |s.callers| && !Answered(s.callers[c].stage)
  {
    if c < |s.callers| && a == Advance(c) {
      var at := FindKey(s.rows, s.callers[c].key);
      assert at.Some?;
      assert s.rows[at.value].key == s.callers[c].key;
    }
    hide FindKey;
  }

  /**
   Whoever is told of a duplicate is shown the record of its key as it is in the table the moment it
   is answered, whatever the worker has made of it by then.
   */
  lemma {:induction false} DuplicateShowsTheRow(actions: seq<Action>, c: nat) returns (n: nat)
    requires c < |Run(actions).callers| && Run(actions).callers[c].stage.Duplicate?
    ensures Run(actions).callers[c].stage.seen.Some?
    ensures n < |actions| && c < |Run(actions[..n]).callers| && !Answered(Run(actions[..n]).callers[c].stage)
    ensures ShownBy(Run(actions[..n]).rows, Run(actions).callers[c].key, Run(actions).callers[c].stage.seen.value)
  {
    SomethingIsSeen(actions, c);
    n := |actions| - 1;
    var s := Run(actions[..n]);
    if c < |s.callers| && s.callers[c].stage == Run(actions).callers[c].stage {
      StepKeepsKeys(s, actions[n], c);
      hide Step, ShownBy;
      var k := DuplicateShowsTheRow(actions[..n], c);
      assert actions[..n][..k] == actions[..k];
      n := k;
    } else {
      hide ShownBy;
      AnswersDuplicate(s, actions[n], c);
    }
  }

  lemma SomethingIsSeen(actions: seq<Action>, c: nat)
    requires c < |Run(actions).callers| && Run(actions).callers[c].stage.Duplicate?
    ensures actions != [] && Run(actions).callers[c].stage.seen.Some?
  {
    RunKeepsInv(actions);
    var s := Run(actions);
    assert CallerInv(s.rows, s.creators, s.callers[c], c);
  }

  lemma StepKeepsKeys(s: State, a: Action, c: nat)
    requires c < |s.callers|
    ensures c < |Step(s, a).callers| && Step(s, a).callers[c].key == s.callers[c].key
  {
    hide FindKey;
  }

  /** Every caller with the key has its answer, and there is one. */
  predicate AllAnswered(s: State, key: string) {
    && (exists c :: 0 <= c < |s.callers| && s.callers[c].key == key)
    && forall c :: 0 <= c < |s.callers| && s.callers[c].key == key ==> Answered(s.callers[c].stage)
  }

  /** A caller that was answered leaves the key with a row. */
  lemma AnsweredHasRow(s: State, c: nat) returns (i: nat)
    requires Inv(s) && c < |s.callers| && Answered(s.callers[c].stage)
    ensures i < |s.rows| && s.rows[i].key == s.callers[c].key
    ensures s.callers[c].stage.Duplicate? ==>
              s.callers[c].stage.seen.Some? && s.rows[i].id == s.callers[c].stage.seen.value.id
  {
    if s.callers[c].stage.Queued? {
      i := RowOfCaller(s, c);
    } else {
      i :| SeenRow(s.rows, s.callers[c].key, s.callers[c].stage.seen.value, i);
    }
  }

  /**
   When all callers with a key have been answered, exactly one of them was told queued: true,
   the key has its one row and its one job, and every other was told duplicate with that row's id.
   */
  lemma ExactlyOneIsQueued(actions: seq<Action>, key: string) returns (winner: nat, row: nat)
    requires AllAnswered(Run(actions), key)
    ensures var s := Run(actions);
            && ToldQueued(s, winner, key) && key in s.added
            && row < |s.rows| && s.rows[row].key == key && s.callers[winner].stage.id == s.rows[row].id
            && (forall c :: 0 <= c < |s.callers| && s.callers[c].key == key && c != winner ==>
                ToldDuplicate(s, c, s.rows[row].id))
  {
    RunKeepsInv(actions);
    var s := Run(actions);
    hide RunFrom, FindKey, AddedInv;
    var first :| 0 <= first < |s.callers| && s.callers[first].key == key;
    row := AnsweredHasRow(s, first);
    assert RowIsCreators(s.rows, s.creators, s.callers, row);
    winner := s.creators[row];
    AtMostOnce(actions, winner, winner, key);
    forall c | 0 <= c < |s.callers| && s.callers[c].key == key && c != winner
      ensures ToldDuplicate(s, c, s.rows[row].id)
    {
      AtMostOnce(actions, c, winner, key);
      var i := AnsweredHasRow(s, c);
      SameKeySameRow(s.rows, i, row);
    }
  }

  predicate ToldDuplicate(s: State, c: nat, id: nat)
    requires c < |s.callers|
  {
    s.callers[c].stage.Duplicate? && s.callers[c].stage.seen.Some? && s.callers[c].stage.seen.value.id == id
  }

  // ---------------------------------------------------------------- which rows have a job

  /** Caller c crashed between its insert and its add to the queue. */
  predicate CrashedBeforeAdd(actions: seq<Action>, c: nat) {
    exists k :: 0 <= k < |actions| && CrashesAt(actions, k, c)
  }

  predicate CrashesAt(actions: seq<Action>, k: nat, c: nat)
    requires k < |actions|
  {
    CrashesBeforeAdd(Run(actions[..k]), actions[k], c)
  }

  predicate CrashesBeforeAdd(s: State, a: Action, c: nat) {
    a == Crash(c) && c < |s.callers| && s.callers[c].stage.Created?
  }

  predicate LeftWithoutJob(s: State, c: nat) {
    c < |s.callers| && s.callers[c].stage.Crashed? && s.callers[c].stage.left.RowWithoutJob?
  }

  lemma StepLeavesIff(s: State, a: Action, c: nat)
    ensures LeftWithoutJob(Step(s, a), c) <==> LeftWithoutJob(s, c) || CrashesBeforeAdd(s, a, c)
  {
    hide FindKey, See;
  }

  lemma {:induction false} LeftIffCrashed(actions: seq<Action>, c: nat)
    ensures LeftWithoutJob(Run(actions), c) <==> CrashedBeforeAdd(actions, c)
  {
    if actions != [] {
      hide Step, LeftWithoutJob, CrashesBeforeAdd;
      var n := |actions| - 1;
      LeftIffCrashed(actions[..n], c);
      StepLeavesIff(Run(actions[..n]), actions[n], c);
      assert CrashesAt(actions, n, c) ==> CrashedBeforeAdd(actions, c);
      forall k | 0 <= k < n
        ensures CrashesAt(actions[..n], k, c) == CrashesAt(actions, k, c)
      {
        assert actions[..n][..k] == actions[..k];
      }
    }
  }

  /**
   A row whose creator was told queued: true has had its job. Once the creator has ended, the
   row has had none if and only if the creator crashed between the insert and the add: one
   that crashed after the add leaves a job of which nobody was told.
   */
  lemma HasJobIff(actions: seq<Action>, i: nat)
    requires i < |Run(actions).rows|
    ensures var s := Run(actions);
            && i < |s.creators| && s.creators[i] < |s.callers|
            && (s.callers[s.creators[i]].stage.Queued? ==> s.rows[i].key in s.added)
            && (Ended(s.callers[s.creators[i]].stage) ==>
                  (s.rows[i].key !in s.added <==> CrashedBeforeAdd(actions, s.creators[i])))
  {
    RunKeepsInv(actions);
    var s := Run(actions);
    assert RowIsCreators(s.rows, s.creators, s.callers, i);
    LeftIffCrashed(actions, s.creators[i]);
  }

  /** Row i was left without a job by its creator, and stays the same row in what follows. */
  predicate Stranded(s: State, i: nat, row: Row) {
    && i < |s.rows| && s.rows[i].id == row.id && s.rows[i].key == row.key
    && i < |s.creators| && LeftWithoutJob(s, s.creators[i])
  }

  lemma StepKeepsStranded(s: State, a: Action, i: nat, row: Row)
    requires Stranded(s, i, row)
    ensures Stranded(Step(s, a), i, row)
  {
    hide FindKey, See;
  }

  lemma {:induction false} StrandedStays(s: State, more: seq<Action>, i: nat, row: Row)
    requires Stranded(s, i, row)
    ensures Stranded(RunFrom(s, more), i, row)
  {
    hide Step, Stranded;
    if more != [] {
      StrandedStays(s, more[..|more| - 1], i, row);
      StepKeepsStranded(RunFrom(s, more[..|more| - 1]), more[|more| - 1], i, row);
    }
  }

  /** In a state with the row stranded, its key has had no job, and whoever was answered was told duplicate of it. */
  lemma StrandedMeans(s: State, i: nat, row: Row, c: nat)
    requires Inv(s) && Stranded(s, i, row)
    ensures row.key !in s.added && row.key !in s.queue
    ensures c < |s.callers| && s.callers[c].key == row.key && Answered(s.callers[c].stage) ==>
            ToldDuplicate(s, c, row.id)
  {
    assert RowIsCreators(s.rows, s.creators, s.callers, i);
    if c < |s.callers| && s.callers[c].key == row.key && Answered(s.callers[c].stage) {
      var j := AnsweredHasRow(s, c);
      SameKeySameRow(s.rows, i, j);
      if s.callers[c].stage.Queued? {
        var k := RowOfCaller(s, c);
        SameKeySameRow(s.rows, i, k);
      }
    }
  }

  /**
   A row whose creator crashed between the insert and the add never gets a job, whatever follows,
   while every caller with its key that is ever answered is told duplicate of it.
   */
  lemma StrandedForGood(actions: seq<Action>, more: seq<Action>, i: nat, c: nat)
    requires var s := Run(actions); i < |s.rows| && i < |s.creators| && CrashedBeforeAdd(actions, s.creators[i])
    ensures var (row, s') := (Run(actions).rows[i], RunFrom(Run(actions), more));
            && i < |s'.rows| && s'.rows[i].id == row.id && s'.rows[i].key == row.key
            && row.key !in s'.added && row.key !in s'.queue
            && (c < |s'.callers| && s'.callers[c].key == row.key && Answered(s'.callers[c].stage) ==>
                  ToldDuplicate(s', c, row.id))
  {
    var s := Run(actions);
    LeftIffCrashed(actions, s.creators[i]);
    StrandedStays(s, more, i, s.rows[i]);
    RunKeepsInv(actions);
    RunFromKeepsInv(s, more);
    hide Inv;
    StrandedMeans(RunFrom(s, more), i, s.rows[i], c);
  }

  // ---------------------------------------------------------------- the two crashes of a creator

  /** A caller with a new key comes to the point after its insert. */
  lemma Creates(s: State, key: string)
    requires FindKey(s.rows, key).None?
    ensures var c := |s.callers|;
            Step(Step(Step(s, Arrive(key)), Advance(c)), Advance(c)) ==
            State(s.rows + [Row(s.nextId, key, Pending, 0)], s.creators + [c], s.nextId + 1, s.queue, s.added,
                  s.callers + [Caller(key, Created(s.nextId))])
  {
    var c := |s.callers|;
    var s2 := Step(Step(s, Arrive(key)), Advance(c));
    assert s2 == s.(callers := s.callers + [Caller(key, Missed)]);
  }

  /** The creator crashes before the add: the row has no job, and the next caller is told duplicate of it. */
  lemma CrashStrandsTheRow(key: string)
    ensures var s1 := Step(Step(Step(Step(EMPTY, Arrive(key)), Advance(0)), Advance(0)), Crash(0));
            var s := Step(Step(s1, Arrive(key)), Advance(1));
            && s.rows == [Row(1, key, Pending, 0)] && s.queue == [] && s.added == []
            && s.callers[1].stage == Duplicate(Some(Seen(1, Pending)))
  {
    Creates(EMPTY, key);
    var s1 := Step(Step(Step(Step(EMPTY, Arrive(key)), Advance(0)), Advance(0)), Crash(0));
    assert s1 == State([Row(1, key, Pending, 0)], [0], 2, [], [], [Caller(key, Crashed(RowWithoutJob(1)))]);
    var s := Step(s1, Arrive(key));
    assert s.callers[1] == Caller(key, Arrived);
    assert FindKey(s.rows, key) == Some(0);
  }

  /** The creator crashes after the add: the row has its job, and its creator was told nothing. */
  lemma CrashLeavesAJobNobodyWasToldOf(key: string)
    ensures var s := Step(Step(Step(Step(Step(EMPTY, Arrive(key)), Advance(0)), Advance(0)), Advance(0)), Crash(0));
            && s.rows == [Row(1, key, Pending, 0)] && s.queue == [key] && s.added == [key]
            && s.callers == [Caller(key, Crashed(RowWithJob(1)))]
  {
    Creates(EMPTY, key);
    var s := State([Row(1, key, Pending, 0)], [0], 2, [], [], [Caller(key, Created(1))]);
    assert Step(s, Advance(0)) == s.(queue := [key], added := [key], callers := [Caller(key, Added(1))]);
  }

  // ---------------------------------------------------------------- everyone is answered, and rows tell the work

  /** The caller's next n statements, undisturbed. */
  function Turns(s: State, c: nat, n: nat): State
    decreases n
  {
    if n == 0 then s else Turns(Step(s, Advance(c)), c, n - 1)
  }

  predicate NoRowFor(rows: seq<Row>, key: string) {
    forall i :: 0 <= i < |rows| ==> rows[i].key != key
  }

  lemma FoundIff(rows: seq<Row>, key: string)
    ensures FindKey(rows, key).None? <==> NoRowFor(rows, key)
    ensures FindKey(rows, key).Some? ==> See(rows, key).Some? && ShownBy(rows, key, See(rows, key).value)
  {
    if FindKey(rows, key).Some? {
      assert rows[FindKey(rows, key).value].key == key;
    }
  }

  /** A caller's next statement, by where it is: only one that still finds no row goes on to make one. */
  lemma NextStatement(s: State, c: nat)
    requires c < |s.callers| && !Ended(s.callers[c].stage)
    ensures var (stage, key) := (s.callers[c].stage, s.callers[c].key);
            var s' := Step(s, Advance(c));
            && |s'.callers| == |s.callers| && s'.callers[c].key == key
            && match stage
               case Arrived =>
                 if NoRowFor(s.rows, key) then s' == s.(callers := WithStage(s, c, Missed))
                 else s'.callers[c].stage.Duplicate? && s' == s.(callers := WithStage(s, c, s'.callers[c].stage))
               case Missed =>
                 s'.callers[c].stage == (if NoRowFor(s.rows, key) then Created(s.nextId) else LostRace) &&
                 (!NoRowFor(s.rows, key) ==> s'.rows == s.rows)
               case Created(id) => s'.callers[c].stage == Added(id)
               case Added(id) => s'.callers[c].stage == Queued(id)
               case LostRace =>
                 s'.callers[c].stage.Duplicate? && s' == s.(callers := WithStage(s, c, s'.callers[c].stage))
               case _ => true
  {
    FoundIff(s.rows, s.callers[c].key);
    hide FindKey, NoRowFor, ShownBy;
  }

  lemma {:induction false} EndedStays(s: State, c: nat, n: nat)
    requires c < |s.callers| && Ended(s.callers[c].stage)
    ensures Turns(s, c, n) == s
  {
    hide FindKey;
    if n > 0 {
      EndedStays(s, c, n - 1);
    }
  }

  /** The caller, left alone, is to be told that it was queued. */
  predicate WillBeQueued(s: State, c: nat)
    requires c < |s.callers|
  {
    match s.callers[c].stage
    case Arrived => NoRowFor(s.rows, s.callers[c].key)
    case Missed => NoRowFor(s.rows, s.callers[c].key)
    case LostRace => false
    case _ => true
  }

  /** Statements a caller has still to run, at most. */
  function StatementsLeft(stage: Stage): nat {
    match stage
    case Arrived => 4
    case Missed => 3
    case Created(_) => 2
    case Added(_) => 1
    case LostRace => 1
    case _ => 0
  }

  /**
   Whatever the state, a caller that is let run its statements is answered: queued if it has made the row
   or there is still none, a duplicate otherwise.
   */
  lemma {:induction false} CallerIsAnswered(s: State, c: nat, n: nat)
    requires c < |s.callers| && !Ended(s.callers[c].stage) && n >= StatementsLeft(s.callers[c].stage)
    ensures c < |Turns(s, c, n).callers|
    ensures if WillBeQueued(s, c) then Turns(s, c, n).callers[c].stage.Queued?
            else Turns(s, c, n).callers[c].stage.Duplicate?
    decreases n
  {
    NextStatement(s, c);
    var s' := Step(s, Advance(c));
    hide Step, NoRowFor;
    if Ended(s'.callers[c].stage) {
      EndedStays(s', c, n - 1);
    } else {
      CallerIsAnswered(s', c, n - 1);
    }
  }

  /** How often the worker has taken up row i, and the status it wrote last. */
  function Worked(actions: seq<Action>, i: nat): (nat, Status) {
    if actions == [] then (0, Pending)
    else
      var n := |actions| - 1;
      var (times, status) := Worked(actions[..n], i);
      if actions[n].Work? && actions[n].row == i && i < |Run(actions[..n]).rows|
      then (times + 1, actions[n].status)
      else (times, status)
  }

  lemma StepWorks(s: State, a: Action, i: nat)
    requires i < |s.rows|
    ensures i < |Step(s, a).rows| && Step(s, a).rows[i].id == s.rows[i].id && Step(s, a).rows[i].key == s.rows[i].key
    ensures a.Work? && a.row == i ==>
              Step(s, a).rows[i].status == a.status && Step(s, a).rows[i].attempts == s.rows[i].attempts + 1
    ensures !(a.Work? && a.row == i) ==> Step(s, a).rows[i] == s.rows[i]
  {
    hide FindKey;
  }

  lemma NewRowIsPending(s: State, a: Action, i: nat)
    requires |s.rows| <= i < |Step(s, a).rows|
    ensures Step(s, a).rows[i].status == Pending && Step(s, a).rows[i].attempts == 0
  {
    hide FindKey;
  }

  /** Over every run a row counts the worker's attempts at it and has the status it last wrote. */
  lemma {:induction false} RowTellsTheWork(actions: seq<Action>, i: nat)
    ensures i >= |Run(actions).rows| ==> Worked(actions, i) == (0, Pending)
    ensures i < |Run(actions).rows| ==>
              (Run(actions).rows[i].attempts, Run(actions).rows[i].status) == Worked(actions, i)
  {
    if actions != [] {
      hide Step;
      var n := |actions| - 1;
      var s := Run(actions[..n]);
      RowTellsTheWork(actions[..n], i);
      if i < |s.rows| {
        StepWorks(s, actions[n], i);
      } else if i < |Run(actions).rows| {
        NewRowIsPending(s, actions[n], i);
      }
    }
  }

  /** INSERTs tried over a run. */
  function InsertsTried(actions: seq<Action>): nat {
    if actions == [] then 0
    else
      var n := |actions| - 1;
      var (s, a) := (Run(actions[..n]), actions[n]);
      InsertsTried(actions[..n]) +
      if a.Advance? && a.c < |s.callers| && s.callers[a.c].stage == Missed then 1 else 0
  }

  lemma StepUsesSerial(s: State, a: Action)
    ensures Step(s, a).nextId ==
            s.nextId + if a.Advance? && a.c < |s.callers| && s.callers[a.c].stage == Missed then 1 else 0
  {
    hide FindKey;
  }

  /** The serial counts every INSERT tried, refused ones too. */
  lemma {:induction false} SerialsAreUsedUp(actions: seq<Action>)
    ensures Run(actions).nextId == 1 + InsertsTried(actions)
  {
    if actions != [] {
      hide Step;
      SerialsAreUsedUp(actions[..|actions| - 1]);
      StepUsesSerial(Run(actions[..|actions| - 1]), actions[|actions| - 1]);
    }
  }
}
