/**
 The job service statement by statement: any number of enqueueJob and processNextJob calls
 at once, each of which may die between any two of its statements.

 A call that has popped an id and not yet saved the job as 'processing', or that has saved a
 waiting job and not yet pushed its id, is in a window: the job is waiting and in no queue.
 The queue matches the job statuses exactly unless a call has died in such a window.
 */
module JobRuns {
  import opened Options
  import opened DistributionJobs

  /** A call in progress, by the statement it has come to. */
  datatype Proc =
    | Popped(id: nat)                                     // lPop has returned; the job is read and saved next
    | Trying(job: Job, replies: Replies, made: nat)       // saved as 'processing', `made` recipients called
    | Pushing(id: nat)                                    // a waiting job is saved; rPush is next

  /** `lost` are the jobs whose call died in a window. */
  datatype State = State(sv: Service, procs: map<nat, Proc>, lost: set<nat>)

  const EMPTY := State(NO_JOBS, map[], {})

  datatype Action =
    | Submit(p: nat, raw: seq<RawRecipient>, maxRetries: int)   // enqueueJob, up to saveJob
    | Pop(p: nat)                                               // processNextJob begins
    | Begin(p: nat, replies: Replies)                           // getJobStatus and the save as 'processing'
    | Try(p: nat)                                               // one processRecipient
    | Save(p: nat)                                              // the save that ends the pass
    | Push(p: nat)                                              // rPush
    | Die(p: nat)

  predicate InWindow(proc: Proc) {
    proc.Popped? || proc.Pushing?
  }

  function IdOf(proc: Proc): nat {
    if proc.Trying? then proc.job.id else proc.id
  }

  function Without(procs: map<nat, Proc>, p: nat): map<nat, Proc> {
    procs - {p}
  }

  // ---------------------------------------------------------------- steps

  function DoSubmit(s: State, p: nat, raw: seq<RawRecipient>, maxRetries: int): State {
    var id := s.sv.nextId;
    State(Service(s.sv.queue, s.sv.jobs[id := NewJob(id, raw, maxRetries)], id + 1, s.sv.calls),
          s.procs[p := Pushing(id)], s.lost)
  }

  function DoPop(s: State, p: nat): State
    requires s.sv.queue != []
  {
    State(s.sv.(queue := s.sv.queue[1..]), s.procs[p := Popped(s.sv.queue[0])], s.lost)
  }

  /** An id without a job ends the call. */
  function DoBegin(s: State, p: nat, id: nat, replies: Replies): State {
    if id !in s.sv.jobs then State(s.sv, Without(s.procs, p), s.lost)
    else
      var job := s.sv.jobs[id];
      State(s.sv.(jobs := s.sv.jobs[id := Abandoned(job)]), s.procs[p := Trying(job, replies, 0)], s.lost)
  }

  function DoTry(s: State, p: nat, job: Job, replies: Replies, made: nat): State
    requires made < |job.pending|
  {
    State(s.sv.(calls := s.sv.calls + [CallOf(job, made, replies)]), s.procs[p := Trying(job, replies, made + 1)],
          s.lost)
  }

  function DoSave(s: State, p: nat, job: Job, replies: Replies): State {
    var job' := Attempt(job, replies);
    State(s.sv.(jobs := s.sv.jobs[job.id := job']),
          if job'.status == Retrying then s.procs[p := Pushing(job.id)] else Without(s.procs, p), s.lost)
  }

  function DoPush(s: State, p: nat, id: nat): State {
    State(s.sv.(queue := s.sv.queue + [id]), Without(s.procs, p), s.lost)
  }

  function DoDie(s: State, p: nat): State
    requires p in s.procs
  {
    State(s.sv, Without(s.procs, p), if InWindow(s.procs[p]) then s.lost + {IdOf(s.procs[p])} else s.lost)
  }

  /** An action that is not possible, or an empty list of recipients, changes nothing. */
  function Step(s: State, a: Action): State {
    match a
    case Submit(p, raw, maxRetries) => if p in s.procs || raw == [] then s else DoSubmit(s, p, raw, maxRetries)
    case Pop(p) => if p in s.procs || s.sv.queue == [] then s else DoPop(s, p)
    case Begin(p, replies) => if p in s.procs && s.procs[p].Popped? then DoBegin(s, p, s.procs[p].id, replies) else s
    case Try(p) =>
      if p in s.procs && s.procs[p].Trying? && s.procs[p].made < |s.procs[p].job.pending| then
        DoTry(s, p, s.procs[p].job, s.procs[p].replies, s.procs[p].made)
      else s
    case Save(p) =>
      if p in s.procs && s.procs[p].Trying? && s.procs[p].made == |s.procs[p].job.pending| then
        DoSave(s, p, s.procs[p].job, s.procs[p].replies)
      else s
    case Push(p) => if p in s.procs && s.procs[p].Pushing? then DoPush(s, p, s.procs[p].id) else s
    case Die(p) => if p in s.procs then DoDie(s, p) else s
  }

  function RunFrom(s: State, actions: seq<Action>): State {
    if actions == [] then s else Step(RunFrom(s, actions[..|actions| - 1]), actions[|actions| - 1])
  }

  function Run(actions: seq<Action>): State {
    RunFrom(EMPTY, actions)
  }

  /** The caller's side: recipients of one job have distinct ids. */
  ghost predicate DistinctRequests(actions: seq<Action>) {
    forall k :: 0 <= k < |actions| && actions[k].Submit? ==> DistinctIds(NormalizedAll(actions[k].raw))
  }

  // ---------------------------------------------------------------- invariant: whose job it is

  /** No two calls are at the same job, and none is at a queued or lost one. */
  predicate Exclusive(queue: seq<nat>, procs: map<nat, Proc>, lost: set<nat>) {
    && (forall p, q :: p in procs && q in procs && p != q ==> IdOf(procs[p]) != IdOf(procs[q]))
    && (forall p :: p in procs ==> IdOf(procs[p]) !in queue && IdOf(procs[p]) !in lost)
    && Distinct(queue)
    && (forall id :: id in lost ==> id !in queue)
  }

  predicate Held(procs: map<nat, Proc>, id: nat) {
    exists p :: p in procs && InWindow(procs[p]) && IdOf(procs[p]) == id
  }

  /** A job that is waiting is queued, in some call's window, or lost; and no other job is. */
  ghost predicate Placed(queue: seq<nat>, jobs: map<nat, Job>, procs: map<nat, Proc>, lost: set<nat>) {
    forall id :: id in jobs && Waiting(jobs[id]) <==> id in queue || Held(procs, id) || id in lost
  }

  /** A call that is trying recipients found a good waiting job and has saved it as 'processing'. */
  ghost predicate ProcInv(jobs: map<nat, Job>, proc: Proc) {
    proc.Trying? ==>
      && proc.job.id in jobs && jobs[proc.job.id] == Abandoned(proc.job)
      && JobInv(proc.job) && Waiting(proc.job) && proc.made <= |proc.job.pending|
  }

  /** Who was paid for the job under way is none of its pending recipients, or one called in this pass. */
  ghost predicate PaidBefore(calls: seq<Call>, job: Job, replies: Replies, made: nat)
    requires made <= |job.pending|
  {
    forall c, k ::
      c in calls && c.ok && c.job == job.id && 0 <= k < |job.pending| && c.recipient.id == job.pending[k].id ==>
      k < made && replies(k).None?
  }

  ghost predicate CallsInv(calls: seq<Call>, jobs: map<nat, Job>, procs: map<nat, Proc>) {
    && NoCallAfterSuccess(calls)
    && PaidAreNotPending(jobs, calls)
    && (forall c :: c in calls ==> c.job in jobs)
    && forall p :: p in procs ==> PassInv(calls, procs[p])
  }

  ghost predicate JobsInv(sv: Service) {
    forall id :: id in sv.jobs ==> StoredJob(sv, id)
  }

  ghost predicate Inv(s: State) {
    && JobsInv(s.sv)
    && Exclusive(s.sv.queue, s.procs, s.lost)
    && Placed(s.sv.queue, s.sv.jobs, s.procs, s.lost)
    && ProcsInv(s.sv.jobs, s.procs)
    && CallsInv(s.sv.calls, s.sv.jobs, s.procs)
  }

  // ---------------------------------------------------------------- who holds which job

  lemma WithoutPut(procs: map<nat, Proc>, p: nat, proc: Proc)
    ensures Without(procs[p := proc], p) == Without(procs, p)
    ensures p !in procs ==> Without(procs, p) == procs
    ensures Without(Without(procs, p), p) == Without(procs, p) && p !in Without(procs, p)
  {
  }

  lemma HeldSplit(procs: map<nat, Proc>, p: nat, id: nat)
    ensures Held(procs, id) <==>
            (p in procs && InWindow(procs[p]) && IdOf(procs[p]) == id) || Held(Without(procs, p), id)
  {
    if Held(procs, id) {
      var q :| q in procs && InWindow(procs[q]) && IdOf(procs[q]) == id;
      assert q != p ==> q in Without(procs, p);
    }
    if Held(Without(procs, p), id) {
      var q :| q in Without(procs, p) && InWindow(Without(procs, p)[q]) && IdOf(Without(procs, p)[q]) == id;
      assert q in procs;
    }
  }

  /** Nobody but p is at this job. */
  predicate OnlyAt(procs: map<nat, Proc>, p: nat, id: nat) {
    forall q :: q in procs && q != p ==> IdOf(procs[q]) != id
  }

  /** Queue and lost jobs may gain or lose this id and no other. */
  ghost predicate SameBut(id: nat, s: State, s': State) {
    && (forall x :: x != id ==> (x in s'.sv.queue <==> x in s.sv.queue))
    && (forall x :: x != id ==> (x in s'.lost <==> x in s.lost))
    && (forall x :: x != id ==> (x in s'.sv.jobs <==> x in s.sv.jobs))
    && (forall x :: x in s.sv.jobs && x != id ==> s'.sv.jobs[x] == s.sv.jobs[x])
  }

  /** Call p after its statement is gone or still at the job; the other calls are as they were. */
  ghost predicate OthersSame(s: State, s': State, p: nat, id: nat) {
    && Without(s'.procs, p) == Without(s.procs, p)
    && (p in s'.procs ==> IdOf(s'.procs[p]) == id)
  }

  predicate AtMostOne(a: bool, b: bool, c: bool) {
    !(a && b) && !(a && c) && !(b && c)
  }

  /** The job is in at most one place: queued, with call p, or lost. */
  ghost predicate OnePlace(s: State, p: nat, id: nat) {
    && AtMostOne(id in s.sv.queue, p in s.procs, id in s.lost)
    && Distinct(s.sv.queue)
  }

  /** It is in a place, other than under way, exactly when it is waiting. */
  predicate InPlace(s: State, p: nat, id: nat) {
    (id in s.sv.jobs && Waiting(s.sv.jobs[id])) <==>
      (id in s.sv.queue || (p in s.procs && InWindow(s.procs[p])) || id in s.lost)
  }

  /** Call p's statement moves the job it is at from one place to another, and nothing else. */
  ghost predicate Moves(s: State, s': State, p: nat, id: nat) {
    && OnlyAt(s.procs, p, id) && (p in s.procs ==> IdOf(s.procs[p]) == id)
    && SameBut(id, s, s') && OthersSame(s, s', p, id) && OnePlace(s', p, id) && InPlace(s', p, id)
  }

  predicate Distinct(queue: seq<nat>) {
    forall i, j :: 0 <= i < j < |queue| ==> queue[i] != queue[j]
  }

  /** The job is with call p, or new, and nowhere else. */
  ghost predicate Alone(s: State, p: nat, id: nat) {
    && Distinct(s.sv.queue) && id !in s.sv.queue && id !in s.lost
    && OnlyAt(s.procs, p, id) && (p in s.procs ==> IdOf(s.procs[p]) == id)
  }

  lemma OtherIsSame(s: State, s': State, p: nat, id: nat, q: nat)
    requires OthersSame(s, s', p, id) && q != p
    ensures q in s'.procs <==> q in s.procs
    ensures q in s.procs ==> s'.procs[q] == s.procs[q]
  {
    assert q in Without(s'.procs, p) <==> q in Without(s.procs, p);
  }

  lemma MoveKeepsExclusive(s: State, s': State, p: nat, id: nat)
    requires Exclusive(s.sv.queue, s.procs, s.lost) && Moves(s, s', p, id)
    ensures Exclusive(s'.sv.queue, s'.procs, s'.lost)
  {
    forall q | q in s'.procs && q != p
      ensures q in s.procs && s'.procs[q] == s.procs[q]
    {
      OtherIsSame(s, s', p, id, q);
    }
  }

  lemma MoveKeepsPlaced(s: State, s': State, p: nat, id: nat)
    requires Placed(s.sv.queue, s.sv.jobs, s.procs, s.lost) && Moves(s, s', p, id)
    ensures Placed(s'.sv.queue, s'.sv.jobs, s'.procs, s'.lost)
  {
    forall x
      ensures x in s'.sv.jobs && Waiting(s'.sv.jobs[x]) <==> x in s'.sv.queue || Held(s'.procs, x) || x in s'.lost
    {
      HeldSplit(s.procs, p, x);
      HeldSplit(s'.procs, p, x);
      NotHeldByOthers(s.procs, p, id);
    }
  }

  lemma NotHeldByOthers(procs: map<nat, Proc>, p: nat, id: nat)
    requires OnlyAt(procs, p, id)
    ensures !Held(Without(procs, p), id)
  {
  }

  ghost predicate ProcsInv(jobs: map<nat, Job>, procs: map<nat, Proc>) {
    forall q :: q in procs ==> ProcInv(jobs, procs[q])
  }

  /** What the other calls know of their jobs stays so. */
  lemma MoveKeepsProcs(s: State, s': State, p: nat, id: nat)
    requires ProcsInv(s.sv.jobs, s.procs) && Moves(s, s', p, id)
    requires p in s'.procs ==> ProcInv(s'.sv.jobs, s'.procs[p])
    ensures ProcsInv(s'.sv.jobs, s'.procs)
  {
    forall q | q in s'.procs && q != p
      ensures ProcInv(s'.sv.jobs, s'.procs[q])
    {
      OtherIsSame(s, s', p, id, q);
      assert ProcInv(s.sv.jobs, s.procs[q]);
    }
  }

  lemma JobsStay(sv: Service, sv': Service, job: Job)
    requires JobsInv(sv) && sv'.jobs == sv.jobs[job.id := job] && sv.nextId <= sv'.nextId
    requires job.id < sv'.nextId && JobInv(job)
    ensures JobsInv(sv')
  {
    hide JobInv;
    forall id | id in sv'.jobs
      ensures StoredJob(sv', id)
    {
      assert id != job.id ==> StoredJob(sv, id);
    }
  }

  ghost predicate PassInv(calls: seq<Call>, proc: Proc) {
    proc.Trying? && proc.made <= |proc.job.pending| ==> PaidBefore(calls, proc.job, proc.replies, proc.made)
  }

  /**
   A statement that makes no call keeps what is known of calls, when the job it saves has paid none
   of its pending.
   */
  lemma MoveKeepsCalls(s: State, s': State, p: nat, id: nat)
    requires CallsInv(s.sv.calls, s.sv.jobs, s.procs) && s'.sv.calls == s.sv.calls
    requires Moves(s, s', p, id) && (id in s.sv.jobs ==> id in s'.sv.jobs)
    requires id in s'.sv.jobs && Waiting(s'.sv.jobs[id]) ==> UnpaidPending(s.sv.calls, s'.sv.jobs[id], id)
    requires p in s'.procs ==> PassInv(s.sv.calls, s'.procs[p])
    ensures CallsInv(s'.sv.calls, s'.sv.jobs, s'.procs)
  {
    hide PaidBefore;
    forall q | q in s'.procs && q != p
      ensures PassInv(s'.sv.calls, s'.procs[q])
    {
      OtherIsSame(s, s', p, id, q);
    }
  }

  /** No call for this job has paid one of its pending recipients. */
  ghost predicate UnpaidPending(calls: seq<Call>, job: Job, id: nat) {
    forall c, r :: c in calls && c.ok && c.job == id && r in job.pending ==> c.recipient.id != r.id
  }

  // ---------------------------------------------------------------- each statement keeps the invariant

  lemma NewJobInv(id: nat, raw: seq<RawRecipient>, maxRetries: int)
    requires raw != [] && DistinctIds(NormalizedAll(raw))
    ensures JobInv(NewJob(id, raw, maxRetries))
  {
    SubsequenceReflexive(NormalizedAll(raw));
  }

  lemma StoreSame(sv: Service, sv': Service)
    requires JobsInv(sv) && sv'.jobs == sv.jobs && sv'.nextId == sv.nextId
    ensures JobsInv(sv')
  {
    hide JobInv;
    forall id | id in sv'.jobs
      ensures StoredJob(sv', id)
    {
      assert StoredJob(sv, id);
    }
  }

  lemma FreshId(s: State)
    requires Inv(s)
    ensures s.sv.nextId !in s.sv.jobs && s.sv.nextId !in s.sv.queue && s.sv.nextId !in s.lost
    ensures forall p :: p in s.procs ==> IdOf(s.procs[p]) != s.sv.nextId
  {
    hide JobInv, CallsInv;
    var id := s.sv.nextId;
    assert id in s.sv.jobs ==> StoredJob(s.sv, id);
    forall p | p in s.procs
      ensures IdOf(s.procs[p]) != id
    {
      assert ProcInv(s.sv.jobs, s.procs[p]);
      assert InWindow(s.procs[p]) ==> Held(s.procs, IdOf(s.procs[p]));
    }
  }

  lemma SubmitMoves(s: State, p: nat, raw: seq<RawRecipient>, maxRetries: int)
    requires p !in s.procs && Alone(s, p, s.sv.nextId)
    ensures Moves(s, DoSubmit(s, p, raw, maxRetries), p, s.sv.nextId)
  {
    WithoutPut(s.procs, p, Pushing(s.sv.nextId));
  }

  lemma SubmitKeepsInv(s: State, p: nat, raw: seq<RawRecipient>, maxRetries: int)
    requires Inv(s) && p !in s.procs && raw != [] && DistinctIds(NormalizedAll(raw))
    ensures Inv(DoSubmit(s, p, raw, maxRetries))
  {
    var (s', id) := (DoSubmit(s, p, raw, maxRetries), s.sv.nextId);
    FreshId(s);
    UnknownIsUnpaid(s, NewJob(id, raw, maxRetries));
    AloneOf(s, p, id);
    SubmitMoves(s, p, raw, maxRetries);
    NewJobInv(id, raw, maxRetries);
    hide JobInv, JobsInv, Exclusive, Placed, ProcsInv, CallsInv, Alone, Moves, UnpaidPending;
    JobsStay(s.sv, s'.sv, NewJob(id, raw, maxRetries));
    MoveKeepsExclusive(s, s', p, id);
    MoveKeepsPlaced(s, s', p, id);
    MoveKeepsProcs(s, s', p, id);
    MoveKeepsCalls(s, s', p, id);
  }

  lemma UnknownIsUnpaid(s: State, job: Job)
    requires Inv(s) && job.id !in s.sv.jobs
    ensures UnpaidPending(s.sv.calls, job, job.id)
  {
    hide JobsInv, Exclusive, Placed, ProcsInv;
  }

  lemma HeadGone(queue: seq<nat>)
    requires queue != [] && Distinct(queue)
    ensures queue[0] !in queue[1..] && forall x :: x != queue[0] ==> (x in queue[1..] <==> x in queue)
    ensures Distinct(queue[1..])
  {
    assert queue == [queue[0]] + queue[1..];
  }

  lemma QueuedIsWaiting(s: State, id: nat)
    requires Inv(s) && id in s.sv.queue
    ensures id in s.sv.jobs && Waiting(s.sv.jobs[id]) && id !in s.lost
    ensures forall p :: p in s.procs ==> IdOf(s.procs[p]) != id
  {
    hide JobsInv, ProcsInv, CallsInv;
  }

  lemma PopMoves(s: State, p: nat, id: nat)
    requires p !in s.procs && s.sv.queue != [] && id == s.sv.queue[0] && Distinct(s.sv.queue)
    requires id in s.sv.jobs && Waiting(s.sv.jobs[id]) && id !in s.lost && OnlyAt(s.procs, p, id)
    ensures Moves(s, DoPop(s, p), p, id)
  {
    WithoutPut(s.procs, p, Popped(id));
    HeadGone(s.sv.queue);
  }

  lemma PopKeepsInv(s: State, p: nat)
    requires Inv(s) && p !in s.procs && s.sv.queue != []
    ensures Inv(DoPop(s, p))
  {
    var (s', id) := (DoPop(s, p), s.sv.queue[0]);
    QueuedIsWaiting(s, id);
    QueueIsDistinct(s);
    PopMoves(s, p, id);
    WaitingIsUnpaid(s, id);
    hide JobsInv, Exclusive, Placed, ProcsInv, CallsInv, Alone, Moves, UnpaidPending;
    StoreSame(s.sv, s'.sv);
    MoveKeepsExclusive(s, s', p, id);
    MoveKeepsPlaced(s, s', p, id);
    MoveKeepsProcs(s, s', p, id);
    MoveKeepsCalls(s, s', p, id);
  }

  lemma WaitingIsUnpaid(s: State, id: nat)
    requires Inv(s) && id in s.sv.jobs && Waiting(s.sv.jobs[id])
    ensures UnpaidPending(s.sv.calls, s.sv.jobs[id], id)
  {
    hide JobsInv, Exclusive, Placed, ProcsInv;
  }

  lemma QueueIsDistinct(s: State)
    requires Inv(s)
    ensures Distinct(s.sv.queue)
  {
    hide JobsInv, Placed, ProcsInv, CallsInv;
  }

  lemma AloneOf(s: State, p: nat, id: nat)
    requires Inv(s) && id !in s.sv.queue && id !in s.lost && OnlyAt(s.procs, p, id)
    requires p in s.procs ==> IdOf(s.procs[p]) == id
    ensures Alone(s, p, id)
  {
    QueueIsDistinct(s);
  }

  /** A call in a window holds a good waiting job. */
  lemma WindowHoldsWaiting(s: State, p: nat)
    requires Inv(s) && p in s.procs && InWindow(s.procs[p])
    ensures var id := s.procs[p].id;
            && id in s.sv.jobs && Waiting(s.sv.jobs[id]) && StoredJob(s.sv, id)
            && id !in s.sv.queue && id !in s.lost && OnlyAt(s.procs, p, id)
  {
    hide JobInv, ProcsInv, CallsInv;
    assert Held(s.procs, s.procs[p].id);
  }

  /** A call that is trying recipients is alone at its job, which is stored as under way. */
  lemma TryingHolds(s: State, p: nat)
    requires Inv(s) && p in s.procs && s.procs[p].Trying?
    ensures var job := s.procs[p].job;
            && ProcInv(s.sv.jobs, s.procs[p]) && PassInv(s.sv.calls, s.procs[p]) && job.id < s.sv.nextId
            && job.id !in s.sv.queue && job.id !in s.lost && OnlyAt(s.procs, p, job.id)
  {
    hide JobInv, PaidBefore, Placed;
    assert StoredJob(s.sv, s.procs[p].job.id);
  }

  lemma BeginMoves(s: State, p: nat, id: nat, replies: Replies)
    requires p in s.procs && id in s.sv.jobs && s.sv.jobs[id].id == id && Alone(s, p, id)
    ensures Moves(s, DoBegin(s, p, id, replies), p, id)
  {
    WithoutPut(s.procs, p, Trying(s.sv.jobs[id], replies, 0));
  }

  lemma AbandonedInv(job: Job)
    requires JobInv(job) && Waiting(job)
    ensures JobInv(Abandoned(job)) && !Waiting(Abandoned(job))
  {
  }

  lemma UnpaidPassBegins(calls: seq<Call>, job: Job, replies: Replies)
    requires UnpaidPending(calls, job, job.id)
    ensures PaidBefore(calls, job, replies, 0)
  {
    forall c, k | c in calls && c.ok && c.job == job.id && 0 <= k < |job.pending|
      ensures c.recipient.id != job.pending[k].id
    {
      assert job.pending[k] in job.pending;
    }
  }

  lemma BeginKeepsInv(s: State, p: nat, replies: Replies)
    requires Inv(s) && p in s.procs && s.procs[p].Popped?
    ensures Inv(DoBegin(s, p, s.procs[p].id, replies))
  {
    var id := s.procs[p].id;
    var s' := DoBegin(s, p, id, replies);
    WindowHoldsWaiting(s, p);
    AloneOf(s, p, id);
    BeginMoves(s, p, id, replies);
    AbandonedInv(s.sv.jobs[id]);
    WaitingIsUnpaid(s, id);
    UnpaidPassBegins(s.sv.calls, s.sv.jobs[id], replies);
    hide JobInv, JobsInv, Exclusive, Placed, ProcsInv, CallsInv, Alone, Moves, UnpaidPending, PaidBefore;
    JobsStay(s.sv, s'.sv, Abandoned(s.sv.jobs[id]));
    MoveKeepsExclusive(s, s', p, id);
    MoveKeepsPlaced(s, s', p, id);
    MoveKeepsProcs(s, s', p, id);
    MoveKeepsCalls(s, s', p, id);
  }

  /** The call goes to a recipient that no earlier successful call for the job went to. */
  lemma TryKeepsSuccess(calls: seq<Call>, job: Job, replies: Replies, made: nat)
    requires NoCallAfterSuccess(calls) && made < |job.pending| && PaidBefore(calls, job, replies, made)
    ensures NoCallAfterSuccess(calls + [CallOf(job, made, replies)])
  {
    var calls' := calls + [CallOf(job, made, replies)];
    forall i, j | 0 <= i < j < |calls'| && calls'[i].ok && calls'[i].job == calls'[j].job
      ensures calls'[i].recipient.id != calls'[j].recipient.id
    {
      assert i < |calls| && calls'[i] in calls;
    }
  }

  lemma TryKeepsPass(calls: seq<Call>, job: Job, replies: Replies, made: nat)
    requires DistinctIds(job.pending) && made < |job.pending| && PaidBefore(calls, job, replies, made)
    ensures PaidBefore(calls + [CallOf(job, made, replies)], job, replies, made + 1)
  {
  }

  lemma OtherJobsCall(calls: seq<Call>, c: Call, proc: Proc)
    requires PassInv(calls, proc) && (proc.Trying? ==> proc.job.id != c.job)
    ensures PassInv(calls + [c], proc)
  {
  }

  lemma TryMoves(s: State, p: nat, job: Job, replies: Replies, made: nat)
    requires p in s.procs && made < |job.pending| && Alone(s, p, job.id)
    requires job.id in s.sv.jobs && !Waiting(s.sv.jobs[job.id])
    ensures Moves(s, DoTry(s, p, job, replies, made), p, job.id)
  {
    WithoutPut(s.procs, p, Trying(job, replies, made + 1));
  }

  lemma PaidStaysApart(calls: seq<Call>, jobs: map<nat, Job>, c: Call)
    requires PaidAreNotPending(jobs, calls) && c.job in jobs && !Waiting(jobs[c.job])
    ensures PaidAreNotPending(jobs, calls + [c])
  {
  }

  lemma TryKeepsCalls(calls: seq<Call>, jobs: map<nat, Job>, procs: map<nat, Proc>, p: nat, job: Job, replies: Replies,
                      made: nat)
    requires CallsInv(calls, jobs, procs) && OnlyAt(procs, p, job.id)
    requires job.id in jobs && !Waiting(jobs[job.id])
    requires DistinctIds(job.pending) && made < |job.pending| && PaidBefore(calls, job, replies, made)
    ensures CallsInv(calls + [CallOf(job, made, replies)], jobs, procs[p := Trying(job, replies, made + 1)])
  {
    hide NoCallAfterSuccess, PaidAreNotPending, PaidBefore, DistinctIds;
    var (c, procs') := (CallOf(job, made, replies), procs[p := Trying(job, replies, made + 1)]);
    TryKeepsSuccess(calls, job, replies, made);
    TryKeepsPass(calls, job, replies, made);
    PaidStaysApart(calls, jobs, c);
    forall q | q in procs' && q != p
      ensures PassInv(calls + [c], procs'[q])
    {
      OtherJobsCall(calls, c, procs[q]);
    }
  }

  lemma PendingIsDistinct(job: Job)
    requires JobInv(job)
    ensures DistinctIds(job.pending)
  {
  }

  lemma TryKeepsInv(s: State, p: nat, job: Job, replies: Replies, made: nat)
    requires Inv(s) && p in s.procs && s.procs[p] == Trying(job, replies, made) && made < |job.pending|
    ensures Inv(DoTry(s, p, job, replies, made))
  {
    var s' := DoTry(s, p, job, replies, made);
    TryingHolds(s, p);
    hide PaidBefore, DistinctIds;
    AloneOf(s, p, job.id);
    TryMoves(s, p, job, replies, made);
    PendingIsDistinct(job);
    TryKeepsCalls(s.sv.calls, s.sv.jobs, s.procs, p, job, replies, made);
    hide JobInv, JobsInv, Exclusive, Placed, ProcsInv, CallsInv, PassInv, Alone, Moves;
    StoreSame(s.sv, s'.sv);
    MoveKeepsExclusive(s, s', p, job.id);
    MoveKeepsPlaced(s, s', p, job.id);
    MoveKeepsProcs(s, s', p, job.id);
  }

  /** Whoever was paid in a pass, or before it, is not left pending by it. */
  lemma PassLeavesUnpaid(calls: seq<Call>, job: Job, replies: Replies)
    requires PaidBefore(calls, job, replies, |job.pending|)
    ensures UnpaidPending(calls, Attempt(job, replies), job.id)
  {
    forall c, r | c in calls && c.ok && c.job == job.id && r in Attempt(job, replies).pending
      ensures c.recipient.id != r.id
    {
      LeftHasFailed(job.pending, replies, r);
    }
  }

  /** How a pass over a good waiting job leaves it. */
  lemma AttemptOfGoodJob(job: Job, replies: Replies)
    requires JobInv(job) && Waiting(job)
    ensures JobInv(Attempt(job, replies))
    ensures Waiting(Attempt(job, replies)) <==> Attempt(job, replies).status == Retrying
  {
    AttemptKeepsJobInv(job, replies);
    AttemptKeepsCounters(job, replies);
  }

  /** A job is saved by the call that holds it; if it is waiting, its push comes next. */
  lemma PutMoves(s: State, p: nat, job: Job)
    requires p in s.procs && Alone(s, p, job.id) && (Waiting(job) <==> job.status == Retrying)
    ensures Moves(s, State(s.sv.(jobs := s.sv.jobs[job.id := job]),
                           if job.status == Retrying then s.procs[p := Pushing(job.id)] else Without(s.procs, p),
                           s.lost),
                  p, job.id)
  {
    WithoutPut(s.procs, p, Pushing(job.id));
  }

  lemma SaveMoves(s: State, p: nat, job: Job, replies: Replies)
    requires p in s.procs && Alone(s, p, job.id) && JobInv(job) && Waiting(job)
    ensures Moves(s, DoSave(s, p, job, replies), p, job.id)
  {
    hide JobInv, Attempt;
    AttemptOfGoodJob(job, replies);
    AttemptKeepsId(job, replies);
    PutMoves(s, p, Attempt(job, replies));
  }

  lemma SaveKeepsInv(s: State, p: nat, job: Job, replies: Replies)
    requires Inv(s) && p in s.procs && s.procs[p] == Trying(job, replies, |job.pending|)
    ensures Inv(DoSave(s, p, job, replies))
  {
    var s' := DoSave(s, p, job, replies);
    TryingHolds(s, p);
    AloneOf(s, p, job.id);
    SaveMoves(s, p, job, replies);
    AttemptOfGoodJob(job, replies);
    PassLeavesUnpaid(s.sv.calls, job, replies);
    AttemptKeepsId(job, replies);
    hide JobInv, JobsInv, Exclusive, Placed, ProcsInv, CallsInv, Alone, Moves, UnpaidPending, PaidBefore, Attempt;
    JobsStay(s.sv, s'.sv, Attempt(job, replies));
    MoveKeepsExclusive(s, s', p, job.id);
    MoveKeepsPlaced(s, s', p, job.id);
    MoveKeepsProcs(s, s', p, job.id);
    MoveKeepsCalls(s, s', p, job.id);
  }

  lemma PushMoves(s: State, p: nat, id: nat)
    requires p in s.procs && Alone(s, p, id) && id in s.sv.jobs && Waiting(s.sv.jobs[id])
    ensures Moves(s, DoPush(s, p, id), p, id)
  {
    WithoutPut(s.procs, p, Pushing(id));
  }

  lemma PushKeepsInv(s: State, p: nat)
    requires Inv(s) && p in s.procs && s.procs[p].Pushing?
    ensures Inv(DoPush(s, p, s.procs[p].id))
  {
    var id := s.procs[p].id;
    var s' := DoPush(s, p, id);
    WindowHoldsWaiting(s, p);
    AloneOf(s, p, id);
    PushMoves(s, p, id);
    WaitingIsUnpaid(s, id);
    hide JobInv, JobsInv, Exclusive, Placed, ProcsInv, CallsInv, Alone, Moves, UnpaidPending;
    StoreSame(s.sv, s'.sv);
    MoveKeepsExclusive(s, s', p, id);
    MoveKeepsPlaced(s, s', p, id);
    MoveKeepsProcs(s, s', p, id);
    MoveKeepsCalls(s, s', p, id);
  }

  lemma DieMoves(s: State, p: nat, id: nat)
    requires p in s.procs && Alone(s, p, id) && id in s.sv.jobs
    requires Waiting(s.sv.jobs[id]) <==> InWindow(s.procs[p])
    ensures Moves(s, DoDie(s, p), p, id)
  {
    WithoutPut(s.procs, p, s.procs[p]);
  }

  lemma DieKeepsInv(s: State, p: nat)
    requires Inv(s) && p in s.procs
    ensures Inv(DoDie(s, p))
  {
    var id := IdOf(s.procs[p]);
    var s' := DoDie(s, p);
    if InWindow(s.procs[p]) {
      WindowHoldsWaiting(s, p);
      WaitingIsUnpaid(s, id);
    } else {
      TryingHolds(s, p);
    }
    AloneOf(s, p, id);
    DieMoves(s, p, id);
    hide JobInv, JobsInv, Exclusive, Placed, ProcsInv, CallsInv, PassInv, Alone, Moves, UnpaidPending;
    StoreSame(s.sv, s'.sv);
    MoveKeepsExclusive(s, s', p, id);
    MoveKeepsPlaced(s, s', p, id);
    MoveKeepsProcs(s, s', p, id);
    MoveKeepsCalls(s, s', p, id);
  }

  lemma StepKeepsInv(s: State, a: Action)
    requires Inv(s) && (a.Submit? ==> DistinctIds(NormalizedAll(a.raw)))
    ensures Inv(Step(s, a))
  {
    hide Inv;
    if Step(s, a) != s {
      match a
      case Submit(p, raw, maxRetries) => SubmitKeepsInv(s, p, raw, maxRetries);
      case Pop(p) => PopKeepsInv(s, p);
      case Begin(p, replies) => BeginKeepsInv(s, p, replies);
      case Try(p) => TryKeepsInv(s, p, s.procs[p].job, s.procs[p].replies, s.procs[p].made);
      case Save(p) => SaveKeepsInv(s, p, s.procs[p].job, s.procs[p].replies);
      case Push(p) => PushKeepsInv(s, p);
      case Die(p) => DieKeepsInv(s, p);
    }
  }

  /**
   Main invariant, over every interleaving of calls and wherever they die: every job's
   recipients stay partitioned and its counters right, nobody is called again after success,
   no two calls are at one job, and a waiting job is in one place: queued, in a window, or lost.
   */
  lemma {:induction false} RunKeepsInv(s: State, actions: seq<Action>)
    requires Inv(s) && DistinctRequests(actions)
    ensures Inv(RunFrom(s, actions))
  {
    hide Inv, Step;
    if actions != [] {
      var n := |actions| - 1;
      assert forall k :: 0 <= k < n ==> actions[..n][k] == actions[k];
      RunKeepsInv(s, actions[..n]);
      StepKeepsInv(RunFrom(s, actions[..n]), actions[n]);
    }
  }

  lemma EmptyInv()
    ensures Inv(EMPTY)
  {
  }

  // ---------------------------------------------------------------- when the queue matches

  /** The k-th action is the death of a call between lPop and its save, or between a save and its rPush. */
  predicate WindowDeath(s: State, actions: seq<Action>, k: nat)
    requires k < |actions|
  {
    var before := RunFrom(s, actions[..k]);
    actions[k].Die? && actions[k].p in before.procs && InWindow(before.procs[actions[k].p])
  }

  predicate DiedInWindow(s: State, actions: seq<Action>) {
    exists k :: 0 <= k < |actions| && WindowDeath(s, actions, k)
  }

  /** Only a death in a window loses a job. */
  lemma StepLosesIff(s: State, a: Action)
    ensures Step(s, a).lost == s.lost || Step(s, a).lost != {}
    ensures a.Die? && a.p in s.procs && InWindow(s.procs[a.p]) ==> Step(s, a).lost != {}
    ensures !(a.Die? && a.p in s.procs && InWindow(s.procs[a.p])) ==> Step(s, a).lost == s.lost
  {
    hide Attempt, NewJob, Abandoned;
    if a.Die? && a.p in s.procs && InWindow(s.procs[a.p]) {
      assert IdOf(s.procs[a.p]) in Step(s, a).lost;
    }
  }

  lemma {:induction false} LostIffDiedInWindow(s: State, actions: seq<Action>)
    requires s.lost == {}
    ensures RunFrom(s, actions).lost != {} <==> DiedInWindow(s, actions)
  {
    if actions != [] {
      hide Step, InWindow;
      var n := |actions| - 1;
      LostIffDiedInWindow(s, actions[..n]);
      StepLosesIff(RunFrom(s, actions[..n]), actions[n]);
      assert WindowDeath(s, actions, n) ==> DiedInWindow(s, actions);
      forall k | 0 <= k < n
        ensures WindowDeath(s, actions, k) == WindowDeath(s, actions[..n], k)
      {
        assert actions[..n][..k] == actions[..k];
      }
    }
  }

  /** No call is in a window right now. */
  predicate NoneInWindow(s: State) {
    forall p :: p in s.procs ==> !InWindow(s.procs[p])
  }

  /** At any moment the queue holds the waiting jobs, each once, exactly when no job is in a window or lost. */
  lemma MatchesIffNothingApart(s: State)
    requires Inv(s)
    ensures QueueMatches(s.sv) <==> s.lost == {} && NoneInWindow(s)
  {
    hide JobInv, CallsInv;
    if !NoneInWindow(s) {
      var p :| p in s.procs && InWindow(s.procs[p]);
      WindowHoldsWaiting(s, p);
    }
    if s.lost != {} {
      var id :| id in s.lost;
      assert id in s.sv.jobs && Waiting(s.sv.jobs[id]) && id !in s.sv.queue;
    }
  }

  /** Between calls' windows, the queue matches the statuses if and only if no call has died in one. */
  lemma QueueMatchesIff(actions: seq<Action>)
    requires DistinctRequests(actions) && NoneInWindow(Run(actions))
    ensures QueueMatches(Run(actions).sv) <==> !DiedInWindow(EMPTY, actions)
  {
    EmptyInv();
    RunKeepsInv(EMPTY, actions);
    MatchesIffNothingApart(Run(actions));
    LostIffDiedInWindow(EMPTY, actions);
  }

  /** A lost job says that it is waiting, in no queue, for ever: no later call takes it up. */
  lemma {:induction false} LostForGood(s: State, actions: seq<Action>, id: nat)
    requires Inv(s) && DistinctRequests(actions) && id in s.lost
    ensures var s' := RunFrom(s, actions);
            && id in s'.lost && id !in s'.sv.queue
            && id in s'.sv.jobs && s'.sv.jobs[id] == s.sv.jobs[id] && Waiting(s'.sv.jobs[id])
  {
    RunKeepsInv(s, actions);
    if actions != [] {
      var n := |actions| - 1;
      assert forall k :: 0 <= k < n ==> actions[..n][k] == actions[k];
      RunKeepsInv(s, actions[..n]);
      LostForGood(s, actions[..n], id);
      LostIsNotTouched(RunFrom(s, actions[..n]), actions[n], id);
    }
  }

  lemma LostIsNotTouched(s: State, a: Action, id: nat)
    requires Inv(s) && id in s.lost
    ensures id in Step(s, a).lost && id in s.sv.jobs && id in Step(s, a).sv.jobs &&
            Step(s, a).sv.jobs[id] == s.sv.jobs[id]
  {
    hide Inv, Attempt, NewJob, Abandoned, Waiting;
    LostIsApart(s, id);
    match a
    case Save(p) =>
      if p in s.procs && s.procs[p].Trying? {
        AttemptKeepsId(s.procs[p].job, s.procs[p].replies);
      }
    case _ =>
  }

  lemma LostIsApart(s: State, id: nat)
    requires Inv(s) && id in s.lost
    ensures id in s.sv.jobs && Waiting(s.sv.jobs[id]) && id !in s.sv.queue && id != s.sv.nextId
    ensures forall p :: p in s.procs ==> IdOf(s.procs[p]) != id
  {
    FreshId(s);
    hide JobsInv, ProcsInv, CallsInv;
  }

  /** The two windows of processNextJob: a run that dies in one loses the job, which stays 'queued' or 'retrying'. */
  lemma WindowDeathLoses(s: State, p: nat)
    requires Inv(s) && p in s.procs && InWindow(s.procs[p])
    ensures var (s', id) := (Step(s, Die(p)), s.procs[p].id);
            id in s'.lost && id in s'.sv.jobs && Waiting(s'.sv.jobs[id]) && !QueueMatches(s'.sv)
  {
    hide Inv, QueueMatches, StoredJob, OnlyAt;
    hide DoSubmit, DoPop, DoBegin, DoTry, DoSave, DoPush;
    WindowHoldsWaiting(s, p);
    DieKeepsInv(s, p);
    MatchesIffNothingApart(DoDie(s, p));
  }

  function PopDeath(raw: seq<RawRecipient>, maxRetries: int): seq<Action> {
    [Submit(0, raw, maxRetries), Push(0), Pop(0), Die(0)]
  }

  /** A call that dies right after lPop takes the id with it. */
  lemma PopThenDie(s: State, p: nat)
    requires p !in s.procs && s.sv.queue != []
    ensures Step(Step(s, Pop(p)), Die(p)) == State(s.sv.(queue := s.sv.queue[1..]), s.procs, s.lost + {s.sv.queue[0]})
  {
    hide DoSubmit, DoBegin, DoTry, DoSave, DoPush;
    WithoutPut(s.procs, p, Popped(s.sv.queue[0]));
  }

  lemma PopDeathRun(raw: seq<RawRecipient>, maxRetries: int)
    requires raw != []
    ensures Run(PopDeath(raw, maxRetries)) == State(Enqueue(NO_JOBS, raw, maxRetries).(queue := []), map[], {0})
  {
    FourSteps(EMPTY, Submit(0, raw, maxRetries), Push(0), Pop(0), Die(0));
    WholeSubmitIsEnqueue(EMPTY, 0, raw, maxRetries);
    PopThenDie(State(Enqueue(NO_JOBS, raw, maxRetries), map[], {}), 0);
    hide Step;
  }

  lemma FourSteps(s: State, a: Action, b: Action, c: Action, d: Action)
    ensures RunFrom(s, [a, b, c, d]) == Step(Step(Step(Step(s, a), b), c), d)
  {
    hide Step;
    assert [a, b, c, d][..3] == [a, b, c] && [a, b, c][..2] == [a, b] && [a, b][..1] == [a] && [a][..0] == [];
    assert RunFrom(s, [a]) == Step(s, a);
    assert RunFrom(s, [a, b]) == Step(Step(s, a), b);
    assert RunFrom(s, [a, b, c]) == Step(Step(Step(s, a), b), c);
  }

  /**
   Such a run from nothing: a job is enqueued, popped, and its worker dies. The job says
   'queued', is in no queue, and whatever happens later it never is again.
   */
  lemma PopDeathLosesTheJob(raw: seq<RawRecipient>, maxRetries: int, more: seq<Action>)
    requires raw != [] && DistinctIds(NormalizedAll(raw)) && DistinctRequests(more)
    ensures var s := Run(PopDeath(raw, maxRetries));
            && s.sv.queue == [] && s.sv.jobs == map[0 := NewJob(0, raw, maxRetries)]
            && 0 in RunFrom(s, more).sv.jobs && RunFrom(s, more).sv.jobs[0].status == Queued
            && 0 !in RunFrom(s, more).sv.queue
  {
    PopDeathRun(raw, maxRetries);
    EmptyInv();
    RunKeepsInv(EMPTY, PopDeath(raw, maxRetries));
    LostForGood(Run(PopDeath(raw, maxRetries)), more, 0);
  }

  // ---------------------------------------------------------------- calls that run undisturbed

  /** A pass's calls, one after another. */
  function Tries(s: State, p: nat, n: nat): State {
    if n == 0 then s else Step(Tries(s, p, n - 1), Try(p))
  }

  lemma {:induction false} TriesAreCalls(s: State, p: nat, job: Job, replies: Replies, n: nat)
    requires p in s.procs && s.procs[p] == Trying(job, replies, 0) && n <= |job.pending|
    ensures Tries(s, p, n) ==
            State(s.sv.(calls := s.sv.calls + CallsOf(job, n, replies)), s.procs[p := Trying(job, replies, n)], s.lost)
  {
    hide Step;
    if n == 0 {
      assert s.procs[p := Trying(job, replies, 0)] == s.procs;
      assert s.sv.calls + [] == s.sv.calls;
    } else {
      TriesAreCalls(s, p, job, replies, n - 1);
      TryOne(s, p, job, replies, n - 1, Tries(s, p, n - 1));
    }
  }

  lemma TryOne(s: State, p: nat, job: Job, replies: Replies, n: nat, t: State)
    requires n < |job.pending|
    requires t == State(s.sv.(calls := s.sv.calls + CallsOf(job, n, replies)), s.procs[p := Trying(job, replies, n)],
                        s.lost)
    ensures Step(t, Try(p)) ==
            State(s.sv.(calls := s.sv.calls + CallsOf(job, n + 1, replies)), s.procs[p := Trying(job, replies, n + 1)],
                  s.lost)
  {
    hide DoSubmit, DoPop, DoBegin, DoSave, DoPush, DoDie;
    assert CallsOf(job, n + 1, replies) == CallsOf(job, n, replies) + [CallOf(job, n, replies)];
    assert t.procs[p := Trying(job, replies, n + 1)] == s.procs[p := Trying(job, replies, n + 1)];
  }

  /** What is left of a call that has saved its job as 'processing', or has found no job. */
  function RestOfCall(s: State, p: nat): State {
    if p !in s.procs || !s.procs[p].Trying? then s
    else
      var saved := Step(Tries(s, p, |s.procs[p].job.pending|), Save(p));
      if p in saved.procs then Step(saved, Push(p)) else saved
  }

  /** processNextJob's statements one after another. */
  function WholeCall(s: State, p: nat, replies: Replies): State {
    RestOfCall(Step(Step(s, Pop(p)), Begin(p, replies)), p)
  }

  lemma WholeCallIsProcessNext(s: State, p: nat, replies: Replies)
    requires Inv(s) && p !in s.procs
    ensures WholeCall(s, p, replies) == State(ProcessNext(s.sv, replies), s.procs, s.lost)
  {
    if s.sv.queue != [] {
      hide Inv, Step, RestOfCall, ProcessNext, Waiting;
      QueuedIsWaiting(s, s.sv.queue[0]);
      StoredIs(s, s.sv.queue[0]);
      BegunCall(s, p, s.sv.jobs[s.sv.queue[0]], replies);
      RestIsProcessNext(s, p, s.sv.jobs[s.sv.queue[0]], replies, Step(Step(s, Pop(p)), Begin(p, replies)));
    } else {
      hide Inv;
    }
  }

  lemma RestIsProcessNext(s: State, p: nat, job: Job, replies: Replies, begun: State)
    requires p !in s.procs && s.sv.queue != [] && s.sv.queue[0] == job.id && job.id in s.sv.jobs &&
             s.sv.jobs[job.id] == job
    requires begun == State(Service(s.sv.queue[1..], s.sv.jobs[job.id := Abandoned(job)], s.sv.nextId, s.sv.calls),
                            s.procs[p := Trying(job, replies, 0)], s.lost)
    ensures RestOfCall(begun, p) == State(ProcessNext(s.sv, replies), s.procs, s.lost)
  {
    hide Step, ProcessNext, Abandoned;
    var n := |job.pending|;
    TriesAreCalls(begun, p, job, replies, n);
    assert begun.procs[p := Trying(job, replies, n)] == s.procs[p := Trying(job, replies, n)];
    SavedCall(s, p, job, replies, Tries(begun, p, n));
  }

  lemma StoredIs(s: State, id: nat)
    requires Inv(s) && id in s.sv.jobs
    ensures s.sv.jobs[id].id == id
  {
    hide JobInv, Exclusive, Placed, ProcsInv, CallsInv;
    assert StoredJob(s.sv, id);
  }

  lemma BegunCall(s: State, p: nat, job: Job, replies: Replies)
    requires p !in s.procs && s.sv.queue != [] && s.sv.queue[0] == job.id && job.id in s.sv.jobs &&
             s.sv.jobs[job.id] == job
    ensures Step(Step(s, Pop(p)), Begin(p, replies)) ==
            State(Service(s.sv.queue[1..], s.sv.jobs[job.id := Abandoned(job)], s.sv.nextId, s.sv.calls),
                  s.procs[p := Trying(job, replies, 0)], s.lost)
  {
    hide Attempt, Abandoned, DoSubmit, DoTry, DoSave, DoPush, DoDie;
    assert s.procs[p := Popped(job.id)][p := Trying(job, replies, 0)] == s.procs[p := Trying(job, replies, 0)];
  }

  lemma SavedCall(s: State, p: nat, job: Job, replies: Replies, tried: State)
    requires p !in s.procs && s.sv.queue != [] && s.sv.queue[0] == job.id && job.id in s.sv.jobs &&
             s.sv.jobs[job.id] == job
    requires tried.procs == s.procs[p := Trying(job, replies, |job.pending|)] && tried.lost == s.lost
    requires tried.sv == Service(s.sv.queue[1..], s.sv.jobs[job.id := Abandoned(job)], s.sv.nextId,
                                 s.sv.calls + CallsOf(job, |job.pending|, replies))
    ensures var saved := Step(tried, Save(p));
            (if p in saved.procs then Step(saved, Push(p)) else saved) ==
                State(ProcessNext(s.sv, replies), s.procs, s.lost)
  {
    hide Attempt, CallsOf, Abandoned, DoSubmit, DoPop, DoBegin, DoTry, DoDie;
    AttemptKeepsId(job, replies);
    assert tried.sv.jobs[job.id := Attempt(job, replies)] == s.sv.jobs[job.id := Attempt(job, replies)];
    WithoutPut(s.procs, p, Trying(job, replies, |job.pending|));
    WithoutPut(s.procs, p, Pushing(job.id));
    assert tried.procs[p := Pushing(job.id)] == s.procs[p := Pushing(job.id)];
    assert s.sv.queue[1..] + [] == s.sv.queue[1..];
  }

  /** enqueueJob's two statements one after the other. */
  lemma WholeSubmitIsEnqueue(s: State, p: nat, raw: seq<RawRecipient>, maxRetries: int)
    requires p !in s.procs && raw != []
    ensures Step(Step(s, Submit(p, raw, maxRetries)), Push(p)) == State(Enqueue(s.sv, raw, maxRetries), s.procs, s.lost)
  {
    assert Without(s.procs[p := Pushing(s.sv.nextId)], p) == s.procs;
  }

  /** With no call in progress and none lost, the invariant is the service's. */
  lemma QuietInv(sv: Service)
    ensures Inv(State(sv, map[], {})) <==> ServiceInv(sv)
  {
    MatchesQuiet(sv);
  }

  lemma MatchesQuiet(sv: Service)
    ensures Placed(sv.queue, sv.jobs, map[], {}) && Exclusive(sv.queue, map[], {}) <==> QueueMatches(sv)
  {
    forall id
      ensures !Held(map[], id)
    {
    }
  }

  /** Undisturbed calls keep the service's invariant, queue and statuses in agreement included. */
  lemma ProcessKeepsInv(sv: Service, replies: Replies)
    requires ServiceInv(sv)
    ensures ServiceInv(ProcessNext(sv, replies))
  {
    var s := State(sv, map[], {});
    QuietInv(sv);
    WholeCallIsProcessNext(s, 0, replies);
    WholeCallKeepsInv(s, 0, replies);
    QuietInv(ProcessNext(sv, replies));
  }

  lemma {:induction false} TriesKeepInv(s: State, p: nat, n: nat)
    requires Inv(s)
    ensures Inv(Tries(s, p, n))
  {
    if n > 0 {
      TriesKeepInv(s, p, n - 1);
      StepKeepsInv(Tries(s, p, n - 1), Try(p));
    }
  }

  lemma WholeCallKeepsInv(s: State, p: nat, replies: Replies)
    requires Inv(s)
    ensures Inv(WholeCall(s, p, replies))
  {
    hide Inv, Step, Tries;
    StepKeepsInv(s, Pop(p));
    var begun := Step(Step(s, Pop(p)), Begin(p, replies));
    StepKeepsInv(Step(s, Pop(p)), Begin(p, replies));
    if p in begun.procs && begun.procs[p].Trying? {
      var tried := Tries(begun, p, |begun.procs[p].job.pending|);
      TriesKeepInv(begun, p, |begun.procs[p].job.pending|);
      StepKeepsInv(tried, Save(p));
      StepKeepsInv(Step(tried, Save(p)), Push(p));
    }
  }

  lemma EnqueueKeepsInv(sv: Service, raw: seq<RawRecipient>, maxRetries: int)
    requires ServiceInv(sv) && DistinctIds(NormalizedAll(raw))
    ensures ServiceInv(Enqueue(sv, raw, maxRetries))
  {
    if raw != [] {
      var s := State(sv, map[], {});
      QuietInv(sv);
      WholeSubmitIsEnqueue(s, 0, raw, maxRetries);
      StepKeepsInv(s, Submit(0, raw, maxRetries));
      StepKeepsInv(Step(s, Submit(0, raw, maxRetries)), Push(0));
      QuietInv(Enqueue(sv, raw, maxRetries));
    }
  }

  // ---------------------------------------------------------------- draining

  function ProcessAll(sv: Service, answers: seq<Replies>): Service
    decreases |answers|
  {
    if answers == [] then sv else ProcessAll(ProcessNext(sv, answers[0]), answers[1..])
  }

  /** Calling processNextJob as often as there is work empties the queue, whatever the replies. */
  lemma {:induction false} QueueDrains(sv: Service, answers: seq<Replies>)
    requires ServiceInv(sv) && Work(sv.queue, sv.jobs) <= |answers|
    ensures ProcessAll(sv, answers).queue == []
    ensures ServiceInv(ProcessAll(sv, answers))
    ensures forall id :: id in ProcessAll(sv, answers).jobs ==> !Waiting(ProcessAll(sv, answers).jobs[id])
    decreases |answers|
  {
    if sv.queue == [] {
      EmptyStaysEmpty(sv, answers);
      assert forall id :: id in sv.jobs && Waiting(sv.jobs[id]) ==> id in sv.queue;
    } else {
      ProcessingUsesUpWork(sv, answers[0]);
      ProcessKeepsInv(sv, answers[0]);
      QueueDrains(ProcessNext(sv, answers[0]), answers[1..]);
    }
  }

  lemma {:induction false} EmptyStaysEmpty(sv: Service, answers: seq<Replies>)
    requires sv.queue == []
    ensures ProcessAll(sv, answers) == sv
    decreases |answers|
  {
    if answers != [] {
      EmptyStaysEmpty(sv, answers[1..]);
    }
  }
}
