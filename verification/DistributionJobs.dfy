/**
 The reward distribution queue: a FIFO list of job ids beside a store of jobs, and
 a job that is attempted, partly succeeds, is retried for what is left, and ends.

 `Attempt`, `Enqueue` and `ProcessNext` say in one step what the service does in
 loops (JobService.dfy), each call running to its end. JobRuns.dfy takes the calls
 apart into statements, interleaves them and lets them die.
 */
module DistributionJobs {
  import opened Options

  /** A recipient object; `data` is whatever else the caller put into it. */
  datatype Recipient = Recipient(id: string, data: string)

  /** A plain string is short for a recipient with that id. */
  datatype RawRecipient = Plain(name: string) | Object(recipient: Recipient)

  datatype Failure = Failure(recipient: Recipient, message: string)

  datatype HistoryEntry = HistoryEntry(attemptNumber: nat, failures: seq<Failure>)

  datatype Status = Queued | Processing | Retrying | Completed | Failed

  datatype Job = Job(
    id: nat,
    status: Status,
    recipients: seq<Recipient>,
    pending: seq<Recipient>,
    successful: seq<Recipient>,
    failed: seq<Failure>,
    history: seq<HistoryEntry>,
    retryCount: nat,
    attemptsMade: nat,
    maxRetries: int,
    lastError: Option<string>)

  /** What processRecipient answers to the i-th call of a pass: None, or the error it throws. */
  type Replies = nat -> Option<string>

  // ---------------------------------------------------------------- one pass over the recipients

  function Normalized(raw: RawRecipient): Recipient {
    match raw
    case Plain(name) => Recipient(name, "")
    case Object(r) => r
  }

  function NormalizedAll(raw: seq<RawRecipient>): (rs: seq<Recipient>)
    ensures |rs| == |raw| && forall i :: 0 <= i < |raw| ==> rs[i] == Normalized(raw[i])
  {
    seq(|raw|, i requires 0 <= i < |raw| => Normalized(raw[i]))
  }

  function Passed(rs: seq<Recipient>, replies: Replies): seq<Recipient> {
    if rs == [] then []
    else
      var n := |rs| - 1;
      Passed(rs[..n], replies) + if replies(n).None? then [rs[n]] else []
  }

  function Failing(rs: seq<Recipient>, replies: Replies): seq<Failure> {
    if rs == [] then []
    else
      var n := |rs| - 1;
      Failing(rs[..n], replies) + if replies(n).Some? then [Failure(rs[n], replies(n).value)] else []
  }

  function RecipientsOf(failures: seq<Failure>): (rs: seq<Recipient>)
    ensures |rs| == |failures|
  {
    if failures == [] then []
    else
      var n := |failures| - 1;
      RecipientsOf(failures[..n]) + [failures[n].recipient]
  }

  function Ids(rs: seq<Recipient>): set<string> {
    set r | r in rs :: r.id
  }

  /** The successes are appended, except those whose id is already there. */
  function AddUnseen(have: seq<Recipient>, more: seq<Recipient>): seq<Recipient> {
    if more == [] then have
    else
      var n := |more| - 1;
      var soFar := AddUnseen(have, more[..n]);
      if more[n].id in Ids(soFar) then soFar else soFar + [more[n]]
  }

  /** Where a pass leaves a job. */
  function NextStatus(job: Job, failures: seq<Failure>): Status {
    if failures == [] then Completed else if job.retryCount < job.maxRetries then Retrying else Failed
  }

  /** A job after one pass of processNextJob. */
  function Attempt(job: Job, replies: Replies): Job {
    var failures := Failing(job.pending, replies);
    var status := NextStatus(job, failures);
    var attempt := job.attemptsMade + 1;
    Job(job.id,
        status,
        job.recipients,
        RecipientsOf(failures),
        AddUnseen(job.successful, Passed(job.pending, replies)),
        failures,
        if failures == [] then job.history else job.history + [HistoryEntry(attempt, failures)],
        if status == Retrying then job.retryCount + 1 else job.retryCount,
        attempt,
        job.maxRetries,
        if failures == [] then None else Some(failures[0].message))
  }

  // ---------------------------------------------------------------- the service

  /** One call of processRecipient. */
  datatype Call = Call(job: nat, attempt: nat, recipient: Recipient, ok: bool)

  datatype Service = Service(queue: seq<nat>, jobs: map<nat, Job>, nextId: nat, calls: seq<Call>)

  predicate Waiting(job: Job) {
    job.status == Queued || job.status == Retrying
  }

  function NewJob(id: nat, raw: seq<RawRecipient>, maxRetries: int): Job {
    var rs := NormalizedAll(raw);
    Job(id, Queued, rs, rs, [], [], [], 0, 0, maxRetries, None)
  }

  /** An empty list is refused; the id is the fresh UUID. */
  function Enqueue(sv: Service, raw: seq<RawRecipient>, maxRetries: int): Service {
    if raw == [] then sv
    else
      sv.(queue := sv.queue + [sv.nextId],
          jobs := sv.jobs[sv.nextId := NewJob(sv.nextId, raw, maxRetries)],
          nextId := sv.nextId + 1)
  }

  /** The call for pending recipient i. */
  function CallOf(job: Job, i: nat, replies: Replies): Call
    requires i < |job.pending|
  {
    Call(job.id, job.attemptsMade + 1, job.pending[i], replies(i).None?)
  }

  function CallsOf(job: Job, n: nat, replies: Replies): (calls: seq<Call>)
    requires n <= |job.pending|
    ensures |calls| == n && forall i :: 0 <= i < n ==> calls[i] == CallOf(job, i, replies)
  {
    seq(n, i requires 0 <= i < n => CallOf(job, i, replies))
  }

  function ProcessNext(sv: Service, replies: Replies): Service {
    if sv.queue == [] then sv
    else if sv.queue[0] !in sv.jobs then sv.(queue := sv.queue[1..])
    else
      var job := sv.jobs[sv.queue[0]];
      var job' := Attempt(job, replies);
      sv.(jobs := sv.jobs[job.id := job'],
          queue := sv.queue[1..] + if job'.status == Retrying then [job.id] else [],
          calls := sv.calls + CallsOf(job, |job.pending|, replies))
  }

  /** A job as it is saved when its pass begins; it stays like this if the worker then dies. */
  function Abandoned(job: Job): Job {
    job.(status := Processing, attemptsMade := job.attemptsMade + 1, failed := [], lastError := None)
  }

  const NO_JOBS := Service([], map[], 0, [])

  // ---------------------------------------------------------------- recipients under one pass

  ghost predicate DistinctIds(rs: seq<Recipient>) {
    forall i, j :: 0 <= i < j < |rs| ==> rs[i].id != rs[j].id
  }

  ghost predicate NoSharedId(a: seq<Recipient>, b: seq<Recipient>) {
    forall x, y :: x in a && y in b ==> x.id != y.id
  }

  /** a is what remains of b after dropping elements, in order. */
  ghost predicate Subsequence(a: seq<Recipient>, b: seq<Recipient>) {
    a == [] ||
    (b != [] &&
     ((a[|a| - 1] == b[|b| - 1] && Subsequence(a[..|a| - 1], b[..|b| - 1])) || Subsequence(a, b[..|b| - 1])))
  }

  lemma {:induction false} SubsequenceTransitive(a: seq<Recipient>, b: seq<Recipient>, c: seq<Recipient>)
    requires Subsequence(a, b) && Subsequence(b, c)
    ensures Subsequence(a, c)
    decreases |b| + |c|
  {
    if a != [] {
      if b[|b| - 1] == c[|c| - 1] && Subsequence(b[..|b| - 1], c[..|c| - 1]) {
        if a[|a| - 1] == b[|b| - 1] && Subsequence(a[..|a| - 1], b[..|b| - 1]) {
          SubsequenceTransitive(a[..|a| - 1], b[..|b| - 1], c[..|c| - 1]);
        } else {
          SubsequenceTransitive(a, b[..|b| - 1], c[..|c| - 1]);
        }
      } else {
        SubsequenceTransitive(a, b, c[..|c| - 1]);
      }
    }
  }

  lemma {:induction false} SubsequenceReflexive(a: seq<Recipient>)
    ensures Subsequence(a, a)
  {
    if a != [] {
      SubsequenceReflexive(a[..|a| - 1]);
    }
  }

  /** a and b divide up all, by id, with nobody lost or doubled. */
  ghost predicate Splits(all: seq<Recipient>, a: seq<Recipient>, b: seq<Recipient>) {
    && DistinctIds(a) && DistinctIds(b) && NoSharedId(a, b)
    && (forall r :: r in all <==> r in a || r in b)
    && |a| + |b| == |all|
  }

  lemma SplitsMoreLeft(all: seq<Recipient>, a: seq<Recipient>, b: seq<Recipient>, r: Recipient)
    requires Splits(all, a, b) && NoSharedId(all, [r])
    ensures Splits(all + [r], a + [r], b)
  {
    assert r in [r];
  }

  lemma SplitsMoreRight(all: seq<Recipient>, a: seq<Recipient>, b: seq<Recipient>, r: Recipient)
    requires Splits(all, a, b) && NoSharedId(all, [r])
    ensures Splits(all + [r], a, b + [r])
  {
    assert r in [r];
  }

  lemma SplitsNest(all: seq<Recipient>, a: seq<Recipient>, b: seq<Recipient>, b1: seq<Recipient>, b2: seq<Recipient>)
    requires Splits(all, a, b) && Splits(b, b1, b2)
    ensures Splits(all, a + b1, b2) && NoSharedId(a, b1)
  {
  }

  lemma RecipientsOfMore(failures: seq<Failure>, f: Failure)
    ensures RecipientsOf(failures + [f]) == RecipientsOf(failures) + [f.recipient]
  {
    assert (failures + [f])[..|failures|] == failures;
  }

  lemma PassedMore(rs: seq<Recipient>, r: Recipient, replies: Replies)
    ensures Passed(rs + [r], replies) == Passed(rs, replies) + if replies(|rs|).None? then [r] else []
  {
    assert (rs + [r])[..|rs|] == rs;
  }

  lemma FailingMore(rs: seq<Recipient>, r: Recipient, replies: Replies)
    ensures Failing(rs + [r], replies) ==
            Failing(rs, replies) + if replies(|rs|).Some? then [Failure(r, replies(|rs|).value)] else []
  {
    assert (rs + [r])[..|rs|] == rs;
  }

  /** The last recipient of a pass goes to one side or the other. */
  lemma PassUnfolds(rs: seq<Recipient>, r: Recipient, replies: Replies)
    ensures Passed(rs + [r], replies) == Passed(rs, replies) + if replies(|rs|).None? then [r] else []
    ensures RecipientsOf(Failing(rs + [r], replies)) ==
            RecipientsOf(Failing(rs, replies)) + if replies(|rs|).Some? then [r] else []
  {
    hide Passed, Failing, RecipientsOf;
    PassedMore(rs, r, replies);
    FailingMore(rs, r, replies);
    var failures := Failing(rs, replies);
    if replies(|rs|).Some? {
      RecipientsOfMore(failures, Failure(r, replies(|rs|).value));
    } else {
      assert failures + [] == failures;
      assert RecipientsOf(failures) + [] == RecipientsOf(failures);
    }
  }

  lemma DistinctRest(most: seq<Recipient>, last: Recipient)
    requires DistinctIds(most + [last])
    ensures DistinctIds(most) && NoSharedId(most, [last])
  {
    var rs := most + [last];
    assert forall i :: 0 <= i < |most| ==> rs[i] == most[i];
    assert rs[|most|] == last;
  }

  /** Nobody is lost or doubled by a pass. */
  lemma {:induction false} PassSplits(rs: seq<Recipient>, replies: Replies)
    requires DistinctIds(rs)
    ensures Splits(rs, Passed(rs, replies), RecipientsOf(Failing(rs, replies)))
  {
    if rs != [] {
      hide Failing, Passed, RecipientsOf, Splits, DistinctIds, NoSharedId;
      var most, last := rs[..|rs| - 1], rs[|rs| - 1];
      assert rs == most + [last];
      DistinctRest(most, last);
      PassSplits(most, replies);
      PassSplitsMore(most, last, replies);
    }
  }

  lemma PassSplitsMore(most: seq<Recipient>, last: Recipient, replies: Replies)
    requires Splits(most, Passed(most, replies), RecipientsOf(Failing(most, replies))) && NoSharedId(most, [last])
    ensures Splits(most + [last], Passed(most + [last], replies), RecipientsOf(Failing(most + [last], replies)))
  {
    hide Failing, Passed, RecipientsOf, Splits, NoSharedId;
    PassUnfolds(most, last, replies);
    var passed, left := Passed(most, replies), RecipientsOf(Failing(most, replies));
    if replies(|most|).Some? {
      assert passed + [] == passed;
      SplitsMoreRight(most, passed, left, last);
    } else {
      assert left + [] == left;
      SplitsMoreLeft(most, passed, left, last);
    }
  }

  lemma SubsequenceMore(a: seq<Recipient>, b: seq<Recipient>, r: Recipient)
    requires Subsequence(a, b)
    ensures Subsequence(a, b + [r]) && Subsequence(a + [r], b + [r])
  {
    assert (a + [r])[..|a|] == a && (b + [r])[..|b|] == b;
  }

  lemma {:induction false} FailingIsSubsequence(rs: seq<Recipient>, replies: Replies)
    ensures Subsequence(RecipientsOf(Failing(rs, replies)), rs)
  {
    if rs != [] {
      hide Failing, Passed, RecipientsOf, Subsequence;
      var most, last := rs[..|rs| - 1], rs[|rs| - 1];
      assert rs == most + [last];
      FailingIsSubsequence(most, replies);
      PassUnfolds(most, last, replies);
      var left := RecipientsOf(Failing(most, replies));
      SubsequenceMore(left, most, last);
      if replies(|most|).None? {
        assert left + [] == left;
      }
    }
  }

  lemma AddUnseenMore(have: seq<Recipient>, more: seq<Recipient>, r: Recipient)
    ensures AddUnseen(have, more + [r]) ==
            AddUnseen(have, more) + if r.id in Ids(AddUnseen(have, more)) then [] else [r]
  {
    assert (more + [r])[..|more|] == more;
    assert AddUnseen(have, more) + [] == AddUnseen(have, more);
  }

  lemma {:induction false} AddUnseenAppends(have: seq<Recipient>, more: seq<Recipient>)
    requires DistinctIds(more) && NoSharedId(have, more)
    ensures AddUnseen(have, more) == have + more
  {
    if more != [] {
      var most, last := more[..|more| - 1], more[|more| - 1];
      assert more == most + [last];
      DistinctRest(most, last);
      AddUnseenAppends(have, most);
      AddUnseenMore(have, most, last);
      hide AddUnseen;
      NotAmongIds(have + most, last);
      assert have + (most + [last]) == (have + most) + [last];
    }
  }

  lemma NotAmongIds(rs: seq<Recipient>, r: Recipient)
    requires NoSharedId(rs, [r])
    ensures r.id !in Ids(rs)
  {
    assert r in [r];
  }

  // ---------------------------------------------------------------- what every job keeps

  function Budget(job: Job): nat {
    if job.maxRetries < 0 then 0 else job.maxRetries
  }

  ghost predicate FailedEveryTime(job: Job) {
    forall r, h :: r in job.pending && h in job.history ==> r in RecipientsOf(h.failures)
  }

  /** Successful and pending recipients partition the original ones. */
  ghost predicate Partitioned(job: Job) {
    Splits(job.recipients, job.successful, job.pending) && Subsequence(job.pending, job.recipients)
  }

  /** The counters, by status. */
  ghost predicate Counted(job: Job) {
    && job.retryCount <= Budget(job)
    && (forall i :: 0 <= i < |job.history| ==> job.history[i].attemptNumber == i + 1)
    && match job.status
       case Queued => job.attemptsMade == job.retryCount == |job.history| == 0 && job.pending != []
       case Retrying => 1 <= job.attemptsMade == job.retryCount == |job.history| && job.pending != []
       case Processing => job.attemptsMade == job.retryCount + 1 && |job.history| == job.retryCount
       case Completed => job.attemptsMade == job.retryCount + 1 && |job.history| == job.retryCount && job.pending == []
       case Failed =>
         && job.attemptsMade == job.retryCount + 1 == |job.history|
         && job.retryCount == Budget(job) && job.pending != []
  }

  /** What a caller sees of the last pass: its failures and the first of their errors, while it left any. */
  ghost predicate Reported(job: Job) {
    if job.status == Retrying || job.status == Failed then
      && job.failed != [] && RecipientsOf(job.failed) == job.pending
      && job.history != [] && job.history[|job.history| - 1].failures == job.failed
      && job.lastError == Some(job.failed[0].message)
    else job.failed == [] && job.lastError == None
  }

  ghost predicate JobInv(job: Job) {
    Partitioned(job) && Counted(job) && FailedEveryTime(job) && Reported(job)
  }

  lemma AttemptKeepsPartition(job: Job, replies: Replies)
    requires Partitioned(job)
    ensures Partitioned(Attempt(job, replies))
    ensures Attempt(job, replies).successful == job.successful + Passed(job.pending, replies)
    ensures Subsequence(Attempt(job, replies).pending, job.pending)
  {
    var passed := Passed(job.pending, replies);
    var left := RecipientsOf(Failing(job.pending, replies));
    PassSplits(job.pending, replies);
    FailingIsSubsequence(job.pending, replies);
    SplitsNest(job.recipients, job.successful, job.pending, passed, left);
    AddUnseenAppends(job.successful, passed);
    SubsequenceTransitive(left, job.pending, job.recipients);
  }

  lemma AttemptKeepsHistory(job: Job, replies: Replies)
    requires FailedEveryTime(job)
    requires forall r :: r in RecipientsOf(Failing(job.pending, replies)) ==> r in job.pending
    ensures FailedEveryTime(Attempt(job, replies))
  {
    var job' := Attempt(job, replies);
    var failures := Failing(job.pending, replies);
    forall r, h | r in job'.pending && h in job'.history
      ensures r in RecipientsOf(h.failures)
    {
      if h in job.history {
        assert r in job.pending;
      } else {
        assert h.failures == failures;
      }
    }
  }

  lemma AttemptKeepsCounters(job: Job, replies: Replies)
    requires Counted(job) && Waiting(job)
    ensures Counted(Attempt(job, replies))
    ensures Attempt(job, replies).status in {Retrying, Completed, Failed}
  {
    LeftAsMany(Failing(job.pending, replies));
    hide Failing, Passed, AddUnseen, RecipientsOf;
  }

  lemma AttemptIsReported(job: Job, replies: Replies)
    ensures Reported(Attempt(job, replies))
  {
    LeftAsMany(Failing(job.pending, replies));
    hide Failing, Passed, AddUnseen, RecipientsOf;
  }

  lemma LeftAsMany(failures: seq<Failure>)
    ensures RecipientsOf(failures) == [] <==> failures == []
  {
    assert |RecipientsOf(failures)| == |failures|;
  }

  lemma AttemptKeepsId(job: Job, replies: Replies)
    ensures Attempt(job, replies).id == job.id
  {
    hide Failing, Passed, AddUnseen, RecipientsOf;
  }

  /** A pass over a waiting job keeps everything a job must satisfy. */
  lemma AttemptKeepsJobInv(job: Job, replies: Replies)
    requires JobInv(job) && Waiting(job)
    ensures JobInv(Attempt(job, replies))
  {
    AttemptKeepsPartition(job, replies);
    PassSplits(job.pending, replies);
    AttemptKeepsHistory(job, replies);
    AttemptKeepsCounters(job, replies);
    AttemptIsReported(job, replies);
  }

  /**
   A failed job's leftovers failed in each of its maxRetries + 1 attempts; a completed
   job has paid everyone, each once.
   */
  lemma EndedJobs(job: Job)
    requires JobInv(job)
    ensures job.status == Completed ==> Splits(job.recipients, job.successful, [])
    ensures job.status == Failed ==> |job.history| == Budget(job) + 1
    ensures job.status == Failed ==>
      forall r, i :: r in job.pending && 0 <= i < |job.history| ==> r in RecipientsOf(job.history[i].failures)
  {
    forall r, i | job.status == Failed && r in job.pending && 0 <= i < |job.history|
      ensures r in RecipientsOf(job.history[i].failures)
    {
      assert job.history[i] in job.history;
    }
  }

  // ---------------------------------------------------------------- what every call keeps

  /** A job is in the queue exactly once while it waits, and not at all otherwise. */
  ghost predicate QueueMatches(sv: Service) {
    && (forall i, j :: 0 <= i < j < |sv.queue| ==> sv.queue[i] != sv.queue[j])
    && (forall id :: id in sv.queue <==> id in sv.jobs && Waiting(sv.jobs[id]))
  }

  /** After a call that succeeded, that recipient of that job is never called again. */
  ghost predicate NoCallAfterSuccess(calls: seq<Call>) {
    forall i, j :: 0 <= i < j < |calls| && calls[i].ok && calls[i].job == calls[j].job ==>
      calls[i].recipient.id != calls[j].recipient.id
  }

  /** Whoever may still be called has not succeeded yet. */
  ghost predicate PaidAreNotPending(jobs: map<nat, Job>, calls: seq<Call>) {
    forall c, r :: c in calls && c.ok && c.job in jobs && Waiting(jobs[c.job]) && r in jobs[c.job].pending ==>
      c.recipient.id != r.id
  }

  ghost predicate StoredJob(sv: Service, id: nat)
    requires id in sv.jobs
  {
    sv.jobs[id].id == id && id < sv.nextId && JobInv(sv.jobs[id])
  }

  ghost predicate ServiceInv(sv: Service) {
    && (forall id :: id in sv.jobs ==> StoredJob(sv, id))
    && QueueMatches(sv)
    && (forall c :: c in sv.calls ==> c.job in sv.jobs)
    && NoCallAfterSuccess(sv.calls)
    && PaidAreNotPending(sv.jobs, sv.calls)
  }

  /** Whoever is left after a pass was answered with an error in it. */
  lemma {:induction false} LeftHasFailed(rs: seq<Recipient>, replies: Replies, r: Recipient)
    requires r in RecipientsOf(Failing(rs, replies))
    ensures exists i: nat :: i < |rs| && rs[i] == r && replies(i).Some?
  {
    if rs != [] {
      hide Failing, Passed, RecipientsOf;
      var most, last := rs[..|rs| - 1], rs[|rs| - 1];
      assert rs == most + [last];
      PassUnfolds(most, last, replies);
      if r in RecipientsOf(Failing(most, replies)) {
        LeftHasFailed(most, replies, r);
        var i: nat :| i < |most| && most[i] == r && replies(i).Some?;
        assert rs[i] == r;
      } else {
        assert rs[|most|] == r;
      }
    }
  }

  lemma HeadIsWaiting(sv: Service)
    requires ServiceInv(sv) && sv.queue != []
    ensures sv.queue[0] in sv.jobs && Waiting(sv.jobs[sv.queue[0]])
    ensures sv.jobs[sv.queue[0]].id == sv.queue[0] && JobInv(sv.jobs[sv.queue[0]])
  {
    assert sv.queue[0] in sv.queue;
    assert StoredJob(sv, sv.queue[0]);
  }

  // ---------------------------------------------------------------- draining

  /** Attempts a waiting job may still take. */
  function AttemptsLeft(job: Job): nat {
    if job.retryCount <= Budget(job) then Budget(job) - job.retryCount + 1 else 0
  }

  function Work(queue: seq<nat>, jobs: map<nat, Job>): nat {
    if queue == [] then 0
    else (if queue[0] in jobs then AttemptsLeft(jobs[queue[0]]) else 1) + Work(queue[1..], jobs)
  }

  lemma {:induction false} WorkAppend(queue: seq<nat>, id: nat, jobs: map<nat, Job>)
    ensures Work(queue + [id], jobs) == Work(queue, jobs) + Work([id], jobs)
  {
    if queue == [] {
      assert queue + [id] == [id];
    } else {
      assert (queue + [id])[1..] == queue[1..] + [id];
      WorkAppend(queue[1..], id, jobs);
    }
  }

  lemma {:induction false} WorkIgnoresOthers(queue: seq<nat>, jobs: map<nat, Job>, id: nat, job: Job)
    requires id !in queue
    ensures Work(queue, jobs[id := job]) == Work(queue, jobs)
  {
    if queue != [] {
      WorkIgnoresOthers(queue[1..], jobs, id, job);
    }
  }

  lemma RetryLeavesFewerAttempts(job: Job, replies: Replies)
    requires JobInv(job) && Waiting(job)
    ensures AttemptsLeft(job) >= 1
    ensures Attempt(job, replies).status == Retrying ==> AttemptsLeft(Attempt(job, replies)) == AttemptsLeft(job) - 1
  {
  }

  /** Work of the queue with its head taken off and its job replaced. */
  lemma WorkOfRest(sv: Service, job: Job)
    requires ServiceInv(sv) && sv.queue != [] && job.id == sv.queue[0]
    ensures Work(sv.queue[1..], sv.jobs[job.id := job]) == Work(sv.queue[1..], sv.jobs)
  {
    forall k | 0 <= k < |sv.queue[1..]|
      ensures sv.queue[1..][k] != job.id
    {
      assert sv.queue[1..][k] == sv.queue[k + 1];
    }
    WorkIgnoresOthers(sv.queue[1..], sv.jobs, job.id, job);
  }

  /** Each call on a non-empty queue uses up work, even when the job goes back in. */
  lemma ProcessingUsesUpWork(sv: Service, replies: Replies)
    requires ServiceInv(sv) && sv.queue != []
    ensures var sv' := ProcessNext(sv, replies); Work(sv'.queue, sv'.jobs) < Work(sv.queue, sv.jobs)
  {
    hide Attempt, CallsOf, ServiceInv, JobInv;
    HeadIsWaiting(sv);
    AttemptKeepsId(sv.jobs[sv.queue[0]], replies);
    var job := sv.jobs[sv.queue[0]];
    var job' := Attempt(job, replies);
    var rest := sv.queue[1..];
    RetryLeavesFewerAttempts(job, replies);
    WorkOfRest(sv, job');
    if job'.status == Retrying {
      WorkAppend(rest, job.id, sv.jobs[job.id := job']);
      assert Work([job.id], sv.jobs[job.id := job']) == AttemptsLeft(job');
    } else {
      assert rest + [] == rest;
    }
  }

  // ---------------------------------------------------------------- from the request to the calls

  /** Each failure of a pass is an error processRecipient threw for that recipient, and each error is one of them. */
  lemma {:induction false} FailuresAreErrors(rs: seq<Recipient>, replies: Replies)
    ensures forall f :: f in Failing(rs, replies) ==>
              exists i: nat :: i < |rs| && rs[i] == f.recipient && replies(i) == Some(f.message)
    ensures forall i: nat :: i < |rs| && replies(i).Some? ==> Failure(rs[i], replies(i).value) in Failing(rs, replies)
  {
    if rs != [] {
      var n := |rs| - 1;
      var most := rs[..n];
      FailuresAreErrors(most, replies);
      forall f | f in Failing(rs, replies)
        ensures exists i: nat :: i < |rs| && rs[i] == f.recipient && replies(i) == Some(f.message)
      {
        if f in Failing(most, replies) {
          var i: nat :| i < n && most[i] == f.recipient && replies(i) == Some(f.message);
          assert rs[i] == f.recipient;
        } else {
          assert rs[n] == f.recipient && replies(n) == Some(f.message);
        }
      }
      forall i: nat | i < |rs| && replies(i).Some?
        ensures Failure(rs[i], replies(i).value) in Failing(rs, replies)
      {
        assert i < n ==> most[i] == rs[i];
      }
    }
  }

  ghost predicate NoErrors(replies: Replies, n: nat) {
    forall j: nat :: j < n ==> replies(j).None?
  }

  /** The first of a pass's failures is its first error. */
  lemma {:induction false} FirstFailure(rs: seq<Recipient>, replies: Replies, i: nat)
    requires i < |rs| && replies(i).Some? && NoErrors(replies, i)
    ensures Failing(rs, replies) != [] && Failing(rs, replies)[0] == Failure(rs[i], replies(i).value)
  {
    hide NoErrors;
    var n := |rs| - 1;
    if i < n {
      FirstFailure(rs[..n], replies, i);
    } else {
      NoFailure(rs[..n], replies);
    }
  }

  lemma {:induction false} NoFailure(rs: seq<Recipient>, replies: Replies)
    requires NoErrors(replies, |rs|)
    ensures Failing(rs, replies) == [] && Passed(rs, replies) == rs
  {
    if rs != [] {
      var n := |rs| - 1;
      assert NoErrors(replies, n) && replies(n).None?;
      hide NoErrors;
      NoFailure(rs[..n], replies);
      assert rs == rs[..n] + [rs[n]];
    }
  }

  lemma SomeFailure(rs: seq<Recipient>, replies: Replies)
    requires !NoErrors(replies, |rs|)
    ensures Failing(rs, replies) != []
  {
    FailuresAreErrors(rs, replies);
    hide Failing;
  }

  /** A pass tells of the first error thrown in it, and of none when none was thrown. */
  lemma FirstErrorIsTold(job: Job, replies: Replies, i: nat)
    ensures Attempt(job, replies).lastError == None <==> NoErrors(replies, |job.pending|)
    ensures i < |job.pending| && replies(i).Some? && NoErrors(replies, i) ==>
              Attempt(job, replies).lastError == replies(i)
  {
    var rs := job.pending;
    hide NoErrors, Failing, Passed, AddUnseen, RecipientsOf;
    if NoErrors(replies, |rs|) {
      NoFailure(rs, replies);
    } else {
      SomeFailure(rs, replies);
    }
    if i < |rs| && replies(i).Some? && NoErrors(replies, i) {
      FirstFailure(rs, replies, i);
    }
  }

  /** The request asks for the recipient: by its id alone, or as the object it is. */
  predicate AsksFor(raw: RawRecipient, r: Recipient) {
    raw == Object(r) || (raw == Plain(r.id) && r.data == "")
  }

  predicate AskFor(raw: seq<RawRecipient>, rs: seq<Recipient>) {
    |raw| == |rs| && forall i :: 0 <= i < |raw| ==> AsksFor(raw[i], rs[i])
  }

  function Plains(names: seq<string>): (raw: seq<RawRecipient>)
    ensures |raw| == |names| && forall i :: 0 <= i < |names| ==> raw[i] == Plain(names[i])
  {
    seq(|names|, i requires 0 <= i < |names| => Plain(names[i]))
  }

  ghost predicate Different(names: seq<string>) {
    forall i, j :: 0 <= i < j < |names| ==> names[i] != names[j]
  }

  /** Names that differ pairwise are recipients with different ids, and no others are. */
  lemma NamesAreDistinctIff(names: seq<string>)
    ensures DistinctIds(NormalizedAll(Plains(names))) <==> Different(names)
    ensures forall i :: 0 <= i < |names| ==> NormalizedAll(Plains(names))[i].id == names[i]
  {
    var rs := NormalizedAll(Plains(names));
    assert forall i :: 0 <= i < |names| ==> rs[i].id == names[i];
  }

  /** The service has just accepted `raw` and its first pass has run. */
  function FirstPass(sv: Service, raw: seq<RawRecipient>, maxRetries: int, replies: Replies): Service {
    ProcessNext(Enqueue(sv, raw, maxRetries), replies)
  }

  lemma FirstPassIsAttempt(sv: Service, raw: seq<RawRecipient>, maxRetries: int, replies: Replies)
    requires sv.queue == [] && raw != []
    ensures var job := NewJob(sv.nextId, raw, maxRetries);
            && FirstPass(sv, raw, maxRetries, replies).jobs == sv.jobs[sv.nextId := Attempt(job, replies)]
            && FirstPass(sv, raw, maxRetries, replies).calls == sv.calls + CallsOf(job, |raw|, replies)
  {
    hide Attempt;
    var job := NewJob(sv.nextId, raw, maxRetries);
    var sv1 := Enqueue(sv, raw, maxRetries);
    assert sv1.queue == [sv.nextId] && sv1.jobs[sv.nextId] == job;
    AttemptKeepsId(job, replies);
  }

  lemma PendingIsTheRequest(id: nat, raw: seq<RawRecipient>, rs: seq<Recipient>, maxRetries: int)
    requires AskFor(raw, rs)
    ensures NewJob(id, raw, maxRetries).pending == rs
  {
    forall i | 0 <= i < |rs|
      ensures NormalizedAll(raw)[i] == rs[i]
    {
      assert AsksFor(raw[i], rs[i]);
    }
  }

  lemma CallsAreTheRequest(id: nat, raw: seq<RawRecipient>, rs: seq<Recipient>, maxRetries: int, replies: Replies)
    requires AskFor(raw, rs)
    ensures |raw| == |rs| == |NewJob(id, raw, maxRetries).pending|
    ensures forall i: nat :: i < |rs| ==>
              CallsOf(NewJob(id, raw, maxRetries), |raw|, replies)[i] == Call(id, 1, rs[i], replies(i).None?)
  {
    PendingIsTheRequest(id, raw, rs, maxRetries);
    var job := NewJob(id, raw, maxRetries);
    forall i: nat | i < |rs|
      ensures CallsOf(job, |raw|, replies)[i] == Call(id, 1, rs[i], replies(i).None?)
    {
      assert CallOf(job, i, replies) == Call(id, 1, rs[i], replies(i).None?);
    }
  }

  /** The i-th call of a job's first pass is for the i-th recipient asked for, whatever it answers. */
  lemma FirstCallsAreTheRequest(sv: Service, raw: seq<RawRecipient>, rs: seq<Recipient>, maxRetries: int,
                                replies: Replies)
    requires sv.queue == [] && raw != [] && AskFor(raw, rs)
    ensures |FirstPass(sv, raw, maxRetries, replies).calls| == |sv.calls| + |rs|
    ensures forall i: nat :: i < |rs| ==>
              FirstPass(sv, raw, maxRetries, replies).calls[|sv.calls| + i] ==
              Call(sv.nextId, 1, rs[i], replies(i).None?)
  {
    hide *;
    CallsAreTheRequest(sv.nextId, raw, rs, maxRetries, replies);
    FirstPassIsAttempt(sv, raw, maxRetries, replies);
  }

  /** Recipients of different ids, all answered without an error: one pass completes the job with exactly them. */
  lemma OnePassPaysTheRequest(sv: Service, raw: seq<RawRecipient>, rs: seq<Recipient>, maxRetries: int,
                              replies: Replies)
    requires sv.queue == [] && raw != [] && AskFor(raw, rs) && DistinctIds(rs) && NoErrors(replies, |rs|)
    ensures sv.nextId in FirstPass(sv, raw, maxRetries, replies).jobs
    ensures var job := FirstPass(sv, raw, maxRetries, replies).jobs[sv.nextId];
            job.status == Completed && job.successful == rs
  {
    FirstPassIsAttempt(sv, raw, maxRetries, replies);
    PendingIsTheRequest(sv.nextId, raw, rs, maxRetries);
    NoFailure(rs, replies);
    AddUnseenAppends([], rs);
    hide FirstPass, AskFor, NormalizedAll, Failing, Passed, AddUnseen, RecipientsOf, DistinctIds, NoErrors;
    assert [] + rs == rs;
  }

  /** Call number `from` + i succeeded, for the i-th of the names. */
  predicate CallPays(calls: seq<Call>, from: nat, names: seq<string>, i: nat) {
    from + i < |calls| && i < |names| && calls[from + i].recipient.id == names[i] && calls[from + i].ok
  }

  lemma NthCallPays(calls: seq<Call>, from: nat, names: seq<string>, i: nat, call: Call)
    requires from + i < |calls| && i < |names| && calls[from + i] == call && call.recipient.id == names[i] && call.ok
    ensures CallPays(calls, from, names, i)
  {
  }

  /** For plain names that differ pairwise: a completed job lists them all, in order, each paid by its own call. */
  lemma OnePassPaysTheNames(sv: Service, names: seq<string>, maxRetries: int, replies: Replies)
    requires sv.queue == [] && names != [] && Different(names) && NoErrors(replies, |names|)
    ensures var sv' := FirstPass(sv, Plains(names), maxRetries, replies);
            && sv.nextId in sv'.jobs && sv'.jobs[sv.nextId].status == Completed
            && |sv'.jobs[sv.nextId].successful| == |names| && |sv'.calls| == |sv.calls| + |names|
            && (forall i: nat :: i < |names| ==> sv'.jobs[sv.nextId].successful[i].id == names[i])
            && (forall i: nat :: i < |names| ==> CallPays(sv'.calls, |sv.calls|, names, i))
  {
    hide *;
    var rs := NamesAskFor(names);
    OnePassPaysTheRequest(sv, Plains(names), rs, maxRetries, replies);
    FirstCallsAreTheRequest(sv, Plains(names), rs, maxRetries, replies);
    var calls := FirstPass(sv, Plains(names), maxRetries, replies).calls;
    forall i: nat | i < |names|
      ensures CallPays(calls, |sv.calls|, names, i)
    {
      NoneAmongNoErrors(replies, |names|, i);
      NthCallPays(calls, |sv.calls|, names, i, Call(sv.nextId, 1, rs[i], replies(i).None?));
    }
  }

  lemma NoneAmongNoErrors(replies: Replies, n: nat, i: nat)
    requires NoErrors(replies, n) && i < n
    ensures replies(i).None?
  {
  }

  lemma NamesAskFor(names: seq<string>) returns (rs: seq<Recipient>)
    requires Different(names)
    ensures AskFor(Plains(names), rs) && DistinctIds(rs)
    ensures |rs| == |names| == |Plains(names)| && forall i: nat :: i < |names| ==> rs[i].id == names[i]
  {
    rs := seq(|names|, i requires 0 <= i < |names| => Recipient(names[i], ""));
  }

  /** An id in the queue whose job is gone, or an empty queue, costs one call and nothing else. */
  lemma MissingJobIsPassedOver(sv: Service, replies: Replies)
    requires sv.queue == [] || sv.queue[0] !in sv.jobs
    ensures var sv' := ProcessNext(sv, replies);
            && sv'.jobs == sv.jobs && sv'.calls == sv.calls && sv'.nextId == sv.nextId
            && |sv'.queue| == (if sv.queue == [] then 0 else |sv.queue| - 1)
            && forall i :: 0 <= i < |sv'.queue| ==> sv'.queue[i] == sv.queue[i + 1]
  {
    hide Attempt;
  }

  // ---------------------------------------------------------------- repeated ids

  /** Counting heads: every original recipient is either successful or still pending. */
  predicate Conserves(job: Job, replies: Replies) {
    |Attempt(job, replies).successful| + |Attempt(job, replies).pending| == |job.recipients|
  }

  lemma IdsAppend(rs: seq<Recipient>, r: Recipient)
    ensures Ids(rs + [r]) == Ids(rs) + {r.id}
  {
    assert r in rs + [r];
    forall id | id in Ids(rs)
      ensures id in Ids(rs + [r])
    {
      var x :| x in rs && x.id == id;
      assert x in rs + [r];
    }
  }

  lemma {:induction false} AddUnseenIds(more: seq<Recipient>)
    ensures Ids(AddUnseen([], more)) == Ids(more)
    ensures |AddUnseen([], more)| <= |more|
  {
    if more != [] {
      var n := |more| - 1;
      AddUnseenIds(more[..n]);
      assert more == more[..n] + [more[n]];
      IdsAppend(more[..n], more[n]);
      IdsAppend(AddUnseen([], more[..n]), more[n]);
    }
  }

  lemma {:induction false} AddUnseenDropsRepeats(more: seq<Recipient>, i: nat, j: nat)
    requires i < j < |more| && more[i].id == more[j].id
    ensures |AddUnseen([], more)| < |more|
  {
    var n := |more| - 1;
    AddUnseenIds(more[..n]);
    if j < n {
      AddUnseenDropsRepeats(more[..n], i, j);
    } else {
      assert more[..n][i] == more[i];
    }
  }

  lemma {:induction false} AllPass(rs: seq<Recipient>, replies: Replies)
    requires forall i :: 0 <= i < |rs| ==> replies(i).None?
    ensures Passed(rs, replies) == rs && Failing(rs, replies) == []
  {
    if rs != [] {
      var (most, last) := (rs[..|rs| - 1], rs[|rs| - 1]);
      AllPass(most, replies);
      assert rs == most + [last];
      assert Failing(most, replies) + [] == [];
    }
  }

  /**
   A new job conserves its recipients whatever the replies exactly when their ids are
   distinct: of two successful recipients with one id the source keeps only the first.
   */
  lemma ConservesIffDistinct(job: Job)
    requires job.pending == job.recipients && job.successful == []
    ensures (forall replies: Replies :: Conserves(job, replies)) <==> DistinctIds(job.recipients)
  {
    var rs := job.recipients;
    if DistinctIds(rs) {
      SubsequenceReflexive(rs);
      forall replies: Replies
        ensures Conserves(job, replies)
      {
        AttemptKeepsPartition(job, replies);
      }
    } else {
      var replies: Replies := _ => None;
      var i, j :| 0 <= i < j < |rs| && rs[i].id == rs[j].id;
      AllPass(rs, replies);
      AddUnseenDropsRepeats(rs, i, j);
      assert !Conserves(job, replies);
    }
  }
}
