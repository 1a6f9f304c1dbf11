/**
 createRewardDistributionJobService in its own form: a Redis list and a Redis
 key per job, changed in place. Each call is proved to be one step of
 DistributionJobs, so everything proved there holds of any sequence of calls.
 */
module JobService {
  import opened Options
  import opened DistributionJobs

  class RewardDistributionJobService {
    const maxRetries: int
    var queue: seq<nat>
    var jobs: map<nat, Job>
    var nextId: nat
    ghost var calls: seq<Call>

    constructor (maxRetries: int)
      ensures this.maxRetries == maxRetries && State() == NO_JOBS
    {
      this.maxRetries := maxRetries;
      queue, jobs, nextId, calls := [], map[], 0, [];
    }

    ghost function State(): Service
      reads this
    {
      Service(queue, jobs, nextId, calls)
    }

    method EnqueueJob(raw: seq<RawRecipient>) returns (job: Option<Job>)
      modifies this
      ensures State() == Enqueue(old(State()), raw, maxRetries)
      ensures old(Keyed()) ==> Keyed()
      ensures job == if raw == [] then None else Some(NewJob(old(nextId), raw, maxRetries))
    {
      if raw == [] {
        return None;
      }
      var created := NewJob(nextId, raw, maxRetries);
      jobs := jobs[created.id := created];
      queue := queue + [created.id];
      nextId := nextId + 1;
      job := Some(created);
    }

    /** The loop over pendingRecipients: each is tried once, in order. */
    method TryAll(job: Job, replies: Replies) returns (successes: seq<Recipient>, failures: seq<Failure>)
      modifies this`calls
      ensures successes == Passed(job.pending, replies)
      ensures failures == Failing(job.pending, replies)
      ensures calls == old(calls) + CallsOf(job, |job.pending|, replies)
    {
      successes, failures := [], [];
      for i := 0 to |job.pending|
        invariant successes == Passed(job.pending[..i], replies)
        invariant failures == Failing(job.pending[..i], replies)
        invariant calls == old(calls) + CallsOf(job, i, replies)
      {
        var recipient := job.pending[i];
        var reply := replies(i);
        assert job.pending[..i + 1][..i] == job.pending[..i];
        assert CallsOf(job, i + 1, replies) == CallsOf(job, i, replies) + [CallOf(job, i, replies)];
        calls := calls + [Call(job.id, job.attemptsMade + 1, recipient, reply.None?)];
        match reply
        case None => successes := successes + [recipient];
        case Some(message) => failures := failures + [Failure(recipient, message)];
      }
      assert job.pending[..|job.pending|] == job.pending;
    }

    /** The loop with `seen`: append the successes whose id is new. */
    method Merge(have: seq<Recipient>, successes: seq<Recipient>) returns (merged: seq<Recipient>)
      ensures merged == AddUnseen(have, successes)
    {
      merged := have;
      var seen := Ids(have);
      for i := 0 to |successes|
        invariant merged == AddUnseen(have, successes[..i])
        invariant seen == Ids(merged)
      {
        assert successes[..i + 1][..i] == successes[..i];
        if successes[i].id !in seen {
          IdsAppend(merged, successes[i]);
          merged := merged + [successes[i]];
          seen := seen + {successes[i].id};
        }
      }
      assert successes[..|successes|] == successes;
    }

    /** Jobs are stored under their own id. */
    predicate Keyed()
      reads this
    {
      forall id :: id in jobs ==> jobs[id].id == id
    }

    /** What follows the loops: the job completes, is due again, or has failed. */
    method Conclude(found: Job, ghost replies: Replies, merged: seq<Recipient>, failures: seq<Failure>)
      returns (job: Job)
      requires merged == AddUnseen(found.successful, Passed(found.pending, replies))
      requires failures == Failing(found.pending, replies)
      ensures job == Attempt(found, replies)
    {
      job := Abandoned(found).(successful := merged, failed := failures, pending := RecipientsOf(failures));
      if failures == [] {
        return job.(status := Completed);
      }
      job := job.(
        history := job.history + [HistoryEntry(job.attemptsMade, failures)],
        lastError := Some(failures[0].message));
      if job.retryCount < job.maxRetries {
        job := job.(retryCount := job.retryCount + 1, status := Retrying);
      } else {
        job := job.(status := Failed);
      }
    }

    method ProcessNextJob(replies: Replies) returns (result: Option<Job>)
      requires Keyed()
      modifies this
      ensures State() == ProcessNext(old(State()), replies)
      ensures Keyed()
      ensures result == if old(queue) != [] && old(queue)[0] in old(jobs)
                        then Some(Attempt(old(jobs)[old(queue)[0]], replies))
                        else None
    {
      if queue == [] {
        return None;
      }
      var id := queue[0];
      queue := queue[1..];
      if id !in jobs {
        return None;
      }
      var found := jobs[id];
      jobs := jobs[id := Abandoned(found)];
      var successes, failures := TryAll(found, replies);
      var merged := Merge(found.successful, successes);
      var job := Conclude(found, replies, merged, failures);
      assert id == found.id == job.id;
      jobs := jobs[id := job];
      assert jobs == old(jobs)[id := job];
      if job.status == Retrying {
        queue := queue + [id];
      }
      result := Some(job);
    }
  }
}
