/** The job table and its consumer as objects updated in place, and one poll served without interruption. */
module NotificationQueueStore {
  import opened Wrappers
  import opened NotificationQueue

  class Queue {
    var jobs: Jobs
    const key: nat

    constructor (key: nat)
      ensures jobs == map[] && this.key == key
    {
      jobs := map[];
      this.key := key;
    }

    /** `findFirst` over the ready jobs, oldest first. */
    method FindReady(now: int) returns (candidate: Option<Id>)
      ensures candidate.Some? ==> IsOldestReady(jobs, candidate.value, now)
      ensures candidate.None? ==> forall id | id in jobs :: !IsReady(jobs[id], now)
    {
      candidate := None;
      var left := jobs.Keys;
      while left != {}
        invariant left <= jobs.Keys
        invariant candidate.Some? ==> candidate.value in jobs && IsReady(jobs[candidate.value], now)
        invariant forall id | id in jobs && id !in left && IsReady(jobs[id], now) ::
            candidate.Some? && jobs[candidate.value].createdAt <= jobs[id].createdAt
        decreases left
      {
        var id :| id in left;
        left := left - {id};
        if IsReady(jobs[id], now) && (candidate.None? || jobs[id].createdAt < jobs[candidate.value].createdAt) {
          candidate := Some(id);
        }
      }
    }

    /** Claims the oldest ready job, if any; one whose payload cannot be opened is marked failed instead. */
    method ClaimReadyJob(now: int, failedAt: int, later: int) returns (job: Option<Held>, ghost claimed: Option<Id>)
      modifies `jobs
      ensures claimed.None? ==> job == None && jobs == old(jobs) && forall id | id in jobs :: !IsReady(jobs[id], now)
      ensures claimed.Some? ==> IsOldestReady(old(jobs), claimed.value, now)
      ensures claimed.Some? ==>
                var (id, row) := (claimed.value, Claimed(old(jobs)[claimed.value], now));
                if IsReadable(key, row.payload) then job == Some(HeldFrom(id, row)) && jobs == old(jobs)[id := row]
                else job == None && jobs == old(jobs)[id := FailedRow(row, HeldFrom(id, row), failedAt, later)]
    {
      job := None;
      var candidate := FindReady(now);
      claimed := candidate;
      if candidate.None? { return; }
      var id := candidate.value;
      jobs := jobs[id := Claimed(jobs[id], now)];
      var held := HeldFrom(id, jobs[id]);
      if IsReadable(key, jobs[id].payload) {
        job := Some(held);
      } else {
        MarkFailed(held, failedAt, later);
      }
    }

    /** A job that has been removed meanwhile is ignored. */
    method MarkSucceeded(job: Held, now: int)
      modifies `jobs
      ensures jobs == if job.id in old(jobs) then old(jobs)[job.id := Succeeded(old(jobs)[job.id], now)] else old(jobs)
    {
      if job.id in jobs { jobs := jobs[job.id := Succeeded(jobs[job.id], now)]; }
    }

    method MarkFailed(job: Held, failedAt: int, later: int)
      modifies `jobs
      ensures jobs == if job.id !in old(jobs) then old(jobs)
                      else old(jobs)[job.id := FailedRow(old(jobs)[job.id], job, failedAt, later)]
    {
      var attempts := job.attempts + 1;
      var terminal := attempts >= job.maxAttempts;
      if job.id in jobs {
        var row := jobs[job.id];
        if terminal { row := row.(payload := Redacted); }
        row := row.(attempts := attempts, status := if terminal then DeadLetter else Pending);
        row := row.(nextRunAt := if terminal then job.nextRunAt else later + BackoffMs(attempts));
        row := row.(failedAt := Some(failedAt), lockedAt := None,
                    failures := row.failures + [Failure(attempts, terminal, failedAt)]);
        jobs := jobs[job.id := row];
      }
    }

    method RedactTerminalPayloads()
      modifies `jobs
      ensures jobs == RedactAll(old(jobs)) && jobs.Keys == old(jobs).Keys
      ensures forall id | id in jobs ::
                var j := old(jobs)[id];
                jobs[id] == if j.status.Sent? || j.status.DeadLetter? then j.(payload := Redacted) else j
    {
      var left := jobs.Keys;
      while left != {}
        invariant jobs.Keys == old(jobs).Keys && left <= jobs.Keys
        invariant forall id | id in jobs :: jobs[id] == if id in left then old(jobs)[id] else RedactedJob(old(jobs)[id])
        decreases left
      {
        var id :| id in left;
        left := left - {id};
        if IsTerminal(jobs[id].status) { jobs := jobs[id := jobs[id].(payload := Redacted)]; }
      }
    }

    method CanDeliver(job: Held, blocked: bool) returns (yes: bool)
      ensures yes <==> !blocked && job.id in jobs
    {
      yes := !blocked && job.id in jobs;
    }
  }

  /** What one undisturbed poll leaves of the job it claimed. */
  function Polled(key: nat, id: Id, row: Job, failedAt: int, later: int, blocked: bool, accepted: bool): Job {
    if !IsReadable(key, row.payload) then FailedRow(row, HeldFrom(id, row), failedAt, later)
    else if blocked then row
    else if accepted && row.payload.Sealed? then Succeeded(row, failedAt)
    else FailedRow(row, HeldFrom(id, row), failedAt, later)
  }

  ghost function Repeat(key: nat, s: State, e: Event, n: nat): State
    requires e.Consume?
  {
    if n == 0 then s else Advance(key, Repeat(key, s, e, n - 1), e)
  }

  /** An undisturbed poll is a run of the steps: find, claim, read, check, deliver, record. */
  lemma PollIsARun(key: nat, s: State, id: Id, now: int, failedAt: int, later: int, blocked: bool, accepted: bool)
    requires s.consumer.Idle? && IsOldestReady(s.jobs, id, now)
    ensures var claimed := Repeat(key, s, Consume(now, Some(id), true, Works, later), 3);
            var checked := Advance(key, claimed, Consume(failedAt, None, !blocked, Works, later));
            var delivered := if checked.consumer.Idle? then checked
                             else Advance(key, checked, Consume(failedAt, None, accepted, Works, later));
            var recorded := if delivered.consumer.Idle? then delivered
                            else Advance(key, delivered, Consume(failedAt, None, true, Works, later));
            && recorded.consumer.Idle?
            && recorded.jobs == s.jobs[id := Polled(key, id, Claimed(s.jobs[id], now), failedAt, later, blocked,
                                                    accepted)]
  {
    var go := Consume(now, Some(id), true, Works, later);
    var row := Claimed(s.jobs[id], now);
    assert Repeat(key, s, go, 1) == s.(consumer := Found(id, now));
    assert Repeat(key, s, go, 2) == s.(consumer := Marked(id), jobs := s.jobs[id := row]);
    var held := HeldFrom(id, row);
    var mapped := if IsReadable(key, row.payload) then Mapped(held) else Broken(held);
    assert Repeat(key, s, go, 3) == s.(consumer := mapped, jobs := s.jobs[id := row]);
  }

  class ConsumerService {
    var isProcessing: bool
    const queue: Queue

    constructor (queue: Queue)
      ensures this.queue == queue && !isProcessing
    {
      this.queue := queue;
      isProcessing := false;
    }

    /** One poll, undisturbed: `blocked` and `accepted` are the answers of the deletion check and the provider. */
    method Tick(now: int, failedAt: int, later: int, blocked: bool, accepted: bool) returns (ghost claimed: Option<Id>)
      modifies this, queue`jobs
      ensures isProcessing == old(isProcessing)
      ensures old(isProcessing) || claimed.None? ==> queue.jobs == old(queue.jobs)
      ensures !old(isProcessing) && claimed.None? ==> forall id | id in queue.jobs :: !IsReady(queue.jobs[id], now)
      ensures !old(isProcessing) && claimed.Some? ==> IsOldestReady(old(queue.jobs), claimed.value, now)
      ensures !old(isProcessing) && claimed.Some? ==>
                var (id, row) := (claimed.value, Claimed(old(queue.jobs)[claimed.value], now));
                queue.jobs == old(queue.jobs)[id := Polled(queue.key, id, row, failedAt, later, blocked, accepted)]
    {
      claimed := None;
      if isProcessing { return; }
      isProcessing := true;
      var job;
      job, claimed := queue.ClaimReadyJob(now, failedAt, later);
      if job.Some? {
        var deliverable := queue.CanDeliver(job.value, blocked);
        if deliverable {
          if accepted && !job.value.redacted {
            queue.MarkSucceeded(job.value, failedAt);
          } else {
            queue.MarkFailed(job.value, failedAt, later);
          }
        }
      }
      isProcessing := false;
    }
  }
}
