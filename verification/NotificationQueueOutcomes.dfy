/** What the steps of the notification queue leave of a job, and which jobs get delivered. */
module NotificationQueueOutcomes {
  import opened Numerals
  import opened Wrappers
  import opened NotificationQueue
  import opened NotificationQueueProofs

  // ----- what a step leaves of a job -----

  /** A new job is due at once and has no attempt against it. */
  lemma EnqueueLeaves(key: nat, es: seq<Event>, i: nat, id: Id)
    requires i < |es| && id in At(key, es, i + 1).jobs && id !in At(key, es, i).jobs
    ensures es[i].Enqueue? && es[i].id == id && id !in At(key, es, i).issued
    ensures At(key, es, i + 1).jobs[id]
            == Job(Pending, 0, es[i].maxAttempts, es[i].now, None, None, None, es[i].payload, es[i].now, [])
  {
    Steps(key, es, i);
  }

  /** A job becomes sent only after the provider took it, with its payload redacted and the time noted. */
  lemma SentLeaves(key: nat, es: seq<Event>, i: nat, id: Id)
    requires i < |es| && id in At(key, es, i).jobs && id in At(key, es, i + 1).jobs
    requires !At(key, es, i).jobs[id].status.Sent? && At(key, es, i + 1).jobs[id].status.Sent?
    ensures es[i].Consume? && id in At(key, es, i).accepted
    ensures At(key, es, i + 1).jobs[id]
            == At(key, es, i).jobs[id].(status := Sent, payload := Redacted, sentAt := Some(es[i].now),
                                        failedAt := None, lockedAt := None)
  {
    LifecycleHolds(key, es, i);
    Steps(key, es, i);
  }

  /** How long a job waits after its `n`th failure. */
  function WaitAfter(n: nat): int {
    if n == 1 then 2_000 else if n == 2 then 4_000 else if n == 3 then 8_000 else if n == 4 then 16_000 else 30_000
  }

  lemma WaitIsBackoff(n: nat)
    requires n >= 1
    ensures BackoffMs(n) == WaitAfter(n)
  {
    assert Pow2(1) == 2 && Pow2(2) == 4;
    assert Pow2(3) == 8 && Pow2(4) == 16;
    if n >= 5 { BackoffGrows(n, n); }
  }

  /** What a recorded failure leaves. */
  predicate FailedOnce(before: Job, after: Job, now: int, later: int) {
    var n := before.attempts + 1;
    && after.attempts == n && after.maxAttempts == before.maxAttempts && after.createdAt == before.createdAt
    && after.failures == before.failures + [Failure(n, n == before.maxAttempts, now)]
    && after.failedAt == Some(now) && after.lockedAt == None && after.sentAt == before.sentAt
    && (n == before.maxAttempts ==> after.status.DeadLetter? && after.payload.Redacted?)
    && (n < before.maxAttempts ==>
          after.status.Pending? && after.payload == before.payload && after.nextRunAt == later + WaitAfter(n))
  }

  lemma FailedRowIs(j: Job, held: Held, now: int, later: int)
    requires held.attempts == j.attempts < j.maxAttempts == held.maxAttempts
    ensures FailedOnce(j, FailedRow(j, held, now, later), now, later)
  {
    WaitIsBackoff(held.attempts + 1);
  }

  lemma RecordsOnce(key: nat, s: State, e: Event)
    requires StateOk(s) && s.consumer.Broken? && e.Consume? && !e.fault.Fails? && s.consumer.job.id in s.jobs
    ensures var id := s.consumer.job.id;
            id in Advance(key, s, e).jobs && FailedOnce(s.jobs[id], Advance(key, s, e).jobs[id], e.now, e.later)
  {
    var id := s.consumer.job.id;
    assert StoredOk(s, id);
    FailedRowIs(s.jobs[id], s.consumer.job, e.now, e.later);
  }

  /** Whenever a failure is added to a job, this is what happened to it. */
  lemma FailureLeaves(key: nat, es: seq<Event>, i: nat, id: Id)
    requires i < |es| && id in At(key, es, i).jobs && id in At(key, es, i + 1).jobs
    requires At(key, es, i + 1).jobs[id].failures != At(key, es, i).jobs[id].failures
    ensures es[i].Consume?
    ensures FailedOnce(At(key, es, i).jobs[id], At(key, es, i + 1).jobs[id], es[i].now, es[i].later)
  {
    LifecycleHolds(key, es, i);
    JobsKeepFailures(key, es, i, id);
    Steps(key, es, i);
    RecordsOnce(key, At(key, es, i), es[i]);
  }

  lemma JobsKeepFailures(key: nat, es: seq<Event>, i: nat, id: Id)
    requires i < |es| && id in At(key, es, i).jobs && id in At(key, es, i + 1).jobs
    requires At(key, es, i + 1).jobs[id].failures != At(key, es, i).jobs[id].failures
    ensures es[i].Consume? && !es[i].fault.Fails? && At(key, es, i).consumer.Broken?
    ensures At(key, es, i).consumer.job.id == id
  {
    LifecycleHolds(key, es, i);
    Steps(key, es, i);
    assert StoredOk(At(key, es, i), id);
  }

  /** Only the job the consumer has found or holds changes. */
  lemma OnlyItsJobChanges(key: nat, es: seq<Event>, i: nat, id: Id)
    requires i < |es| && id in At(key, es, i).jobs && id in At(key, es, i + 1).jobs
    requires At(key, es, i + 1).jobs[id] != At(key, es, i).jobs[id]
    ensures es[i].Consume?
    ensures Concerns(At(key, es, i).consumer, id)
            || (At(key, es, i).consumer.Found? && At(key, es, i).consumer.id == id)
  {
    LifecycleHolds(key, es, i);
    Steps(key, es, i);
    assert StoredOk(At(key, es, i), id);
  }

  // ----- failures on the way to the provider -----

  /** The payload cannot be opened, the check before delivery fails, or the provider does not take the message. */
  predicate FailsToDeliver(key: nat, s: State, e: Event, id: Id)
    requires id in s.jobs
  {
    e.Consume? &&
    match s.consumer
    case Marked(x) => x == id && e.fault.Works? && s.jobs[id].payload.Sealed? && s.jobs[id].payload.key != key
    case Mapped(job) => job.id == id && !e.fault.Works?
    case Deliverable(job) => job.id == id && (job.redacted || !e.yes || !e.fault.Works?)
    case _ => false
  }

  lemma BreaksOnFailure(key: nat, s: State, e: Event, id: Id)
    requires id in s.jobs && FailsToDeliver(key, s, e, id)
    ensures Step(key, s, e).consumer.Broken? && Step(key, s, e).consumer.job.id == id
    ensures Step(key, s, e).jobs == s.jobs
  {
  }

  /** Every such failure is counted by the next statement of the consumer, if that takes effect. */
  lemma DeliveryFailureCounts(key: nat, es: seq<Event>, i: nat, id: Id)
    requires i + 1 < |es| && id in At(key, es, i).jobs && FailsToDeliver(key, At(key, es, i), es[i], id)
    requires es[i + 1].Consume? && !es[i + 1].fault.Fails?
    ensures id in At(key, es, i + 2).jobs
    ensures FailedOnce(At(key, es, i).jobs[id], At(key, es, i + 2).jobs[id], es[i + 1].now, es[i + 1].later)
  {
    LifecycleHolds(key, es, i + 1);
    Steps(key, es, i);
    Steps(key, es, i + 1);
    BreaksOnFailure(key, At(key, es, i), es[i], id);
    RecordsOnce(key, At(key, es, i + 1), es[i + 1]);
  }

  // ----- which jobs are taken up -----

  /** Pending and due, or in processing under a lock of five minutes or more. */
  predicate IsDue(j: Job, now: int) {
    || (j.status.Pending? && j.nextRunAt <= now)
    || (j.status.Processing? && j.lockedAt.Some? && now - j.lockedAt.value >= 300_000)
  }

  /** The consumer takes up a job only when it is due, and none that is due was created before it. */
  lemma TakesOldestDue(key: nat, es: seq<Event>, i: nat)
    requires i < |es| && At(key, es, i).consumer.Idle? && At(key, es, i + 1).consumer.Found?
    ensures es[i].Consume?
    ensures var (s, id) := (At(key, es, i), At(key, es, i + 1).consumer.id);
            && id in s.jobs && IsDue(s.jobs[id], es[i].now)
            && forall other | other in s.jobs && IsDue(s.jobs[other], es[i].now) ::
                 s.jobs[id].createdAt <= s.jobs[other].createdAt
  {
    LifecycleHolds(key, es, i);
    Steps(key, es, i);
    var s := At(key, es, i);
    forall id | id in s.jobs ensures IsReady(s.jobs[id], es[i].now) <==> IsDue(s.jobs[id], es[i].now) {
      assert StoredOk(s, id);
    }
  }

  predicate IsOldest(jobs: Jobs, id: Id) {
    id in jobs && forall other | other in jobs :: jobs[id].createdAt <= jobs[other].createdAt
  }

  lemma AfterOne(key: nat, es: seq<Event>, e: Event)
    ensures After(key, es + [e]) == Step(key, After(key, es), e)
  {
    assert (es + [e])[..|es|] == es;
  }

  /** The oldest job is locked again once it is due, whatever became of the consumer that held it. */
  lemma DueJobIsClaimed(key: nat, es: seq<Event>, id: Id, now: int) returns (more: seq<Event>)
    requires IsOldest(After(key, es).jobs, id) && IsDue(After(key, es).jobs[id], now)
    ensures var (s, t) := (After(key, es), After(key, es + more));
            && t == s.(consumer := Marked(id),
                       jobs := s.jobs[id := s.jobs[id].(status := Processing, lockedAt := Some(now))])
  {
    var go := Consume(now, Some(id), true, Works, now);
    AfterOne(key, es, Crash);
    AfterOne(key, es + [Crash], go);
    AfterOne(key, es + [Crash] + [go], go);
    more := [Crash] + [go] + [go];
    assert es + more == es + [Crash] + [go] + [go];
  }

  lemma MarkedIsSent(key: nat, s: State, id: Id, now: int, body: string, go: Event)
    requires s.consumer == Marked(id) && id in s.jobs && s.jobs[id].payload == Sealed(key, body)
    requires go.Consume? && go.now == now && go.yes && go.fault.Works?
    ensures var t := Step(key, Step(key, Step(key, Step(key, s, go), go), go), go);
            && t.consumer.Idle? && t.accepted == s.accepted + {id} && id in t.jobs
            && t.jobs == s.jobs[id := t.jobs[id]] && t.jobs[id].status.Sent? && t.jobs[id].sentAt == Some(now)
  {
    assert Step(key, s, go).consumer.Mapped?;
    assert Step(key, Step(key, s, go), go).consumer.Deliverable?;
  }

  lemma AfterFour(key: nat, es: seq<Event>, e: Event)
    ensures After(key, es + [e, e, e, e]) == Step(key, Step(key, Step(key, Step(key, After(key, es), e), e), e), e)
  {
    AfterOne(key, es, e);
    AfterOne(key, es + [e], e);
    AfterOne(key, es + [e] + [e], e);
    AfterOne(key, es + [e] + [e] + [e], e);
    assert es + [e, e, e, e] == es + [e] + [e] + [e] + [e];
  }

  /** The oldest job, if its message is still there, can be delivered and is then sent. */
  lemma DueJobCanBeSent(key: nat, es: seq<Event>, id: Id, now: int, body: string) returns (more: seq<Event>)
    requires IsOldest(After(key, es).jobs, id) && IsDue(After(key, es).jobs[id], now)
    requires After(key, es).jobs[id].payload == Sealed(key, body)
    ensures var (s, t) := (After(key, es), After(key, es + more));
            && t.consumer.Idle? && t.accepted == s.accepted + {id} && id in t.jobs
            && t.jobs == s.jobs[id := t.jobs[id]] && t.jobs[id].status.Sent? && t.jobs[id].sentAt == Some(now)
  {
    var claimed := DueJobIsClaimed(key, es, id, now);
    var go := Consume(now, Some(id), true, Works, now);
    AfterFour(key, es + claimed, go);
    MarkedIsSent(key, After(key, es + claimed), id, now, body, go);
    more := claimed + [go, go, go, go];
    assert es + more == es + claimed + [go, go, go, go];
  }

  // ----- a job that was removed -----

  /** The job is gone, and is not about to be given to the provider. */
  predicate IsWithdrawn(s: State, id: Id) {
    id in s.issued && id !in s.jobs && !(s.consumer.Deliverable? && s.consumer.job.id == id)
  }

  lemma StepStaysWithdrawn(key: nat, s: State, e: Event, id: Id)
    requires IsWithdrawn(s, id)
    ensures IsWithdrawn(Step(key, s, e), id) && !CallsProvider(s, e, id)
  {
  }

  lemma {:induction false} StaysWithdrawn(key: nat, es: seq<Event>, i: nat, j: nat, id: Id)
    requires i <= j <= |es| && IsWithdrawn(At(key, es, i), id)
    ensures IsWithdrawn(At(key, es, j), id)
    decreases j
  {
    if i == j {
    } else {
      StaysWithdrawn(key, es, i, j - 1, id);
      Steps(key, es, j - 1);
      StepStaysWithdrawn(key, At(key, es, j - 1), es[j - 1], id);
    }
  }

  /** A job removed before its delivery was cleared is never given to the provider. */
  lemma RemovedIsNotDelivered(key: nat, es: seq<Event>, i: nat, j: nat, id: Id)
    requires i <= j < |es| && IsWithdrawn(At(key, es, i), id)
    ensures !CallsProvider(At(key, es, j), es[j], id)
  {
    StaysWithdrawn(key, es, i, j, id);
    StepStaysWithdrawn(key, At(key, es, j), es[j], id);
  }
}
