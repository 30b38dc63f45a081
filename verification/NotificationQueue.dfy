/**
 The notification queue and its single consumer. Every database statement is one step; jobs
 are added and removed by others between any two of them, and the process may crash and
 start again at any point. A failed statement has no effect, unless only its answer is lost.
 */
module NotificationQueue {
  import opened Numerals
  import opened Wrappers

  type Id = nat

  const JOB_LOCK_TIMEOUT_MS := 5 * 60 * 1000

  datatype Status = Pending | Processing | Sent | DeadLetter

  /** AES-256-GCM, as far as the queue depends on it: only the sealing key opens a payload. */
  datatype Payload = Sealed(key: nat, body: string) | Redacted

  function Encrypt(key: nat, body: string): Payload {
    Sealed(key, body)
  }

  function Decrypt(key: nat, p: Payload): Option<string> {
    if p.Sealed? && p.key == key then Some(p.body) else None
  }

  datatype Failure = Failure(attemptNumber: nat, terminal: bool, failedAt: int)

  datatype Job = Job(
    status: Status,
    attempts: nat,
    maxAttempts: nat,
    nextRunAt: int,
    lockedAt: Option<int>,
    sentAt: Option<int>,
    failedAt: Option<int>,
    payload: Payload,
    createdAt: int,
    failures: seq<Failure>)

  type Jobs = map<Id, Job>

  predicate IsTerminal(s: Status) {
    s.Sent? || s.DeadLetter?
  }

  // ----- statements -----

  function NewJob(payload: Payload, maxAttempts: nat, now: int): Job {
    Job(Pending, 0, maxAttempts, now, None, None, None, payload, now, [])
  }

  predicate IsReady(j: Job, now: int) {
    || (j.status.Pending? && j.nextRunAt <= now)
    || (j.status.Processing? && (j.lockedAt.None? || j.lockedAt.value <= now - JOB_LOCK_TIMEOUT_MS))
  }

  /** What `findFirst` may return: a ready job, and none of them older. */
  ghost predicate IsOldestReady(jobs: Jobs, id: Id, now: int) {
    id in jobs && IsReady(jobs[id], now) && forall other | other in jobs && IsReady(jobs[other], now) ::
        jobs[id].createdAt <= jobs[other].createdAt
  }

  function Claimed(j: Job, now: int): Job {
    j.(status := Processing, lockedAt := Some(now))
  }

  function Succeeded(j: Job, now: int): Job {
    j.(payload := Redacted, status := Sent, sentAt := Some(now), failedAt := None, lockedAt := None)
  }

  function BackoffMs(attempt: nat): nat {
    if 1_000 * Pow2(attempt) < 30_000 then 1_000 * Pow2(attempt) else 30_000
  }

  /** The job as the consumer read it when it claimed it. A redacted payload is readable, but not delivered. */
  datatype Held = Held(id: Id, attempts: nat, maxAttempts: nat, nextRunAt: int, redacted: bool)

  /** `failedAt` is taken before the statement and the backoff counts from `later`, when it is built. */
  function FailedRow(j: Job, held: Held, failedAt: int, later: int): Job {
    var attempts := held.attempts + 1;
    var terminal := attempts >= held.maxAttempts;
    j.(payload := if terminal then Redacted else j.payload,
       attempts := attempts,
       status := if terminal then DeadLetter else Pending,
       nextRunAt := if terminal then held.nextRunAt else later + BackoffMs(attempts),
       failedAt := Some(failedAt),
       lockedAt := None,
       failures := j.failures + [Failure(attempts, terminal, failedAt)])
  }

  predicate IsReadable(key: nat, p: Payload) {
    p.Redacted? || Decrypt(key, p).Some?
  }

  function HeldFrom(id: Id, j: Job): Held {
    Held(id, j.attempts, j.maxAttempts, j.nextRunAt, j.payload.Redacted?)
  }

  function RedactedJob(j: Job): Job {
    if IsTerminal(j.status) then j.(payload := Redacted) else j
  }

  function RedactAll(jobs: Jobs): Jobs {
    map id | id in jobs :: RedactedJob(jobs[id])
  }

  // ----- the consumer between two statements -----

  datatype Consumer =
    | Idle
    | Found(id: Id, now: int)
    | Marked(id: Id)
    | Mapped(job: Held)
    | Deliverable(job: Held)
    | Accepted(job: Held)
    | Broken(job: Held)

  /** Whether a statement worked, failed without effect, or worked and its answer was lost. */
  datatype Fault = Works | Fails | AnswerLost

  datatype Event =
    | Enqueue(id: Id, payload: Payload, maxAttempts: nat, now: int)
    | Remove(id: Id)
    | RedactTerminal
    | Crash
    | Consume(now: int, found: Option<Id>, yes: bool, fault: Fault, later: int)

  /**
   History: `issued` holds every job id handed out, none of them twice, `accepted` the jobs whose message the
   provider took, and `lost` those that were marked sent while the answer was lost.
   */
  datatype State = State(jobs: Jobs, consumer: Consumer, issued: set<Id>, accepted: set<Id>, lost: set<Id>)

  const EMPTY := State(map[], Idle, {}, {}, {})

  /** A job is marked sent, and the consumer does not learn of it. */
  predicate LosesSent(s: State, e: Event) {
    s.consumer.Accepted? && e.Consume? && e.fault.AnswerLost? && s.consumer.job.id in s.jobs
  }

  /** The next statement of the consumer; `yes` is the answer of the delivery check, or of the provider. */
  ghost function Advance(key: nat, s: State, e: Event): State
    requires e.Consume?
  {
    match s.consumer
    case Idle =>
      var found := !e.fault.Fails? && e.found.Some? && IsOldestReady(s.jobs, e.found.value, e.now);
      s.(consumer := if found then Found(e.found.value, e.now) else Idle)
    case Found(id, now) =>
      if !e.fault.Fails? && id in s.jobs && IsReady(s.jobs[id], now) then
        s.(jobs := s.jobs[id := Claimed(s.jobs[id], now)], consumer := if e.fault.Works? then Marked(id) else Idle)
      else s.(consumer := Idle)
    case Marked(id) =>
      s.(consumer := if id !in s.jobs || !e.fault.Works? then Idle
                     else if !IsReadable(key, s.jobs[id].payload) then Broken(HeldFrom(id, s.jobs[id]))
                     else Mapped(HeldFrom(id, s.jobs[id])))
    case Mapped(job) =>
      s.(consumer := if !e.fault.Works? then Broken(job)
                     else if e.yes && job.id in s.jobs then Deliverable(job)
                     else Idle)
    case Deliverable(job) =>
      if job.redacted || !e.yes then s.(consumer := Broken(job))
      else s.(accepted := s.accepted + {job.id}, consumer := if e.fault.Works? then Accepted(job) else Broken(job))
    case Accepted(job) =>
      var jobs := if e.fault.Fails? || job.id !in s.jobs then s.jobs
                  else s.jobs[job.id := Succeeded(s.jobs[job.id], e.now)];
      s.(jobs := jobs, consumer := if e.fault.Works? then Idle else Broken(job),
         lost := if LosesSent(s, e) then s.lost + {job.id} else s.lost)
    case Broken(job) =>
      var jobs := if e.fault.Fails? || job.id !in s.jobs then s.jobs
                  else s.jobs[job.id := FailedRow(s.jobs[job.id], job, e.now, e.later)];
      s.(jobs := jobs, consumer := Idle)
  }

  ghost function Step(key: nat, s: State, e: Event): State {
    match e
    case Enqueue(id, payload, maxAttempts, now) =>
      if id in s.issued || maxAttempts == 0 || payload.Redacted? then s
      else s.(jobs := s.jobs[id := NewJob(payload, maxAttempts, now)], issued := s.issued + {id})
    case Remove(id) => s.(jobs := s.jobs - {id})
    case RedactTerminal => s.(jobs := RedactAll(s.jobs))
    case Crash => s.(consumer := Idle)
    case Consume(_, _, _, _, _) => Advance(key, s, e)
  }

  ghost function After(key: nat, es: seq<Event>): State {
    if es == [] then EMPTY else Step(key, After(key, es[..|es| - 1]), es[|es| - 1])
  }

  ghost function At(key: nat, es: seq<Event>, i: nat): State
    requires i <= |es|
  {
    After(key, es[..i])
  }

  lemma Steps(key: nat, es: seq<Event>, i: nat)
    requires i < |es|
    ensures At(key, es, i + 1) == Step(key, At(key, es, i), es[i])
  {
    assert es[..i + 1][..i] == es[..i];
  }

  // ----- what holds in every run -----

  predicate FailuresOk(j: Job) {
    |j.failures| == j.attempts
    && forall k | 0 <= k < |j.failures| ::
         j.failures[k].attemptNumber == k + 1 && (j.failures[k].terminal <==> k + 1 == j.maxAttempts)
  }

  predicate JobOk(j: Job) {
    && FailuresOk(j) && j.maxAttempts >= 1 && j.attempts <= j.maxAttempts
    && (j.status.DeadLetter? <==> j.attempts == j.maxAttempts)
    && (j.lockedAt.Some? <==> j.status.Processing?)
  }

  /** What redaction and the sending time say about a job that is, or is not, among the lost ones. */
  predicate SendingOk(j: Job, lost: bool) {
    && (j.payload.Redacted? <==> IsTerminal(j.status) || lost)
    && (j.sentAt.Some? <==> j.status.Sent? || lost)
  }

  predicate Holds(jobs: Jobs, job: Held) {
    job.id in jobs ==> jobs[job.id].status.Processing? && HeldFrom(job.id, jobs[job.id]) == job
  }

  predicate FailsRightly(jobs: Jobs, lost: set<Id>, job: Held) {
    job.id in jobs ==>
      var j := jobs[job.id];
      && j.attempts == job.attempts && j.maxAttempts == job.maxAttempts
      && (j.status.Processing? || (j.status.Sent? && job.id in lost))
  }

  predicate ConsumerOk(jobs: Jobs, lost: set<Id>, c: Consumer) {
    match c
    case Idle => true
    case Found(_, _) => true
    case Marked(id) => id in jobs ==> jobs[id].status.Processing?
    case Mapped(job) => Holds(jobs, job) && (job.id in lost ==> job.redacted)
    case Deliverable(job) => Holds(jobs, job) && (job.id in lost ==> job.redacted)
    case Accepted(job) => Holds(jobs, job) && job.id !in lost
    case Broken(job) => FailsRightly(jobs, lost, job)
  }

  /** The job whose lock the consumer holds. */
  predicate Concerns(c: Consumer, id: Id) {
    match c
    case Idle => false
    case Found(other, _) => false
    case Marked(other) => id == other
    case Mapped(job) => id == job.id
    case Deliverable(job) => id == job.id
    case Accepted(job) => id == job.id
    case Broken(job) => id == job.id
  }

  predicate StoredOk(s: State, id: Id)
    requires id in s.jobs
  {
    JobOk(s.jobs[id]) && SendingOk(s.jobs[id], id in s.lost) && id in s.issued
        && (s.jobs[id].status.Sent? ==> id in s.accepted)
  }

  ghost predicate StateOk(s: State) {
    && (forall id | id in s.jobs :: StoredOk(s, id))
    && (s.consumer.Accepted? ==> s.consumer.job.id in s.accepted)
    && ConsumerOk(s.jobs, s.lost, s.consumer)
    && (forall id: Id | Concerns(s.consumer, id) :: id in s.issued)
    && s.lost <= s.issued && s.lost <= s.accepted
  }
}
