/** What the notification queue guarantees over whole runs. */
module NotificationQueueProofs {
  import opened Numerals
  import opened Wrappers
  import opened NotificationQueue

  // ----- every step -----

  lemma FailingKeepsOk(j: Job, held: Held, failedAt: int, later: int, lost: bool)
    requires JobOk(j) && SendingOk(j, lost) && held.attempts == j.attempts && held.maxAttempts == j.maxAttempts
    requires j.status.Processing? || (j.status.Sent? && lost)
    ensures JobOk(FailedRow(j, held, failedAt, later)) && SendingOk(FailedRow(j, held, failedAt, later), lost)
  {
  }

  /** A step that changes one job, and the consumer with it. */
  lemma UpdateKeepsOk(s: State, id: Id, j: Job, c: Consumer, lost: set<Id>)
    requires StateOk(s) && id in s.jobs && JobOk(j) && SendingOk(j, id in lost) && ConsumerOk(s.jobs[id := j], lost, c)
    requires !c.Accepted? && (j.status.Sent? ==> id in s.accepted)
    requires lost == s.lost || (lost == s.lost + {id} && id in s.accepted)
    requires forall other: Id | Concerns(c, other) :: other == id
    ensures StateOk(s.(jobs := s.jobs[id := j], consumer := c, lost := lost))
  {
    var s' := s.(jobs := s.jobs[id := j], consumer := c, lost := lost);
    forall other | other in s'.jobs ensures StoredOk(s', other) {
      if other != id { assert StoredOk(s, other); }
    }
  }

  lemma MoveKeepsOk(s: State, c: Consumer, accepted: set<Id>)
    requires StateOk(s) && ConsumerOk(s.jobs, s.lost, c) && s.accepted <= accepted
    requires forall id: Id | Concerns(c, id) :: id in s.issued
    requires c.Accepted? ==> c.job.id in accepted
    ensures StateOk(s.(consumer := c, accepted := accepted))
  {
    var s' := s.(consumer := c, accepted := accepted);
    forall id | id in s'.jobs ensures StoredOk(s', id) { assert StoredOk(s, id); }
  }

  lemma ClaimingKeepsOk(key: nat, s: State, e: Event)
    requires StateOk(s) && e.Consume? && s.consumer.Found?
    ensures StateOk(Advance(key, s, e))
  {
    var (id, s') := (s.consumer.id, Advance(key, s, e));
    if !e.fault.Fails? && id in s.jobs && IsReady(s.jobs[id], s.consumer.now) {
      assert StoredOk(s, id);
      UpdateKeepsOk(s, id, s'.jobs[id], s'.consumer, s.lost);
    } else {
      MoveKeepsOk(s, Idle, s.accepted);
    }
  }

  lemma SucceedingKeepsOk(key: nat, s: State, e: Event)
    requires StateOk(s) && e.Consume? && s.consumer.Accepted?
    ensures StateOk(Advance(key, s, e))
  {
    var (id, s') := (s.consumer.job.id, Advance(key, s, e));
    if !e.fault.Fails? && id in s.jobs {
      assert StoredOk(s, id);
      UpdateKeepsOk(s, id, s'.jobs[id], s'.consumer, s'.lost);
    } else {
      MoveKeepsOk(s, s'.consumer, s.accepted);
    }
  }

  lemma RecordingKeepsOk(key: nat, s: State, e: Event)
    requires StateOk(s) && e.Consume? && s.consumer.Broken?
    ensures StateOk(Advance(key, s, e))
  {
    var (id, s') := (s.consumer.job.id, Advance(key, s, e));
    if !e.fault.Fails? && id in s.jobs {
      assert StoredOk(s, id);
      FailingKeepsOk(s.jobs[id], s.consumer.job, e.now, e.later, id in s.lost);
      UpdateKeepsOk(s, id, s'.jobs[id], Idle, s.lost);
    } else {
      MoveKeepsOk(s, Idle, s.accepted);
    }
  }

  lemma ReadingKeepsOk(key: nat, s: State, e: Event)
    requires StateOk(s) && e.Consume? && !s.consumer.Found? && !s.consumer.Accepted? && !s.consumer.Broken?
    ensures StateOk(Advance(key, s, e))
  {
    var s' := Advance(key, s, e);
    if s.consumer.Marked? && s.consumer.id in s.jobs { assert StoredOk(s, s.consumer.id); }
    MoveKeepsOk(s, s'.consumer, s'.accepted);
  }

  lemma RedactingKeepsOk(s: State)
    requires StateOk(s)
    ensures RedactAll(s.jobs) == s.jobs
  {
    forall id | id in s.jobs ensures RedactAll(s.jobs)[id] == s.jobs[id] { assert StoredOk(s, id); }
  }

  lemma EnqueueKeepsOk(s: State, id: Id, payload: Payload, maxAttempts: nat, now: int)
    requires StateOk(s) && id !in s.issued && maxAttempts >= 1 && payload.Sealed?
    ensures StateOk(s.(jobs := s.jobs[id := NewJob(payload, maxAttempts, now)], issued := s.issued + {id}))
  {
    var s' := s.(jobs := s.jobs[id := NewJob(payload, maxAttempts, now)], issued := s.issued + {id});
    assert !Concerns(s.consumer, id);
    forall other | other in s'.jobs ensures StoredOk(s', other) {
      if other != id { assert StoredOk(s, other); }
    }
  }

  lemma RemoveKeepsOk(s: State, id: Id)
    requires StateOk(s)
    ensures StateOk(s.(jobs := s.jobs - {id}))
  {
    var s' := s.(jobs := s.jobs - {id});
    forall other | other in s'.jobs ensures StoredOk(s', other) { assert StoredOk(s, other); }
  }

  lemma StepKeepsOk(key: nat, s: State, e: Event)
    requires StateOk(s)
    ensures StateOk(Step(key, s, e))
  {
    match e
    case Enqueue(id, payload, maxAttempts, now) =>
      if !(id in s.issued || maxAttempts == 0 || payload.Redacted?) {
        EnqueueKeepsOk(s, id, payload, maxAttempts, now);
      }
    case RedactTerminal => RedactingKeepsOk(s);
    case Remove(id) => RemoveKeepsOk(s, id);
    case Crash => MoveKeepsOk(s, Idle, s.accepted);
    case Consume(_, _, _, _, _) =>
      if s.consumer.Found? { ClaimingKeepsOk(key, s, e); }
      else if s.consumer.Accepted? { SucceedingKeepsOk(key, s, e); }
      else if s.consumer.Broken? { RecordingKeepsOk(key, s, e); }
      else { ReadingKeepsOk(key, s, e); }
  }

  // ----- every run -----

  /** In every reachable state attempts, failure rows, dead-lettering, redaction, sending and locks agree. */
  lemma {:induction false} LifecycleHolds(key: nat, es: seq<Event>, i: nat)
    requires i <= |es|
    ensures StateOk(At(key, es, i))
    decreases i
  {
    if i == 0 {
    } else {
      LifecycleHolds(key, es, i - 1);
      Steps(key, es, i - 1);
      StepKeepsOk(key, At(key, es, i - 1), es[i - 1]);
    }
  }

  lemma StoredJobIsOk(key: nat, es: seq<Event>, i: nat, id: Id)
    requires i <= |es| && id in At(key, es, i).jobs
    ensures StoredOk(At(key, es, i), id)
  {
    LifecycleHolds(key, es, i);
  }

  /**
   A job is dead exactly when it failed as often as it may, only its last failure row is terminal, and it is sent
   only if the provider took it.
   */
  lemma DeadExactlyAtMaximum(key: nat, es: seq<Event>, i: nat, id: Id)
    requires i <= |es| && id in At(key, es, i).jobs
    ensures var j := At(key, es, i).jobs[id];
            && |j.failures| == j.attempts <= j.maxAttempts
            && (j.status.DeadLetter? <==> |j.failures| == j.maxAttempts)
            && (forall k | 0 <= k < |j.failures| :: j.failures[k].attemptNumber == k + 1)
            && (forall k | 0 <= k < |j.failures| ::
                  j.failures[k].terminal <==> j.status.DeadLetter? && k + 1 == |j.failures|)
            && (j.status.Sent? ==> id in At(key, es, i).accepted)
  {
    StoredJobIsOk(key, es, i, id);
  }

  lemma LostStep(key: nat, s: State, e: Event, id: Id)
    ensures id in Step(key, s, e).lost <==> id in s.lost || (LosesSent(s, e) && s.consumer.job.id == id)
  {
  }

  /** The step in which the job was marked sent while the answer was lost. */
  ghost predicate LostAt(key: nat, es: seq<Event>, k: nat, id: Id) {
    k < |es| && LosesSent(At(key, es, k), es[k]) && At(key, es, k).consumer.job.id == id
  }

  lemma {:induction false} LostMeansLosesSent(key: nat, es: seq<Event>, i: nat, id: Id)
    requires i <= |es|
    ensures id in At(key, es, i).lost <==> exists k | 0 <= k < i :: LostAt(key, es, k, id)
    decreases i
  {
    if i == 0 {
    } else {
      LostMeansLosesSent(key, es, i - 1, id);
      Steps(key, es, i - 1);
      LostStep(key, At(key, es, i - 1), es[i - 1], id);
      if LosesSent(At(key, es, i - 1), es[i - 1]) && At(key, es, i - 1).consumer.job.id == id {
        assert LostAt(key, es, i - 1, id);
      }
    }
  }

  /**
   Exactly when a job that is neither sent nor dead is redacted, and when one that is not sent has a sending time:
   it was marked sent while the answer was lost, and has left that state.
   */
  lemma RedactedExactly(key: nat, es: seq<Event>, i: nat, id: Id)
    requires i <= |es| && id in At(key, es, i).jobs
    ensures var j := At(key, es, i).jobs[id];
            && (IsTerminal(j.status) ==> j.payload.Redacted?)
            && (j.status.Sent? ==> j.sentAt.Some?)
            && (!IsTerminal(j.status) ==> (j.payload.Redacted? <==> exists k | 0 <= k < i :: LostAt(key, es, k, id)))
            && (!j.status.Sent? ==> (j.sentAt.Some? <==> exists k | 0 <= k < i :: LostAt(key, es, k, id)))
  {
    StoredJobIsOk(key, es, i, id);
    LostMeansLosesSent(key, es, i, id);
  }

  predicate KeepsFailures(before: Job, after: Job) {
    before.failures <= after.failures && before.maxAttempts == after.maxAttempts
  }

  lemma StepKeepsFailures(key: nat, s: State, e: Event, id: Id)
    requires StateOk(s) && id in s.issued && id in Step(key, s, e).jobs
    ensures id in s.jobs && KeepsFailures(s.jobs[id], Step(key, s, e).jobs[id]) && id in Step(key, s, e).issued
  {
  }

  lemma FailuresKeptOn(a: Job, b: Job, c: Job)
    requires KeepsFailures(a, b) && KeepsFailures(b, c)
    ensures KeepsFailures(a, c)
  {
    assert a.failures <= c.failures by { assert c.failures[..|a.failures|] == b.failures[..|a.failures|]; }
  }

  lemma {:induction false} StaysIssued(key: nat, es: seq<Event>, i: nat, j: nat, id: Id)
    requires i <= j <= |es| && id in At(key, es, i).issued
    ensures id in At(key, es, j).issued
    decreases j
  {
    if i == j {
    } else {
      StaysIssued(key, es, i, j - 1, id);
      Steps(key, es, j - 1);
    }
  }

  /** A failure row, once written, stays as it is for as long as its job is stored, and the maximum does not change. */
  lemma {:induction false} FailuresAreKept(key: nat, es: seq<Event>, i: nat, j: nat, id: Id)
    requires i <= j <= |es| && id in At(key, es, i).jobs && id in At(key, es, j).jobs
    ensures KeepsFailures(At(key, es, i).jobs[id], At(key, es, j).jobs[id])
    decreases j
  {
    if i == j {
    } else {
      StoredJobIsOk(key, es, i, id);
      StaysIssued(key, es, i, j - 1, id);
      LifecycleHolds(key, es, j - 1);
      Steps(key, es, j - 1);
      StepKeepsFailures(key, At(key, es, j - 1), es[j - 1], id);
      FailuresAreKept(key, es, i, j - 1, id);
      FailuresKeptOn(At(key, es, i).jobs[id], At(key, es, j - 1).jobs[id], At(key, es, j).jobs[id]);
    }
  }

  // ----- finished jobs -----

  /** The job is gone, or it is finished and nobody is at work on it. */
  predicate Rests(s: State, id: Id) {
    && id in s.issued
    && (id in s.jobs ==>
          IsTerminal(s.jobs[id].status) && s.jobs[id].payload.Redacted? && !Concerns(s.consumer, id))
  }

  lemma RestingStep(key: nat, s: State, e: Event, id: Id)
    requires Rests(s, id)
    ensures Rests(Step(key, s, e), id)
    ensures id in Step(key, s, e).jobs ==> id in s.jobs && Step(key, s, e).jobs[id] == s.jobs[id]
  {
  }

  /** A finished job nobody is at work on stays as it is for as long as it is stored, whatever else is lost. */
  lemma {:induction false} RestsForGood(key: nat, es: seq<Event>, i: nat, j: nat, id: Id)
    requires i <= j <= |es| && Rests(At(key, es, i), id)
    ensures Rests(At(key, es, j), id)
    ensures id in At(key, es, j).jobs ==>
              id in At(key, es, i).jobs && At(key, es, j).jobs[id] == At(key, es, i).jobs[id]
    decreases j
  {
    if i == j {
    } else {
      RestsForGood(key, es, i, j - 1, id);
      Steps(key, es, j - 1);
      RestingStep(key, At(key, es, j - 1), es[j - 1], id);
    }
  }

  /** The job is sent, but the consumer is about to record a failure for it. */
  predicate IsMistaken(s: State, id: Id) {
    && id in s.issued && id in s.jobs && s.jobs[id].status.Sent? && s.jobs[id].payload.Redacted?
    && s.consumer.Broken? && s.consumer.job.id == id
  }

  /** The events that end this: the next statement of the consumer, a crash, or the removal of the job. */
  predicate Decides(e: Event, id: Id) {
    e.Consume? || e.Crash? || e == Remove(id)
  }

  predicate RecordsFailure(e: Event) {
    e.Consume? && !e.fault.Fails?
  }

  lemma MistakenStep(key: nat, s: State, e: Event, id: Id)
    requires IsMistaken(s, id)
    ensures !Decides(e, id) ==> IsMistaken(Step(key, s, e), id) && Step(key, s, e).jobs[id] == s.jobs[id]
    ensures RecordsFailure(e) ==> id in Step(key, s, e).jobs && !Step(key, s, e).jobs[id].status.Sent?
    ensures Decides(e, id) && !RecordsFailure(e) ==>
              Rests(Step(key, s, e), id) && (id in Step(key, s, e).jobs ==> Step(key, s, e).jobs[id] == s.jobs[id])
  {
  }

  lemma FinishedRests(s: State, id: Id)
    requires StateOk(s) && id in s.jobs && IsTerminal(s.jobs[id].status)
    ensures IsMistaken(s, id) || Rests(s, id)
  {
    assert StoredOk(s, id);
  }

  ghost predicate StaysAsItIs(key: nat, es: seq<Event>, more: seq<Event>, id: Id)
    requires id in After(key, es).jobs
  {
    var s := After(key, es + more);
    id in s.jobs ==> s.jobs[id] == After(key, es).jobs[id]
  }

  lemma RestsThroughout(key: nat, es: seq<Event>, more: seq<Event>, id: Id)
    requires id in After(key, es).jobs && Rests(After(key, es), id)
    ensures StaysAsItIs(key, es, more, id)
  {
    var all := es + more;
    assert all[..|es|] == es && all[..|all|] == all;
    RestsForGood(key, all, |es|, |all|, id);
  }

  /**
   Exactly when a sent or dead job stays as it is for as long as it is stored, whatever follows: unless it is sent
   and the consumer, for which that answer was lost, is about to record a failure. Dead letters always stay.
   */
  lemma TerminalIsFinal(key: nat, es: seq<Event>, id: Id)
    requires id in After(key, es).jobs && IsTerminal(After(key, es).jobs[id].status)
    ensures (forall more :: StaysAsItIs(key, es, more, id)) <==> !IsMistaken(After(key, es), id)
  {
    var s := After(key, es);
    assert es[..|es|] == es;
    LifecycleHolds(key, es, |es|);
    FinishedRests(s, id);
    if IsMistaken(s, id) {
      var e := Consume(0, None, true, Works, 0);
      assert (es + [e])[..|es|] == es;
      MistakenStep(key, s, e, id);
      assert !StaysAsItIs(key, es, [e], id);
    } else {
      forall more ensures StaysAsItIs(key, es, more, id) { RestsThroughout(key, es, more, id); }
    }
  }

  // ----- when marking a job sent goes unnoticed -----

  /** Event `k` is the first of these after `i`. */
  ghost predicate DecidesFirst(es: seq<Event>, i: nat, k: nat, id: Id) {
    i < k < |es| && Decides(es[k], id) && forall m | i < m < k :: !Decides(es[m], id)
  }

  lemma {:induction false} StaysMistaken(key: nat, es: seq<Event>, i: nat, j: nat, id: Id)
    requires i < j <= |es| && IsMistaken(At(key, es, i + 1), id) && forall m | i < m < j :: !Decides(es[m], id)
    ensures IsMistaken(At(key, es, j), id) && At(key, es, j).jobs[id] == At(key, es, i + 1).jobs[id]
    decreases j
  {
    if j == i + 1 {
    } else {
      StaysMistaken(key, es, i, j - 1, id);
      Steps(key, es, j - 1);
      MistakenStep(key, At(key, es, j - 1), es[j - 1], id);
    }
  }

  lemma LosingSentMistakes(key: nat, es: seq<Event>, i: nat)
    requires i < |es| && LosesSent(At(key, es, i), es[i])
    ensures IsMistaken(At(key, es, i + 1), At(key, es, i).consumer.job.id)
  {
    LifecycleHolds(key, es, i);
    Steps(key, es, i);
  }

  /** The job stays sent up to the deciding event, and from there on unless that records the failure. */
  lemma DecidedFates(key: nat, es: seq<Event>, i: nat, k: nat, j: nat, id: Id)
    requires i < j <= |es| && IsMistaken(At(key, es, i + 1), id) && DecidesFirst(es, i, k, id)
    requires j <= k || !RecordsFailure(es[k])
    ensures id in At(key, es, j).jobs ==> At(key, es, j).jobs[id].status.Sent?
  {
    if j <= k {
      StaysMistaken(key, es, i, j, id);
    } else {
      StaysMistaken(key, es, i, k, id);
      Steps(key, es, k);
      MistakenStep(key, At(key, es, k), es[k], id);
      RestsForGood(key, es, k + 1, j, id);
    }
  }

  /** In a run where no deciding event follows, the job stays sent. */
  lemma UndecidedStaysSent(key: nat, es: seq<Event>, i: nat, j: nat, id: Id)
    requires i < j <= |es| && IsMistaken(At(key, es, i + 1), id) && forall k: nat :: !DecidesFirst(es, i, k, id)
    ensures id in At(key, es, j).jobs && At(key, es, j).jobs[id].status.Sent?
  {
    var k := i + 1;
    while k < j
      invariant i < k <= j
      invariant forall m | i < m < k :: !Decides(es[m], id)
    {
      assert !DecidesFirst(es, i, k, id);
      k := k + 1;
    }
    StaysMistaken(key, es, i, j, id);
  }

  ghost predicate LeavesSent(key: nat, es: seq<Event>, i: nat, id: Id) {
    exists j | i < j <= |es| :: id in At(key, es, j).jobs && !At(key, es, j).jobs[id].status.Sent?
  }

  /**
   When marking a job sent takes effect but its answer is lost: the job is sent, and leaves that state exactly
   when the consumer gets to record the failure before it crashes, its statement fails, or the job is removed.
   Whatever else happens in between, and to other jobs, does not matter.
   */
  lemma LostAnswerLeavesSent(key: nat, es: seq<Event>, i: nat)
    requires i < |es| && LosesSent(At(key, es, i), es[i])
    ensures var id := At(key, es, i).consumer.job.id;
            && id in At(key, es, i + 1).jobs && At(key, es, i + 1).jobs[id].status.Sent?
            && (LeavesSent(key, es, i, id) <==> exists k: nat :: DecidesFirst(es, i, k, id) && RecordsFailure(es[k]))
  {
    var id := At(key, es, i).consumer.job.id;
    LosingSentMistakes(key, es, i);
    if k: nat :| DecidesFirst(es, i, k, id) && RecordsFailure(es[k]) {
      StaysMistaken(key, es, i, k, id);
      Steps(key, es, k);
      MistakenStep(key, At(key, es, k), es[k], id);
    } else {
      forall j | i < j <= |es| && id in At(key, es, j).jobs ensures At(key, es, j).jobs[id].status.Sent? {
        if k: nat :| DecidesFirst(es, i, k, id) {
          DecidedFates(key, es, i, k, j, id);
        } else {
          UndecidedStaysSent(key, es, i, j, id);
        }
      }
    }
  }

  /** And it leaves exactly there: at the deciding event, not before. */
  lemma LeavesSentThere(key: nat, es: seq<Event>, i: nat, k: nat)
    requires i < |es| && LosesSent(At(key, es, i), es[i])
    requires DecidesFirst(es, i, k, At(key, es, i).consumer.job.id) && RecordsFailure(es[k])
    ensures var id := At(key, es, i).consumer.job.id;
            && (forall j | i < j <= k :: id in At(key, es, j).jobs && At(key, es, j).jobs[id].status.Sent?)
            && id in At(key, es, k + 1).jobs && !At(key, es, k + 1).jobs[id].status.Sent?
  {
    var id := At(key, es, i).consumer.job.id;
    LosingSentMistakes(key, es, i);
    forall j | i < j <= k ensures id in At(key, es, j).jobs && At(key, es, j).jobs[id].status.Sent? {
      StaysMistaken(key, es, i, j, id);
    }
    StaysMistaken(key, es, i, k, id);
    Steps(key, es, k);
    MistakenStep(key, At(key, es, k), es[k], id);
  }

  function LostAnswerRun(payload: Payload): seq<Event> {
    var go := Consume(0, Some(0), true, Works, 0);
    [Enqueue(0, payload, 3, 0), go, go, go, go, go, go.(fault := AnswerLost), go]
  }

  lemma LostAnswerStarts(key: nat, payload: Payload, es: seq<Event>)
    requires es == LostAnswerRun(payload) && Decrypt(key, payload).Some?
    ensures At(key, es, 4).jobs == map[0 := Claimed(NewJob(payload, 3, 0), 0)]
    ensures At(key, es, 4).consumer == Mapped(Held(0, 0, 3, 0, false))
  {
    var j := NewJob(payload, 3, 0);
    Steps(key, es, 0);
    assert At(key, es, 1) == State(map[0 := j], Idle, {0}, {}, {});
    Steps(key, es, 1);
    assert At(key, es, 2) == State(map[0 := j], Found(0, 0), {0}, {}, {});
    Steps(key, es, 2);
    assert At(key, es, 3) == State(map[0 := Claimed(j, 0)], Marked(0), {0}, {}, {});
    Steps(key, es, 3);
  }

  lemma LostAnswerEnds(key: nat, payload: Payload, es: seq<Event>, j: Job)
    requires es == LostAnswerRun(payload) && At(key, es, 4).jobs == map[0 := j]
    requires At(key, es, 4).consumer == Mapped(Held(0, 0, 3, 0, false))
    ensures At(key, es, 7).jobs == map[0 := Succeeded(j, 0)] && 0 in At(key, es, 7).accepted
    ensures At(key, es, 8).jobs == map[0 := FailedRow(Succeeded(j, 0), Held(0, 0, 3, 0, false), 0, 0)]
  {
    Steps(key, es, 4);
    assert At(key, es, 5).jobs == map[0 := j] && At(key, es, 5).consumer == Deliverable(Held(0, 0, 3, 0, false));
    Steps(key, es, 5);
    assert At(key, es, 6).jobs == map[0 := j] && At(key, es, 6).consumer == Accepted(Held(0, 0, 3, 0, false));
    Steps(key, es, 6);
    Steps(key, es, 7);
  }

  /** And that happens: the job of a message the provider took is pending, with a failed attempt against it. */
  lemma SentCanBeLeft(key: nat, body: string)
    ensures var es := LostAnswerRun(Encrypt(key, body));
            && 0 in At(key, es, 7).jobs && At(key, es, 7).jobs[0].status.Sent? && 0 in At(key, es, 7).accepted
            && 0 in At(key, es, 8).jobs && At(key, es, 8).jobs[0].status.Pending?
                 && At(key, es, 8).jobs[0].attempts == 1
  {
    var payload := Encrypt(key, body);
    LostAnswerStarts(key, payload, LostAnswerRun(payload));
    LostAnswerEnds(key, payload, LostAnswerRun(payload), Claimed(NewJob(payload, 3, 0), 0));
  }

  // ----- a job that was sent stays undelivered -----

  /** The consumer hands the message to the provider. */
  predicate CallsProvider(s: State, e: Event, id: Id) {
    s.consumer.Deliverable? && e.Consume? && s.consumer.job.id == id && !s.consumer.job.redacted
  }

  lemma LostNeverSentAgain(key: nat, s: State, e: Event, id: Id)
    requires StateOk(s) && id in s.lost
    ensures !CallsProvider(s, e, id)
    ensures id in Step(key, s, e).jobs && Step(key, s, e).jobs[id].status.Sent? ==>
              id in s.jobs && s.jobs[id].status.Sent?
  {
  }

  lemma {:induction false} LostStaysLost(key: nat, es: seq<Event>, i: nat, j: nat, id: Id)
    requires i <= j <= |es| && id in At(key, es, i).lost
    ensures id in At(key, es, j).lost
    decreases j
  {
    if i == j {
    } else {
      LostStaysLost(key, es, i, j - 1, id);
      Steps(key, es, j - 1);
      LostStep(key, At(key, es, j - 1), es[j - 1], id);
    }
  }

  lemma {:induction false} LeftForGood(key: nat, es: seq<Event>, i: nat, j: nat, id: Id)
    requires i <= j <= |es| && id in At(key, es, i).lost
    requires id in At(key, es, i).jobs ==> !At(key, es, i).jobs[id].status.Sent?
    ensures id in At(key, es, j).jobs ==> !At(key, es, j).jobs[id].status.Sent?
    decreases j
  {
    if i == j {
    } else {
      LeftForGood(key, es, i, j - 1, id);
      LostStaysLost(key, es, i, j - 1, id);
      LifecycleHolds(key, es, j - 1);
      Steps(key, es, j - 1);
      LostNeverSentAgain(key, At(key, es, j - 1), es[j - 1], id);
    }
  }

  /**
   A job marked sent while the answer was lost is never given to the provider again and stays redacted; once it
   has left `sent` it never returns there, so all that can still happen to it is to fail or to be removed.
   */
  lemma LostIsNeverDelivered(key: nat, es: seq<Event>, i: nat, j: nat, id: Id)
    requires i <= j < |es| && id in At(key, es, i).lost
    ensures !CallsProvider(At(key, es, j), es[j], id)
    ensures id in At(key, es, j).jobs ==> At(key, es, j).jobs[id].payload.Redacted?
    ensures (id in At(key, es, i).jobs ==> !At(key, es, i).jobs[id].status.Sent?) && id in At(key, es, j).jobs ==>
              !At(key, es, j).jobs[id].status.Sent?
  {
    LostStaysLost(key, es, i, j, id);
    LifecycleHolds(key, es, j);
    LostNeverSentAgain(key, At(key, es, j), es[j], id);
    if id in At(key, es, j).jobs { StoredJobIsOk(key, es, j, id); }
    if id in At(key, es, i).jobs ==> !At(key, es, i).jobs[id].status.Sent? { LeftForGood(key, es, i, j, id); }
  }

  // ----- waiting -----

  /** Later attempts never wait less, no attempt waits less than two seconds, and from the fifth on all wait thirty. */
  lemma BackoffGrows(m: nat, n: nat)
    requires 1 <= m <= n
    ensures 2_000 <= BackoffMs(m) <= BackoffMs(n) <= 30_000
    ensures m >= 5 ==> BackoffMs(m) == 30_000
  {
    Pow2Grows(1, m);
    Pow2Grows(m, n);
    assert Pow2(1) == 2;
    assert Pow2(5) == 32;
    if m >= 5 { Pow2Grows(5, m); }
  }

  /**
   A step takes a job into processing only through a claim, not before its time, and takes over a lock only
   after five minutes.
   */
  lemma ClaimsWait(key: nat, s: State, e: Event, id: Id)
    requires StateOk(s) && id in s.jobs && id in Step(key, s, e).jobs && Step(key, s, e).jobs[id].status.Processing?
    requires s.jobs[id].status != Processing || s.jobs[id].lockedAt != Step(key, s, e).jobs[id].lockedAt
    ensures s.consumer.Found? && s.consumer.id == id && Step(key, s, e).jobs[id].lockedAt == Some(s.consumer.now)
    ensures s.jobs[id].status.Pending? ==> s.jobs[id].nextRunAt <= s.consumer.now
    ensures s.jobs[id].status.Processing? ==>
        s.jobs[id].lockedAt.Some? && s.jobs[id].lockedAt.value + JOB_LOCK_TIMEOUT_MS <= s.consumer.now
    ensures s.jobs[id].status.Pending? || s.jobs[id].status.Processing?
  {
  }

  lemma {:induction false} PendingKeepsItsTime(key: nat, es: seq<Event>, i: nat, j: nat, id: Id)
    requires i <= j <= |es|
    requires forall k | i <= k <= j :: id in At(key, es, k).jobs && At(key, es, k).jobs[id].status.Pending?
    ensures At(key, es, j).jobs[id].nextRunAt == At(key, es, i).jobs[id].nextRunAt
    decreases j
  {
    if i == j {
    } else {
      PendingKeepsItsTime(key, es, i, j - 1, id);
      LifecycleHolds(key, es, j - 1);
      Steps(key, es, j - 1);
      assert id in At(key, es, j - 1).jobs && At(key, es, j - 1).jobs[id].status.Pending?;
    }
  }

  /** After a recorded failure that was not the last, the job is claimed again only once its backoff has passed. */
  lemma RetriesWait(key: nat, es: seq<Event>, i: nat, j: nat)
    requires i < j < |es|
    requires At(key, es, i).consumer.Broken? && es[i].Consume? && !es[i].fault.Fails?
    requires var id := At(key, es, i).consumer.job.id;
             (forall k | i < k <= j :: id in At(key, es, k).jobs && At(key, es, k).jobs[id].status.Pending?)
             && id in At(key, es, i).jobs && id in At(key, es, j + 1).jobs
                  && At(key, es, j + 1).jobs[id].status.Processing?
    ensures var id := At(key, es, i).consumer.job.id;
            At(key, es, j).consumer.Found?
                && At(key, es, j).consumer.now >= es[i].later + BackoffMs(At(key, es, i + 1).jobs[id].attempts)
  {
    var id := At(key, es, i).consumer.job.id;
    LifecycleHolds(key, es, i);
    LifecycleHolds(key, es, j);
    Steps(key, es, i);
    Steps(key, es, j);
    assert id in At(key, es, j).jobs && At(key, es, j).jobs[id].status.Pending?;
    assert id in At(key, es, i + 1).jobs && At(key, es, i + 1).jobs[id].status.Pending?;
    PendingKeepsItsTime(key, es, i + 1, j, id);
    ClaimsWait(key, At(key, es, j), es[j], id);
  }
}
