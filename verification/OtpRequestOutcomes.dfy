/** What a request for a one-time password comes to, in any run. */
module OtpRequestOutcomes {
  import opened Wrappers
  import opened OtpRequests
  import opened OtpRequestProofs

  predicate Moves(run: seq<Sys>, i: nat, w: WorkerId)
    requires i + 1 < |run|
  {
    w in run[i].workers && w in run[i + 1].workers && run[i + 1].workers[w] != run[i].workers[w]
  }

  predicate Returns(run: seq<Sys>, j: nat, w: WorkerId)
    requires j < |run|
  {
    w in run[j].workers && HasReturned(run[j].workers[w])
  }

  // ----- a retry whose job is in the queue -----

  /** The job of the key is in the queue, for a row of this phone. */
  predicate IsSent(db: Db, phone: Phone, key: Key, id: RowId) {
    IsEnqueued(db, key, id) && id in db.rows && db.rows[id].phone == phone
  }

  predicate Awaits(k: Worker, phone: Phone, key: Key, id: RowId, reply: Option<Code>) {
    match k
    case Replay(p, k, _) => p == phone && k == key
    case ReplayFound(p, k, _, x, snap) => p == phone && k == key && x == id && snap.phone == phone
    case CheckEnqueued(p, k, _, x, _) => p == phone && k == key && x == id
    case RecheckEnqueued(p, k, x, _) => p == phone && k == key && x == id
    case MarkCompleted(p, k, x, shown) => p == phone && k == key && x == id && shown == reply
    case Insert(p, k) => p == phone && k == key
    case Publish(p, k, x, _) => p == phone && k == key && x == id
    case PublishConflict(p, k, x, _) => p == phone && k == key && x == id
    case Replied(p, k, shown) => p == phone && k == key && shown == reply
    case Crashed => true
    case _ => false
  }

  /** A call that waits for, or already has, the reply of a sent request. */
  ghost predicate GetsReply(cfg: Config, s: Sys, w: WorkerId, phone: Phone, key: Key, id: RowId) {
    && IsSent(s.db, phone, key, id) && w in s.workers
    && Awaits(s.workers[w], phone, key, id, Exposed(cfg, s.db.rows[id].codeHash.code))
  }

  lemma SentStays(cfg: Config, s: Sys, e: Event, s': Sys, phone: Phone, key: Key, id: RowId)
    requires Inv(cfg, s) && Step(cfg, s, e, s') && IsSent(s.db, phone, key, id)
    ensures IsSent(s'.db, phone, key, id) && s'.db.rows[id].codeHash == s.db.rows[id].codeHash
  {
    StepKeepsInv(cfg, s, e, s');
  }

  lemma SentTakesKey(cfg: Config, db: Db, phone: Phone, key: Key, id: RowId)
    requires DbOk(cfg, db) && IsSent(db, phone, key, id)
    ensures db.rows[id].key == key && KeyTaken(db, key)
    ensures db.rows[id].developmentOtp == Exposed(cfg, db.rows[id].codeHash.code)
    ensures forall x | x in db.rows && db.rows[x].key == key :: x == id
  {
    assert JobMatches(db, key);
  }

  lemma MoveStillGets(cfg: Config, s: Sys, w: WorkerId, c: Choice, phone: Phone, key: Key, id: RowId)
    requires Inv(cfg, s) && GetsReply(cfg, s, w, phone, key, id) && Possible(cfg, s.db, s.clock, s.workers[w], c)
    ensures Awaits(Advance(cfg, s.db, s.clock, s.workers[w], c).1, phone, key, id,
                   Exposed(cfg, s.db.rows[id].codeHash.code))
  {
    SentTakesKey(cfg, s.db, phone, key, id);
    assert WorkerOk(cfg, s.db, s.clock, s.workers[w]);
  }

  lemma StepStillGets(cfg: Config, s: Sys, e: Event, s': Sys, w: WorkerId, phone: Phone, key: Key, id: RowId)
    requires Inv(cfg, s) && Step(cfg, s, e, s') && GetsReply(cfg, s, w, phone, key, id)
    ensures GetsReply(cfg, s', w, phone, key, id)
  {
    SentStays(cfg, s, e, s', phone, key, id);
    if e.Move? && e.w == w { MoveStillGets(cfg, s, w, e.choice, phone, key, id); }
  }

  lemma {:induction false} StillGets(cfg: Config, run: seq<Sys>, i: nat, j: nat, w: WorkerId, phone: Phone, key: Key,
                                     id: RowId)
    requires IsRun(cfg, run) && i <= j < |run| && GetsReply(cfg, run[i], w, phone, key, id)
    ensures GetsReply(cfg, run[j], w, phone, key, id)
    ensures run[j].db.rows[id].codeHash == run[i].db.rows[id].codeHash
    decreases j
  {
    if i == j {
    } else {
      StillGets(cfg, run, i, j - 1, w, phone, key, id);
      RunKeepsInv(cfg, run, j - 1);
      assert TakesStep(cfg, run, j - 1);
      var e :| Step(cfg, run[j - 1], e, run[j]);
      SentStays(cfg, run[j - 1], e, run[j], phone, key, id);
      StepStillGets(cfg, run[j - 1], e, run[j], w, phone, key, id);
    }
  }

  /** The call has answered with this reply, or was cut short. */
  predicate RepliesOrCrashes(run: seq<Sys>, j: nat, w: WorkerId, phone: Phone, key: Key, reply: Option<Code>)
    requires j < |run| && Returns(run, j, w)
  {
    run[j].workers[w] == Replied(phone, key, reply) || run[j].workers[w].Crashed?
  }

  /** A call about to look its key up, to insert its row, or to publish its job. */
  predicate IsAbout(k: Worker, phone: Phone, key: Key, id: RowId) {
    match k
    case Replay(p, x, _) => p == phone && x == key
    case Insert(p, x) => p == phone && x == key
    case Publish(p, x, own, _) => p == phone && x == key && own == id
    case _ => false
  }

  /**
   Once the job of a key is in the queue, a call of that phone that has yet to look the key up, to insert its row,
   or to publish its job, answers with the code of that job, unless it crashes.
   */
  lemma RetryGetsReply(cfg: Config, run: seq<Sys>, i: nat, j: nat, w: WorkerId, phone: Phone, key: Key)
    requires IsRun(cfg, run) && i <= j < |run| && Returns(run, j, w) && w in run[i].workers
    requires key in run[i].db.jobs && run[i].db.jobs[key].otpCodeId in run[i].db.rows
    requires run[i].db.rows[run[i].db.jobs[key].otpCodeId].phone == phone
    requires IsAbout(run[i].workers[w], phone, key, run[i].db.jobs[key].otpCodeId)
    ensures RepliesOrCrashes(run, j, w, phone, key,
                             Exposed(cfg, run[i].db.rows[run[i].db.jobs[key].otpCodeId].codeHash.code))
  {
    StillGets(cfg, run, i, j, w, phone, key, run[i].db.jobs[key].otpCodeId);
  }

  lemma TakeoverLooksAgain(cfg: Config, run: seq<Sys>, i: nat, w: WorkerId)
    requires IsRun(cfg, run) && i + 1 < |run| && Moves(run, i, w) && run[i].workers[w].Takeover?
    requires var k := run[i].workers[w];
             && IsSent(run[i].db, k.phone, k.key, k.id) && run[i].db.rows[k.id].completedAt.None?
             && run[i].db.rows[k.id].createdAt <= k.deadline
    ensures var k := run[i].workers[w]; GetsReply(cfg, run[i + 1], w, k.phone, k.key, k.id)
    ensures run[i + 1].db.rows[run[i].workers[w].id].codeHash == run[i].db.rows[run[i].workers[w].id].codeHash
  {
    RunKeepsInv(cfg, run, i);
    assert TakesStep(cfg, run, i);
    var e :| Step(cfg, run[i], e, run[i + 1]);
    var k := run[i].workers[w];
    SentStays(cfg, run[i], e, run[i + 1], k.phone, k.key, k.id);
    assert Referenced(run[i].db, k.id);
  }

  /** A call that meets the job only when it tries to take the request over answers with that job's code too. */
  lemma TakeoverMeetsJob(cfg: Config, run: seq<Sys>, i: nat, j: nat, w: WorkerId)
    requires IsRun(cfg, run) && i < j < |run| && Moves(run, i, w) && Returns(run, j, w) && run[i].workers[w].Takeover?
    requires var k := run[i].workers[w];
             && IsSent(run[i].db, k.phone, k.key, k.id) && run[i].db.rows[k.id].completedAt.None?
             && run[i].db.rows[k.id].createdAt <= k.deadline
    ensures var k := run[i].workers[w];
            RepliesOrCrashes(run, j, w, k.phone, k.key, Exposed(cfg, run[i].db.rows[k.id].codeHash.code))
  {
    var k := run[i].workers[w];
    TakeoverLooksAgain(cfg, run, i, w);
    StillGets(cfg, run, i + 1, j, w, k.phone, k.key, k.id);
  }

  // ----- the cool-down -----

  /** The phone has a request from within the cool-down. */
  predicate IsRecent(cfg: Config, s: Sys, phone: Phone, id: RowId) {
    id in s.db.rows && s.db.rows[id].phone == phone && s.db.rows[id].createdAt > s.clock - cfg.resendCooldown
  }

  /**
   What a call decides when it looks for recent requests of its phone: it goes on to a new code only if there is
   none, and answers only if the newest is its own and completed, with that one's code.
   */
  lemma CooldownDecides(cfg: Config, run: seq<Sys>, i: nat, w: WorkerId)
    requires IsRun(cfg, run) && i + 1 < |run| && Moves(run, i, w) && run[i].workers[w].CheckLatest?
    ensures var (s, k, k') := (run[i], run[i].workers[w], run[i + 1].workers[w]);
            && run[i + 1].db == s.db
            && (k'.RateLimited? || k'.Crashed? || k'.Failed? || k' == Insert(k.phone, k.key) || k'.Replied?)
            && (k'.Insert? ==> forall id :: !IsRecent(cfg, s, k.phone, id))
            && (k'.Failed? ==> exists id :: IsRecent(cfg, s, k.phone, id)
                                 && (s.db.rows[id].key != k.key || s.db.rows[id].completedAt.None?))
            && (k'.Replied? ==> exists id :: IsRecent(cfg, s, k.phone, id) && s.db.rows[id].key == k.key
                                  && k' == Replied(k.phone, k.key, s.db.rows[id].developmentOtp))
  {
    assert TakesStep(cfg, run, i);
    var e :| Step(cfg, run[i], e, run[i + 1]);
    if e.Move? && e.choice.found.Some? { assert IsRecent(cfg, run[i], run[i].workers[w].phone, e.choice.found.value); }
  }

  // ----- a request that nothing disturbs -----

  function Last(run: seq<Sys>): Sys
    requires |run| > 0
  {
    run[|run| - 1]
  }

  ghost predicate Continues(cfg: Config, run: seq<Sys>, more: seq<Sys>) {
    IsRun(cfg, run) && IsRun(cfg, more) && run <= more
  }

  lemma Extended(cfg: Config, run: seq<Sys>, e: Event, s: Sys) returns (more: seq<Sys>)
    requires IsRun(cfg, run) && Step(cfg, Last(run), e, s)
    ensures Continues(cfg, run, more) && Last(more) == s
  {
    more := run + [s];
    forall i {:trigger TakesStep(cfg, more, i)} | 0 <= i < |more| - 1 ensures TakesStep(cfg, more, i) {
      if i < |run| - 1 { assert TakesStep(cfg, run, i); }
    }
  }

  /** The call moves to `k`, leaving these tables. */
  lemma Moved(cfg: Config, run: seq<Sys>, w: WorkerId, c: Choice, db: Db, k: Worker) returns (more: seq<Sys>)
    requires IsRun(cfg, run) && w in Last(run).workers
    requires Possible(cfg, Last(run).db, Last(run).clock, Last(run).workers[w], c)
    requires Advance(cfg, Last(run).db, Last(run).clock, Last(run).workers[w], c) == (db, k)
    ensures Continues(cfg, run, more) && Last(more).db == db && Last(more).clock == Last(run).clock
    ensures Last(more).workers == Last(run).workers[w := k]
  {
    var s := Last(run);
    more := Extended(cfg, run, Move(w, c), s.(db := db, workers := s.workers[w := k]));
  }

  /** A call that is about to insert its row, under a free key. */
  ghost predicate MayInsert(s: Sys, w: WorkerId, phone: Phone, key: Key) {
    w in s.workers && s.workers[w] == Insert(phone, key) && !KeyTaken(s.db, key) && key !in s.db.jobs
  }

  predicate IsNewRow(cfg: Config, row: OtpRow, phone: Phone, key: Key, code: Code, createdAt: int,
                     completedAt: Option<int>)
  {
    && row.phone == phone && row.key == key && row.codeHash == Bcrypt(code)
    && row.developmentOtp == (if cfg.exposeOtp then Some(code) else None)
    && row.createdAt == createdAt && row.completedAt == completedAt
  }

  lemma InsertsRow(cfg: Config, run: seq<Sys>, w: WorkerId, phone: Phone, key: Key, newId: RowId, code: Code)
    returns (more: seq<Sys>)
    requires IsRun(cfg, run) && MayInsert(Last(run), w, phone, key) && newId !in Last(run).db.issued
    ensures Continues(cfg, run, more) && Last(more).clock == Last(run).clock
    ensures w in Last(more).workers && Last(more).workers[w] == RecordEvent(phone, key, newId, code)
    ensures var (before, db) := (Last(run).db, Last(more).db);
            && newId in db.rows && IsNewRow(cfg, db.rows[newId], phone, key, code, Last(run).clock, None)
            && db.rows == before.rows[newId := db.rows[newId]] && db.jobs == before.jobs
            && !Referenced(db, newId)
  {
    var s := Last(run);
    RunKeepsInv(cfg, run, |run| - 1);
    var row := OtpRow(phone, key, Bcrypt(code), Exposed(cfg, code), s.clock, None);
    var db := s.db.(rows := s.db.rows[newId := row], issued := s.db.issued + {newId});
    more := Moved(cfg, run, w, Choice(None, newId, code, false, false), db, RecordEvent(phone, key, newId, code));
    forall x | x in db.jobs ensures db.jobs[x].otpCodeId != newId { assert JobMatches(s.db, x); }
  }

  /** Publishing: the job is queued, the row completed, and the code shown if codes are shown. */
  lemma PublishesCode(cfg: Config, run: seq<Sys>, w: WorkerId, phone: Phone, key: Key, id: RowId, code: Code)
    returns (more: seq<Sys>)
    requires IsRun(cfg, run) && w in Last(run).workers && Last(run).workers[w] == RecordEvent(phone, key, id, code)
    requires id in Last(run).db.rows && key !in Last(run).db.jobs && !Referenced(Last(run).db, id)
    ensures Continues(cfg, run, more) && w in Last(more).workers
    ensures Last(more).workers[w] == Replied(phone, key, if cfg.exposeOtp then Some(code) else None)
    ensures var (before, db) := (Last(run).db, Last(more).db);
            && db.rows == before.rows[id := before.rows[id].(completedAt := Some(Last(run).clock))]
            && db.jobs == before.jobs[key := Job(id, Some(Payload(phone, code)))]
  {
    var s, c := Last(run), Choice(None, 0, 0, false, false);
    var recorded := Moved(cfg, run, w, c, s.db, Publish(phone, key, id, code));
    var queued := s.db.(jobs := s.db.jobs[key := Job(id, Some(Payload(phone, code)))]);
    var published := Moved(cfg, recorded, w, c, queued, MarkCompleted(phone, key, id, Exposed(cfg, code)));
    more := Moved(cfg, published, w, c, Complete(queued, id, s.clock), Replied(phone, key, Exposed(cfg, code)));
  }

  /** A request about to insert its row sends its code, when nothing intervenes. */
  lemma InsertSends(cfg: Config, run: seq<Sys>, w: WorkerId, phone: Phone, key: Key, newId: RowId, code: Code)
    returns (more: seq<Sys>)
    requires IsRun(cfg, run) && MayInsert(Last(run), w, phone, key) && newId !in Last(run).db.issued
    ensures Continues(cfg, run, more) && Sends(cfg, Last(run), Last(more), w, phone, key, newId, code)
  {
    var inserted := InsertsRow(cfg, run, w, phone, key, newId, code);
    more := PublishesCode(cfg, inserted, w, phone, key, newId, code);
  }

  /** The answer of a new request, and the tables it leaves. */
  predicate Sends(cfg: Config, s: Sys, t: Sys, w: WorkerId, phone: Phone, key: Key, newId: RowId, code: Code) {
    && w in t.workers && t.workers[w] == Replied(phone, key, if cfg.exposeOtp then Some(code) else None)
    && newId in t.db.rows
    && IsNewRow(cfg, t.db.rows[newId], phone, key, code, s.clock, Some(s.clock))
    && t.db.rows == s.db.rows[newId := t.db.rows[newId]]
    && t.db.jobs == s.db.jobs[key := Job(newId, Some(Payload(phone, code)))]
  }

  /** A request whose event cannot be recorded leaves the tables as they were. */
  lemma FailedEventLeavesNothing(cfg: Config, run: seq<Sys>, w: WorkerId, phone: Phone, key: Key, newId: RowId,
                                 code: Code)
    returns (more: seq<Sys>)
    requires IsRun(cfg, run) && MayInsert(Last(run), w, phone, key) && newId !in Last(run).db.issued
    ensures Continues(cfg, run, more) && w in Last(more).workers && Last(more).workers[w].Failed?
    ensures Last(more).db.rows == Last(run).db.rows && Last(more).db.jobs == Last(run).db.jobs
  {
    var inserted := InsertsRow(cfg, run, w, phone, key, newId, code);
    RunKeepsInv(cfg, run, |run| - 1);
    var s, c := Last(inserted), Choice(None, 0, 0, false, true);
    var failed := Moved(cfg, inserted, w, c, s.db, CleanUp(newId));
    more := Moved(cfg, failed, w, c, Delete(s.db, newId), Failed);
    assert s.db.rows - {newId} == Last(run).db.rows;
  }

  lemma FreeKeyHasNoJob(cfg: Config, run: seq<Sys>, key: Key)
    requires IsRun(cfg, run) && !KeyTaken(Last(run).db, key)
    ensures key !in Last(run).db.jobs
  {
    RunKeepsInv(cfg, run, |run| - 1);
    forall other | other in Last(run).db.jobs ensures other != key { assert JobMatches(Last(run).db, other); }
  }

  predicate IsCalm(cfg: Config, s: Sys, phone: Phone) {
    forall id | id in s.db.rows && s.db.rows[id].phone == phone ::
      s.db.rows[id].createdAt <= s.clock - cfg.resendCooldown
  }

  /** From any reachable state: a request under a new key, of a phone past its cool-down, sends its code. */
  lemma NewRequestSends(cfg: Config, run: seq<Sys>, w: WorkerId, phone: Phone, key: Key, newId: RowId, code: Code)
    returns (more: seq<Sys>)
    requires IsRun(cfg, run) && w !in Last(run).workers && newId !in Last(run).db.issued
    requires !KeyTaken(Last(run).db, key) && IsCalm(cfg, Last(run), phone)
    ensures Continues(cfg, run, more) && Sends(cfg, Last(run), Last(more), w, phone, key, newId, code)
  {
    var s, c := Last(run), Choice(None, 0, 0, false, false);
    var begun := Extended(cfg, run, Request(w, phone, key),
                          s.(workers := s.workers[w := Replay(phone, key, Initially)]));
    var looked := Moved(cfg, begun, w, c, s.db, CheckLatest(phone, key));
    var cool := Moved(cfg, looked, w, c, s.db, Insert(phone, key));
    FreeKeyHasNoJob(cfg, run, key);
    more := InsertSends(cfg, cool, w, phone, key, newId, code);
  }

  /** An unfinished request of this phone without a job, older than the timeout. */
  ghost predicate IsAbandoned(s: Sys, phone: Phone, key: Key, id: RowId) {
    && id in s.db.rows && s.db.rows[id].phone == phone && s.db.rows[id].key == key
    && s.db.rows[id].completedAt.None? && !Referenced(s.db, id)
    && s.db.rows[id].createdAt + PROCESSING_TIMEOUT_MS <= s.clock
  }

  lemma TakesOver(cfg: Config, run: seq<Sys>, w: WorkerId, phone: Phone, key: Key, id: RowId) returns (more: seq<Sys>)
    requires IsRun(cfg, run) && w !in Last(run).workers && IsAbandoned(Last(run), phone, key, id)
    ensures Continues(cfg, run, more) && w in Last(more).workers && Last(more).workers[w] == CheckLatest(phone, key)
    ensures Last(more).db.rows == Last(run).db.rows - {id} && Last(more).db.jobs == Last(run).db.jobs
    ensures Last(more).db.issued == Last(run).db.issued && Last(more).clock == Last(run).clock
  {
    var s, c := Last(run), Choice(Some(id), 0, 0, false, false);
    var snap, why := s.db.rows[id], Initially;
    var begun := Extended(cfg, run, Request(w, phone, key), s.(workers := s.workers[w := Replay(phone, key, why)]));
    var found := Moved(cfg, begun, w, c, s.db, ReplayFound(phone, key, why, id, snap));
    var checked := Moved(cfg, found, w, c, s.db, CheckEnqueued(phone, key, why, id, snap));
    var late := Moved(cfg, checked, w, c, s.db,
                      Takeover(phone, key, why, id, snap, s.clock - PROCESSING_TIMEOUT_MS));
    more := Moved(cfg, late, w, c, Delete(s.db, id), CheckLatest(phone, key));
  }

  /** A retry of an abandoned request replaces it by a new one, once the phone is past its cool-down. */
  lemma AbandonedIsReplaced(cfg: Config, run: seq<Sys>, w: WorkerId, phone: Phone, key: Key, id: RowId, newId: RowId,
                            code: Code)
    returns (more: seq<Sys>)
    requires IsRun(cfg, run) && w !in Last(run).workers && newId !in Last(run).db.issued
    requires IsAbandoned(Last(run), phone, key, id) && IsCalm(cfg, Last(run), phone)
    ensures Continues(cfg, run, more)
    ensures Sends(cfg, Last(run).(db := Last(run).db.(rows := Last(run).db.rows - {id})), Last(more), w, phone, key,
                  newId, code)
  {
    RunKeepsInv(cfg, run, |run| - 1);
    var free := TakesOver(cfg, run, w, phone, key, id);
    assert !KeyTaken(Last(free).db, key);
    FreeKeyHasNoJob(cfg, free, key);
    var cool := Moved(cfg, free, w, Choice(None, 0, 0, false, false), Last(free).db, Insert(phone, key));
    more := InsertSends(cfg, cool, w, phone, key, newId, code);
  }

  // ----- a request that is still being worked on -----

  /** A retry that finds an unfinished request younger than the timeout is refused, and changes nothing. */
  lemma YoungRequestIsLeft(cfg: Config, run: seq<Sys>, i: nat, w: WorkerId)
    requires IsRun(cfg, run) && i + 1 < |run| && Moves(run, i, w) && run[i].workers[w].CheckEnqueued?
    requires var k := run[i].workers[w];
             !IsEnqueued(run[i].db, k.key, k.id) && k.snap.createdAt + PROCESSING_TIMEOUT_MS > run[i].clock
    ensures run[i + 1].db == run[i].db && (run[i + 1].workers[w].Failed? || run[i + 1].workers[w].Crashed?)
  {
    assert TakesStep(cfg, run, i);
    var e :| Step(cfg, run[i], e, run[i + 1]);
  }

  /** A call that loses the insert to another one, of which nothing is left, reports the conflict. */
  lemma LostInsertFails(cfg: Config, run: seq<Sys>, i: nat, w: WorkerId)
    requires IsRun(cfg, run) && i + 1 < |run| && Moves(run, i, w)
    requires run[i].workers[w].Replay? && run[i].workers[w].why.AfterConflict?
             && !KeyTaken(run[i].db, run[i].workers[w].key)
    ensures run[i + 1].db == run[i].db && (run[i + 1].workers[w].Failed? || run[i + 1].workers[w].Crashed?)
  {
    assert TakesStep(cfg, run, i);
    var e :| Step(cfg, run[i], e, run[i + 1]);
  }
}
