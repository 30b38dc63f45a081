/** Requesting a one-time password: every interleaving keeps jobs and rows in step. */
module OtpRequestProofs {
  import opened Wrappers
  import opened OtpRequests

  // ----- single statements -----

  lemma SameIsEvolution(cfg: Config, db: Db)
    requires DbOk(cfg, db)
    ensures Evolves(db, db)
  {
    forall key | key in db.jobs ensures db.jobs[key].otpCodeId in db.rows { assert JobMatches(db, key); }
  }

  lemma CompleteOk(cfg: Config, db: Db, id: RowId, now: int)
    requires DbOk(cfg, db) && id in db.rows && IsEnqueued(db, db.rows[id].key, id)
    ensures DbOk(cfg, Complete(db, id, now)) && Evolves(db, Complete(db, id, now))
  {
    var after := Complete(db, id, now);
    forall key | key in db.jobs ensures JobMatches(after, key) { assert JobMatches(db, key); }
  }

  lemma DeleteOk(cfg: Config, db: Db, id: RowId)
    requires DbOk(cfg, db) && id in db.rows && !Referenced(db, id)
    ensures DbOk(cfg, Delete(db, id)) && Evolves(db, Delete(db, id))
  {
    var after := Delete(db, id);
    forall key | key in db.jobs ensures JobMatches(after, key) && after.jobs[key].otpCodeId in after.rows {
      assert JobMatches(db, key);
      assert db.jobs[key].otpCodeId != id;
    }
  }

  lemma InsertOk(cfg: Config, db: Db, id: RowId, row: OtpRow)
    requires DbOk(cfg, db) && id !in db.issued && !KeyTaken(db, row.key)
    requires row.completedAt.None? && row.developmentOtp == Exposed(cfg, row.codeHash.code)
    ensures var after := db.(rows := db.rows[id := row], issued := db.issued + {id});
            DbOk(cfg, after) && Evolves(db, after)
  {
    var after := db.(rows := db.rows[id := row], issued := db.issued + {id});
    forall key | key in db.jobs
      ensures JobMatches(after, key) && after.jobs[key].otpCodeId in after.rows
    {
      assert JobMatches(db, key);
    }
  }

  lemma EnqueueOk(cfg: Config, db: Db, key: Key, id: RowId, payload: Payload)
    requires DbOk(cfg, db) && key !in db.jobs && id in db.rows && Knows(db, id, payload.phone, key, payload.code)
    ensures var after := db.(jobs := db.jobs[key := Job(id, Some(payload))]); DbOk(cfg, after) && Evolves(db, after)
  {
    var after := db.(jobs := db.jobs[key := Job(id, Some(payload))]);
    forall other | other in after.jobs ensures JobMatches(after, other) {
      if other != key { assert JobMatches(db, other); }
    }
    forall other | other in db.jobs ensures after.jobs[other].otpCodeId in after.rows { assert JobMatches(db, other); }
  }

  lemma RedactOk(cfg: Config, db: Db, key: Key)
    requires DbOk(cfg, db) && key in db.jobs
    ensures var after := db.(jobs := db.jobs[key := db.jobs[key].(payload := None)]);
            DbOk(cfg, after) && Evolves(db, after)
  {
    var after := db.(jobs := db.jobs[key := db.jobs[key].(payload := None)]);
    forall other | other in db.jobs
      ensures JobMatches(after, other) && after.jobs[other].otpCodeId in after.rows
    {
      assert JobMatches(db, other);
    }
  }

  // ----- a call's knowledge -----

  lemma EvolutionKeepsWorker(cfg: Config, a: Db, b: Db, clock: int, later: int, k: Worker)
    requires Evolves(a, b) && a.rows.Keys <= a.issued && WorkerOk(cfg, a, clock, k) && clock <= later
    ensures WorkerOk(cfg, b, later, k)
  {
    if k.Replied? {
      var id :| MayReply(a, k.phone, k.key, id, k.developmentOtp);
      assert MayReply(b, k.phone, k.key, id, k.developmentOtp);
    }
  }

  lemma ReadingOk(cfg: Config, db: Db, id: RowId)
    requires DbOk(cfg, db) && id in db.rows
    ensures Recalls(cfg, db, id, db.rows[id])
  {
  }

  lemma EnqueuedMayReply(cfg: Config, db: Db, phone: Phone, key: Key, id: RowId, snap: OtpRow)
    requires DbOk(cfg, db) && Recalls(cfg, db, id, snap) && snap.key == key && snap.phone == phone
    requires IsEnqueued(db, key, id)
    ensures MayReply(db, phone, key, id, snap.developmentOtp)
  {
    assert JobMatches(db, key);
  }

  lemma OwnJobMayReply(cfg: Config, db: Db, phone: Phone, key: Key, id: RowId, code: Code)
    requires DbOk(cfg, db) && Knows(db, id, phone, key, code) && IsEnqueued(db, key, id)
    ensures MayReply(db, phone, key, id, Exposed(cfg, code))
  {
    assert JobMatches(db, key);
  }

  // ----- every step of a call -----

  ghost predicate AdvancesWell(cfg: Config, db: Db, clock: int, k: Worker, c: Choice) {
    var (db', k') := Advance(cfg, db, clock, k, c);
    DbOk(cfg, db') && Evolves(db, db') && WorkerOk(cfg, db', clock, k')
  }

  lemma ReplayAdvances(cfg: Config, db: Db, clock: int, k: Worker, c: Choice)
    requires DbOk(cfg, db) && WorkerOk(cfg, db, clock, k) && Possible(cfg, db, clock, k, c)
    requires k.Replay? || k.ReplayFound? || k.CheckEnqueued? || k.RecheckEnqueued?
    ensures AdvancesWell(cfg, db, clock, k, c)
  {
    SameIsEvolution(cfg, db);
    if k.Replay? {
      if c.found.Some? { ReadingOk(cfg, db, c.found.value); }
    } else if k.ReplayFound? {
      if k.snap.phone == k.phone && k.snap.completedAt.Some? {
        EnqueuedMayReply(cfg, db, k.phone, k.key, k.id, k.snap);
      }
    } else if IsEnqueued(db, k.key, k.id) {
      EnqueuedMayReply(cfg, db, k.phone, k.key, k.id, k.snap);
    }
  }

  lemma TakeoverAdvances(cfg: Config, db: Db, clock: int, k: Worker, c: Choice)
    requires DbOk(cfg, db) && WorkerOk(cfg, db, clock, k) && Possible(cfg, db, clock, k, c)
    requires k.Takeover?
    ensures AdvancesWell(cfg, db, clock, k, c)
  {
    SameIsEvolution(cfg, db);
    if k.id in db.rows && !Referenced(db, k.id) { DeleteOk(cfg, db, k.id); }
  }

  lemma CleanUpAdvances(cfg: Config, db: Db, clock: int, k: Worker, c: Choice)
    requires DbOk(cfg, db) && WorkerOk(cfg, db, clock, k) && Possible(cfg, db, clock, k, c)
    requires k.CleanUp?
    ensures AdvancesWell(cfg, db, clock, k, c)
  {
    SameIsEvolution(cfg, db);
    if k.id in db.rows && !Referenced(db, k.id) { DeleteOk(cfg, db, k.id); }
  }

  lemma CompletionAdvances(cfg: Config, db: Db, clock: int, k: Worker, c: Choice)
    requires DbOk(cfg, db) && WorkerOk(cfg, db, clock, k) && Possible(cfg, db, clock, k, c) && k.MarkCompleted?
    ensures AdvancesWell(cfg, db, clock, k, c)
  {
    assert JobMatches(db, k.key);
    CompleteOk(cfg, db, k.id, clock);
    assert MayReply(Complete(db, k.id, clock), k.phone, k.key, k.id, k.developmentOtp);
  }

  lemma InsertAdvances(cfg: Config, db: Db, clock: int, k: Worker, c: Choice)
    requires DbOk(cfg, db) && WorkerOk(cfg, db, clock, k) && Possible(cfg, db, clock, k, c)
    requires k.CheckLatest? || k.Insert? || k.RecordEvent?
    ensures AdvancesWell(cfg, db, clock, k, c)
  {
    SameIsEvolution(cfg, db);
    if k.CheckLatest? && !c.limited && c.found.Some? && db.rows[c.found.value].key == k.key
        && db.rows[c.found.value].completedAt.Some? {
      assert MayReply(db, k.phone, k.key, c.found.value, db.rows[c.found.value].developmentOtp);
    }
    if k.Insert? && !KeyTaken(db, k.key) {
      InsertOk(cfg, db, c.newId, OtpRow(k.phone, k.key, Bcrypt(c.code), Exposed(cfg, c.code), clock, None));
    }
  }

  lemma PublishAdvances(cfg: Config, db: Db, clock: int, k: Worker, c: Choice)
    requires DbOk(cfg, db) && WorkerOk(cfg, db, clock, k) && Possible(cfg, db, clock, k, c)
    requires k.Publish? || k.PublishConflict?
    ensures AdvancesWell(cfg, db, clock, k, c)
  {
    SameIsEvolution(cfg, db);
    if k.PublishConflict? {
      if IsEnqueued(db, k.key, k.id) { OwnJobMayReply(cfg, db, k.phone, k.key, k.id, k.code); }
    } else if k.key !in db.jobs && !Referenced(db, k.id) && k.id in db.rows {
      EnqueueOk(cfg, db, k.key, k.id, Payload(k.phone, k.code));
      OwnJobMayReply(cfg, Advance(cfg, db, clock, k, c).0, k.phone, k.key, k.id, k.code);
    }
  }

  lemma CallAdvances(cfg: Config, db: Db, clock: int, k: Worker, c: Choice)
    requires DbOk(cfg, db) && WorkerOk(cfg, db, clock, k) && Possible(cfg, db, clock, k, c)
    ensures AdvancesWell(cfg, db, clock, k, c)
  {
    if k.Replay? || k.ReplayFound? || k.CheckEnqueued? || k.RecheckEnqueued? {
      ReplayAdvances(cfg, db, clock, k, c);
    } else if k.Takeover? {
      TakeoverAdvances(cfg, db, clock, k, c);
    } else if k.CleanUp? {
      CleanUpAdvances(cfg, db, clock, k, c);
    } else if k.MarkCompleted? {
      CompletionAdvances(cfg, db, clock, k, c);
    } else if k.Publish? || k.PublishConflict? {
      PublishAdvances(cfg, db, clock, k, c);
    } else {
      InsertAdvances(cfg, db, clock, k, c);
    }
  }

  // ----- every step of a run -----

  lemma StepKeepsInv(cfg: Config, s: Sys, e: Event, s': Sys)
    requires Inv(cfg, s) && Step(cfg, s, e, s')
    ensures Inv(cfg, s') && Evolves(s.db, s'.db) && s.clock <= s'.clock
  {
    SameIsEvolution(cfg, s.db);
    if e.Move? { CallAdvances(cfg, s.db, s.clock, s.workers[e.w], e.choice); }
    if e.Redact? { RedactOk(cfg, s.db, e.job); }
    forall w | w in s'.workers ensures WorkerOk(cfg, s'.db, s'.clock, s'.workers[w]) {
      if w in s.workers && s'.workers[w] == s.workers[w] {
        EvolutionKeepsWorker(cfg, s.db, s'.db, s.clock, s'.clock, s.workers[w]);
      }
    }
  }

  lemma {:induction false} RunKeepsInv(cfg: Config, run: seq<Sys>, i: nat)
    requires IsRun(cfg, run) && i < |run|
    ensures Inv(cfg, run[i])
  {
    if i == 0 {
    } else {
      RunKeepsInv(cfg, run, i - 1);
      assert TakesStep(cfg, run, i - 1);
      var e :| Step(cfg, run[i - 1], e, run[i]);
      StepKeepsInv(cfg, run[i - 1], e, run[i]);
    }
  }

  lemma EvolvesTransitively(a: Db, b: Db, c: Db)
    requires Evolves(a, b) && Evolves(b, c)
    ensures Evolves(a, c)
  {
  }

  lemma NextEvolves(cfg: Config, run: seq<Sys>, i: nat)
    requires IsRun(cfg, run) && i + 1 < |run|
    ensures Evolves(run[i].db, run[i + 1].db)
  {
    RunKeepsInv(cfg, run, i);
    assert TakesStep(cfg, run, i);
    var e :| Step(cfg, run[i], e, run[i + 1]);
    StepKeepsInv(cfg, run[i], e, run[i + 1]);
  }

  lemma RunStartEvolves(cfg: Config, run: seq<Sys>, i: nat)
    requires IsRun(cfg, run) && i < |run|
    ensures Evolves(run[i].db, run[i].db)
  {
    RunKeepsInv(cfg, run, i);
    SameIsEvolution(cfg, run[i].db);
  }

  lemma {:induction false} RunEvolves(cfg: Config, run: seq<Sys>, i: nat, j: nat)
    requires IsRun(cfg, run) && i <= j < |run|
    ensures Evolves(run[i].db, run[j].db)
    decreases j
  {
    if i == j {
      RunStartEvolves(cfg, run, i);
    } else {
      RunEvolves(cfg, run, i, j - 1);
      NextEvolves(cfg, run, j - 1);
      EvolvesTransitively(run[i].db, run[j - 1].db, run[j].db);
    }
  }

  // ----- what customers and the SMS worker can rely on -----

  /** A job always points to the row of its own key, and would send exactly that row's code to that row's phone. */
  lemma JobCarriesItsRowsCode(cfg: Config, run: seq<Sys>, i: nat, key: Key)
    requires IsRun(cfg, run) && i < |run| && key in run[i].db.jobs
    ensures var db, job := run[i].db, run[i].db.jobs[key];
            && job.otpCodeId in db.rows && db.rows[job.otpCodeId].key == key
            && (job.payload.Some? ==> Bcrypt(job.payload.value.code) == db.rows[job.otpCodeId].codeHash
                                      && job.payload.value.phone == db.rows[job.otpCodeId].phone)
  {
    RunKeepsInv(cfg, run, i);
    assert JobMatches(run[i].db, key);
  }

  /** A request is marked completed only once its job is in the queue. */
  lemma CompletedMeansEnqueued(cfg: Config, run: seq<Sys>, i: nat, id: RowId)
    requires IsRun(cfg, run) && i < |run| && id in run[i].db.rows && run[i].db.rows[id].completedAt.Some?
    ensures IsEnqueued(run[i].db, run[i].db.rows[id].key, id)
  {
    RunKeepsInv(cfg, run, i);
  }

  /** A successful reply means that the job exists, and shows the code that job was made with, if it shows one. */
  lemma ReplyMeansEnqueued(cfg: Config, run: seq<Sys>, i: nat, w: WorkerId)
    requires IsRun(cfg, run) && i < |run| && w in run[i].workers && run[i].workers[w].Replied?
    ensures var db, k := run[i].db, run[i].workers[w];
            && k.key in db.jobs && db.jobs[k.key].otpCodeId in db.rows
            && var row := db.rows[db.jobs[k.key].otpCodeId];
               && row.key == k.key && row.phone == k.phone
               && k.developmentOtp == Exposed(cfg, row.codeHash.code)
  {
    RunKeepsInv(cfg, run, i);
    var db, k := run[i].db, run[i].workers[w];
    assert WorkerOk(cfg, db, run[i].clock, k);
    var id :| MayReply(db, k.phone, k.key, id, k.developmentOtp);
    assert JobMatches(db, k.key);
  }

  /** Once a key has its job, the row behind it is there for good, with the same code. */
  lemma DeliveredRowStays(cfg: Config, run: seq<Sys>, i: nat, j: nat, key: Key)
    requires IsRun(cfg, run) && i <= j < |run| && key in run[i].db.jobs
    ensures var id := run[i].db.jobs[key].otpCodeId;
            && IsEnqueued(run[j].db, key, id) && id in run[i].db.rows && id in run[j].db.rows
            && SameRequest(run[j].db.rows[id], run[i].db.rows[id])
  {
    RunKeepsInv(cfg, run, i);
    RunEvolves(cfg, run, i, j);
    assert JobMatches(run[i].db, key);
  }

  /** All successful replies for one key, at any time and to any retry, are the same. */
  lemma RepliesAgree(cfg: Config, run: seq<Sys>, i: nat, j: nat, w: WorkerId, v: WorkerId)
    requires IsRun(cfg, run) && i <= j < |run|
    requires w in run[i].workers && run[i].workers[w].Replied?
    requires v in run[j].workers && run[j].workers[v].Replied?
    requires run[i].workers[w].key == run[j].workers[v].key
    ensures run[i].workers[w] == run[j].workers[v]
  {
    ReplyMeansEnqueued(cfg, run, i, w);
    ReplyMeansEnqueued(cfg, run, j, v);
    DeliveredRowStays(cfg, run, i, j, run[i].workers[w].key);
  }

  /** A row disappears only unfinished and unsent: taken over after the timeout, or withdrawn by its own failed call. */
  lemma OnlyStaleRequestsDisappear(cfg: Config, run: seq<Sys>, i: nat, id: RowId)
    requires IsRun(cfg, run) && i + 1 < |run| && id in run[i].db.rows && id !in run[i + 1].db.rows
    ensures run[i].db.rows[id].completedAt.None? && !Referenced(run[i].db, id)
    ensures run[i].db.rows[id].createdAt + PROCESSING_TIMEOUT_MS <= run[i].clock
            || exists w :: w in run[i].workers && run[i].workers[w] == CleanUp(id)
  {
    RunKeepsInv(cfg, run, i);
    assert TakesStep(cfg, run, i);
    var e :| Step(cfg, run[i], e, run[i + 1]);
    assert e.Move?;
    assert WorkerOk(cfg, run[i].db, run[i].clock, run[i].workers[e.w]);
  }
}
