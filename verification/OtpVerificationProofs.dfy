/** Verifying a one-time password: what every interleaving of retries keeps. */
module OtpVerificationProofs {
  import opened Wrappers
  import opened OtpVerification

  // ----- single statements -----

  lemma RetireOk(cfg: Config, db: Db, phone: Phone, at: int)
    requires DbOk(cfg, db)
    ensures DbOk(cfg, Retire(db, phone, at)) && Evolves(db, Retire(db, phone, at))
    ensures forall id | id in db.rows && db.rows[id].phone == phone :: !IsOpen(Retire(db, phone, at).rows[id])
  {
  }

  lemma MissOk(cfg: Config, db: Db, id: RowId, attempts: nat, consumedAt: Option<int>)
    requires DbOk(cfg, db) && id in db.rows
    requires if attempts >= cfg.maxAttempts then consumedAt.Some? else consumedAt == db.rows[id].consumedAt
    ensures var after := db.(rows := db.rows[id := db.rows[id].(attempts := attempts, consumedAt := consumedAt)]);
            DbOk(cfg, after) && Evolves(db, after)
  {
  }

  /** The rows after a commit: this one sealed, every other one of the user consumed, nobody else's touched. */
  lemma IssueRows(db: Db, id: RowId, call: Call, at: int, response: Response)
    requires id in db.rows && db.rows[id].phone == call.phone
    ensures var after := Issue(db, id, call, at, response);
            && after.rows.Keys == db.rows.Keys
            && (forall x | x in db.rows && db.rows[x].phone == call.phone :: !IsOpen(after.rows[x]))
            && (forall x | x in db.rows && x != id ::
                  after.rows[x] == db.rows[x].(consumedAt := after.rows[x].consumedAt))
            && (forall x | x in db.rows && !IsOpen(db.rows[x]) :: !IsOpen(after.rows[x]))
            && after.rows[id] == db.rows[id].(consumedAt := Some(at), verification := after.rows[id].verification)
            && after.rows[id].verification
                 == Some(Verification(call.key, call.request, Encrypt(call.key, call.request, response), at))
  {
  }

  lemma IssueKeepsLog(cfg: Config, db: Db, id: RowId, call: Call, at: int, response: Response)
    requires DbOk(cfg, db) && Claimable(db, id, at) && db.rows[id].phone == call.phone
    requires db.rows[id].codeHash == Bcrypt(call.code)
    ensures LogOk(Issue(db, id, call, at, response))
  {
    var after := Issue(db, id, call, at, response);
    IssueRows(db, id, call, at, response);
    forall n | 0 <= n < |db.sessions| ensures db.sessions[n].otp != id {}
    forall n | 0 <= n < |after.sessions| && after.sessions[n].otp in after.rows
      ensures RecordsSession(after.rows[after.sessions[n].otp], after.sessions[n])
    {
      if n < |db.sessions| { assert after.sessions[n] == db.sessions[n]; }
    }
  }

  lemma IssueOk(cfg: Config, db: Db, id: RowId, call: Call, at: int, response: Response)
    requires DbOk(cfg, db) && Claimable(db, id, at) && db.rows[id].phone == call.phone && !KeyTaken(db, call.key)
    requires db.rows[id].codeHash == Bcrypt(call.code)
    ensures DbOk(cfg, Issue(db, id, call, at, response)) && Evolves(db, Issue(db, id, call, at, response))
  {
    var after := Issue(db, id, call, at, response);
    IssueRows(db, id, call, at, response);
    IssueKeepsLog(cfg, db, id, call, at, response);
    assert after.sessions[|db.sessions|] == Issued(id, call, response);
    forall x | x in after.rows && after.rows[x].verification.Some?
      ensures !IsOpen(after.rows[x]) && Stored(after, x, after.rows[x])
    {
      if x != id { assert Stored(db, x, db.rows[x]); }
    }
  }

  // ----- a call's knowledge -----

  lemma EvolutionKeepsWorker(cfg: Config, a: Db, b: Db, k: Worker)
    requires Evolves(a, b) && WorkerOk(cfg, a, k)
    ensures WorkerOk(cfg, b, k)
  {
    if k.ReplayFound? {
      var id :| Stored(a, id, k.snap);
      assert Stored(b, id, k.snap);
    } else if k.Replied? {
      var id :| Issued(id, k.call, k.response) in a.sessions;
      assert Issued(id, k.call, k.response) in b.sessions;
    }
  }

  // ----- every step of a call -----

  ghost predicate AdvancesWell(cfg: Config, db: Db, clock: int, k: Worker, c: Choice) {
    var (db', k') := Advance(cfg, db, clock, k, c);
    DbOk(cfg, db') && Evolves(db, db') && OnlyOpenCodesVerify(db, db') && WorkerOk(cfg, db', k')
  }

  lemma ReadAdvances(cfg: Config, db: Db, clock: int, k: Worker, c: Choice)
    requires DbOk(cfg, db) && WorkerOk(cfg, db, k) && Possible(db, clock, k, c)
    requires !k.RecordMiss? && !k.RetireAll? && !k.OpenSession?
    ensures AdvancesWell(cfg, db, clock, k, c)
  {
    if k.Replay? && c.found.Some? {
      assert Stored(db, c.found.value, db.rows[c.found.value]);
    }
    if k.ReplayFound? {
      var id :| Stored(db, id, k.snap);
    }
  }

  lemma WriteAdvances(cfg: Config, db: Db, clock: int, k: Worker, c: Choice)
    requires DbOk(cfg, db) && WorkerOk(cfg, db, k) && Possible(db, clock, k, c)
    requires k.RecordMiss? || k.RetireAll?
    ensures AdvancesWell(cfg, db, clock, k, c)
  {
    if k.RetireAll? {
      RetireOk(cfg, db, k.call.phone, k.at);
    } else if k.id in db.rows {
      MissOk(cfg, db, k.id, k.attempts,
             if k.attempts >= cfg.maxAttempts then Some(clock) else db.rows[k.id].consumedAt);
    }
  }

  lemma IssueVerifiesOpenCode(db: Db, id: RowId, call: Call, at: int, response: Response)
    requires Claimable(db, id, at)
    ensures var after := Issue(db, id, call, at, response);
            && db.sessions <= after.sessions && OnlyOpenCodesVerify(db, after)
            && Issued(id, call, response) in after.sessions
  {
    var after := Issue(db, id, call, at, response);
    assert after.sessions[|db.sessions|] == Issued(id, call, response);
  }

  lemma OpenAdvances(cfg: Config, db: Db, clock: int, k: Worker, c: Choice)
    requires DbOk(cfg, db) && WorkerOk(cfg, db, k) && Possible(db, clock, k, c) && k.OpenSession?
    ensures AdvancesWell(cfg, db, clock, k, c)
  {
    if !c.aborts && Claimable(db, k.id, k.at) && !KeyTaken(db, k.call.key) {
      IssueOk(cfg, db, k.id, k.call, k.at, c.response);
      IssueVerifiesOpenCode(db, k.id, k.call, k.at, c.response);
    }
  }

  lemma CallAdvances(cfg: Config, db: Db, clock: int, k: Worker, c: Choice)
    requires DbOk(cfg, db) && WorkerOk(cfg, db, k) && Possible(db, clock, k, c)
    ensures AdvancesWell(cfg, db, clock, k, c)
  {
    if k.RecordMiss? || k.RetireAll? { WriteAdvances(cfg, db, clock, k, c); }
    else if k.OpenSession? { OpenAdvances(cfg, db, clock, k, c); }
    else { ReadAdvances(cfg, db, clock, k, c); }
  }

  // ----- every step of a run -----

  lemma StoredOk(cfg: Config, a: Db, b: Db)
    requires DbOk(cfg, a) && b.sessions == a.sessions
    requires forall id | id in b.rows && b.rows[id].verification.Some? ::
        id in a.rows && b.rows[id] == a.rows[id].(delivered := b.rows[id].delivered)
    ensures forall id | id in b.rows && b.rows[id].verification.Some? ::
              Stored(b, id, b.rows[id])
  {
    forall id | id in b.rows && b.rows[id].verification.Some?
      ensures Stored(b, id, b.rows[id])
    {
      assert Stored(a, id, a.rows[id]);
    }
  }

  lemma NewCodeOk(cfg: Config, s: Sys, e: Event, s': Sys)
    requires cfg.Valid() && DbOk(cfg, s.db) && Step(cfg, s, e, s') && e.NewCode?
    ensures DbOk(cfg, s'.db) && Evolves(s.db, s'.db) && s'.db.sessions == s.db.sessions
  {
    assert s'.db.sessions == s.db.sessions;
    StoredOk(cfg, s.db, s'.db);
  }

  lemma DeliverOk(cfg: Config, s: Sys, e: Event, s': Sys)
    requires cfg.Valid() && DbOk(cfg, s.db) && Step(cfg, s, e, s') && e.Deliver?
    ensures DbOk(cfg, s'.db) && Evolves(s.db, s'.db) && s'.db.sessions == s.db.sessions
  {
    assert s'.db.sessions == s.db.sessions;
    StoredOk(cfg, s.db, s'.db);
  }

  lemma WithdrawOk(cfg: Config, s: Sys, e: Event, s': Sys)
    requires cfg.Valid() && DbOk(cfg, s.db) && Step(cfg, s, e, s') && e.Withdraw?
    ensures DbOk(cfg, s'.db) && Evolves(s.db, s'.db) && s'.db.sessions == s.db.sessions
  {
    assert s'.db.sessions == s.db.sessions;
    StoredOk(cfg, s.db, s'.db);
  }

  lemma StepKeepsCreation(cfg: Config, s: Sys, e: Event, s': Sys)
    requires Step(cfg, s, e, s') && forall id | id in s.db.rows :: s.db.rows[id].createdAt <= s.clock
    ensures forall id | id in s'.db.rows :: s'.db.rows[id].createdAt <= s'.clock
  {
  }

  lemma StepKeepsDb(cfg: Config, s: Sys, e: Event, s': Sys)
    requires cfg.Valid() && Inv(cfg, s) && Step(cfg, s, e, s')
    ensures DbOk(cfg, s'.db) && Evolves(s.db, s'.db) && OnlyOpenCodesVerify(s.db, s'.db)
  {
    match e
    case Move(w, c) => CallAdvances(cfg, s.db, s.clock, s.workers[w], c);
    case NewCode(_, _, _, _) => NewCodeOk(cfg, s, e, s');
    case Deliver(_) => DeliverOk(cfg, s, e, s');
    case Withdraw(_) => WithdrawOk(cfg, s, e, s');
    case _ =>
  }

  lemma StepKeepsInv(cfg: Config, s: Sys, e: Event, s': Sys)
    requires cfg.Valid() && Inv(cfg, s) && Step(cfg, s, e, s')
    ensures Inv(cfg, s')
  {
    StepKeepsDb(cfg, s, e, s');
    StepKeepsCreation(cfg, s, e, s');
    if e.Move? { CallAdvances(cfg, s.db, s.clock, s.workers[e.w], e.choice); }
    forall w | w in s'.workers ensures WorkerOk(cfg, s'.db, s'.workers[w]) {
      if w in s.workers && s'.workers[w] == s.workers[w] {
        EvolutionKeepsWorker(cfg, s.db, s'.db, s.workers[w]);
      }
    }
  }

  lemma {:induction false} RunKeepsInv(cfg: Config, run: seq<Sys>, i: nat)
    requires cfg.Valid() && IsRun(cfg, run) && i < |run|
    ensures Inv(cfg, run[i])
  {
    if i == 0 {
    } else {
      RunKeepsInv(cfg, run, i - 1);
      assert TakesStep(cfg, run, i - 1);
      var e :| Step(cfg, run[i - 1], e, run[i]);
      StepKeepsInv(cfg, run[i - 1], e, run[i]);
    }
  }

  lemma NextEvolves(cfg: Config, run: seq<Sys>, i: nat)
    requires cfg.Valid() && IsRun(cfg, run) && i + 1 < |run|
    ensures Evolves(run[i].db, run[i + 1].db) && OnlyOpenCodesVerify(run[i].db, run[i + 1].db)
  {
    RunKeepsInv(cfg, run, i);
    assert TakesStep(cfg, run, i);
    var e :| Step(cfg, run[i], e, run[i + 1]);
    StepKeepsDb(cfg, run[i], e, run[i + 1]);
  }

  lemma EvolvesTransitively(a: Db, b: Db, c: Db)
    requires Evolves(a, b) && Evolves(b, c)
    ensures Evolves(a, c)
  {
  }

  lemma RowsWereIssued(cfg: Config, run: seq<Sys>, i: nat)
    requires cfg.Valid() && IsRun(cfg, run) && i < |run|
    ensures run[i].db.rows.Keys <= run[i].db.issued
  {
    RunKeepsInv(cfg, run, i);
  }

  lemma {:induction false} RunEvolves(cfg: Config, run: seq<Sys>, i: nat, j: nat)
    requires cfg.Valid() && IsRun(cfg, run) && i <= j < |run|
    ensures Evolves(run[i].db, run[j].db)
    decreases j
  {
    RowsWereIssued(cfg, run, i);
    if i == j {
    } else {
      RunEvolves(cfg, run, i, j - 1);
      NextEvolves(cfg, run, j - 1);
      EvolvesTransitively(run[i].db, run[j - 1].db, run[j].db);
    }
  }

  // ----- what the customer can rely on -----

  /** A code yields at most one session, however many retries race. */
  lemma OneSessionPerCode(cfg: Config, run: seq<Sys>, i: nat, m: nat, n: nat)
    requires cfg.Valid() && IsRun(cfg, run) && i < |run|
    requires m < |run[i].db.sessions| && n < |run[i].db.sessions|
    requires run[i].db.sessions[m].otp == run[i].db.sessions[n].otp
    ensures m == n
  {
    RunKeepsInv(cfg, run, i);
  }

  /** A key yields at most one session among codes that are still stored ... */
  lemma OneSessionPerStoredKey(cfg: Config, run: seq<Sys>, i: nat, m: nat, n: nat)
    requires cfg.Valid() && IsRun(cfg, run) && i < |run|
    requires m < |run[i].db.sessions| && n < |run[i].db.sessions|
    requires run[i].db.sessions[m].key == run[i].db.sessions[n].key
    requires run[i].db.sessions[m].otp in run[i].db.rows && run[i].db.sessions[n].otp in run[i].db.rows
    ensures m == n
  {
    RunKeepsInv(cfg, run, i);
    var db := run[i].db;
    var a, b := db.sessions[m].otp, db.sessions[n].otp;
    assert db.rows[a].verification.Some? && HasKey(db.rows[b], db.rows[a].verification.value.key);
  }

  /** What the step that creates a session finds and leaves. */
  lemma CommitStep(cfg: Config, s: Sys, e: Event, s': Sys, n: nat)
    requires cfg.Valid() && Inv(cfg, s) && Step(cfg, s, e, s') && |s.db.sessions| <= n < |s'.db.sessions|
    ensures n == |s.db.sessions| && s.db.sessions <= s'.db.sessions && !KeyTaken(s.db, s'.db.sessions[n].key)
    ensures forall id | id in s.db.rows && s.db.rows[id].phone == s'.db.sessions[n].phone ::
              id in s'.db.rows && !IsOpen(s'.db.rows[id])
  {
    var k := s.workers[e.w];
    assert WorkerOk(cfg, s.db, k);
    IssueRows(s.db, k.id, k.call, k.at, e.choice.response);
  }

  lemma StoredSessionTakesKey(cfg: Config, db: Db, m: nat)
    requires DbOk(cfg, db) && m < |db.sessions| && db.sessions[m].otp in db.rows
    ensures KeyTaken(db, db.sessions[m].key)
  {
    assert HasKey(db.rows[db.sessions[m].otp], db.sessions[m].key);
  }

  /** A key yields a second session only after the code behind the first has been withdrawn. */
  lemma {:induction false} SecondSessionMeansWithdrawn(cfg: Config, run: seq<Sys>, j: nat, m: nat, n: nat)
    requires cfg.Valid() && IsRun(cfg, run) && j < |run| && m < n < |run[j].db.sessions|
    requires run[j].db.sessions[m].key == run[j].db.sessions[n].key
    ensures run[j].db.sessions[m].otp !in run[j].db.rows
    decreases j
  {
    if j == 0 {
    } else {
      var (s, s') := (run[j - 1], run[j]);
      RunKeepsInv(cfg, run, j - 1);
      NextEvolves(cfg, run, j - 1);
      assert forall x | 0 <= x < |s.db.sessions| :: s'.db.sessions[x] == s.db.sessions[x];
      if n < |s.db.sessions| {
        SecondSessionMeansWithdrawn(cfg, run, j - 1, m, n);
      } else {
        assert TakesStep(cfg, run, j - 1);
        var e :| Step(cfg, s, e, s');
        CommitStep(cfg, s, e, s', n);
        if s.db.sessions[m].otp in s.db.rows { StoredSessionTakesKey(cfg, s.db, m); }
      }
    }
  }

  /** ... and so at most one in all, once the code behind a session has been queued for delivery. */
  lemma OneSessionPerKey(cfg: Config, run: seq<Sys>, i: nat, j: nat, m: nat, n: nat)
    requires cfg.Valid() && IsRun(cfg, run) && i <= j < |run| && m <= n < |run[j].db.sessions|
    requires run[j].db.sessions[m].key == run[j].db.sessions[n].key
    requires run[j].db.sessions[m].otp in run[i].db.rows && run[i].db.rows[run[j].db.sessions[m].otp].delivered
    ensures m == n
  {
    RunEvolves(cfg, run, i, j);
    if m < n { SecondSessionMeansWithdrawn(cfg, run, j, m, n); }
  }

  /** A successful reply is the response of a session that was created under its key. */
  lemma ReplyIsStoredSession(cfg: Config, run: seq<Sys>, i: nat, w: WorkerId) returns (n: nat)
    requires cfg.Valid() && IsRun(cfg, run) && i < |run| && w in run[i].workers && run[i].workers[w].Replied?
    ensures n < |run[i].db.sessions|
    ensures run[i].db.sessions[n].key == run[i].workers[w].call.key
    ensures run[i].db.sessions[n].phone == run[i].workers[w].call.phone
    ensures run[i].db.sessions[n].response == run[i].workers[w].response
  {
    RunKeepsInv(cfg, run, i);
    var k := run[i].workers[w];
    assert WorkerOk(cfg, run[i].db, k);
    var id :| Issued(id, k.call, k.response) in run[i].db.sessions;
    n :| 0 <= n < |run[i].db.sessions| && run[i].db.sessions[n] == Issued(id, k.call, k.response);
  }

  /** While the codes verified under a key stay stored, all its successful replies are the same response. */
  lemma RepliesAgree(cfg: Config, run: seq<Sys>, i: nat, w: WorkerId, v: WorkerId)
    requires cfg.Valid() && IsRun(cfg, run) && i < |run|
    requires w in run[i].workers && run[i].workers[w].Replied? && v in run[i].workers && run[i].workers[v].Replied?
    requires run[i].workers[w].call.key == run[i].workers[v].call.key
    requires forall n | 0 <= n < |run[i].db.sessions| && run[i].db.sessions[n].key == run[i].workers[w].call.key ::
               run[i].db.sessions[n].otp in run[i].db.rows
    ensures run[i].workers[w].response == run[i].workers[v].response
  {
    var m := ReplyIsStoredSession(cfg, run, i, w);
    var n := ReplyIsStoredSession(cfg, run, i, v);
    OneSessionPerStoredKey(cfg, run, i, m, n);
  }

  /** A consumed code never creates a session again. */
  lemma {:induction false} ConsumedNeverVerifies(cfg: Config, run: seq<Sys>, i: nat, j: nat, id: RowId, n: nat)
    requires cfg.Valid() && IsRun(cfg, run) && i <= j < |run|
    requires id in run[i].db.rows && !IsOpen(run[i].db.rows[id])
    requires |run[i].db.sessions| <= n < |run[j].db.sessions|
    ensures run[j].db.sessions[n].otp != id
    decreases j
  {
    if i == j {
    } else {
      RowsWereIssued(cfg, run, i);
      RunEvolves(cfg, run, i, j - 1);
      NextEvolves(cfg, run, j - 1);
      if n < |run[j - 1].db.sessions| {
        ConsumedNeverVerifies(cfg, run, i, j - 1, id, n);
        assert run[j].db.sessions[n] == run[j - 1].db.sessions[n];
      }
    }
  }

  lemma LaterRowsKeepPhone(cfg: Config, run: seq<Sys>, c: nat, i: nat, id: RowId)
    requires cfg.Valid() && IsRun(cfg, run) && c <= i < |run| && id in run[c].db.issued && id in run[i].db.rows
    ensures id in run[c].db.rows && run[c].db.rows[id].phone == run[i].db.rows[id].phone
  {
    RunEvolves(cfg, run, c, i);
  }

  predicate WasRetiring(k: Worker, k': Worker) {
    k.RetireAll? && k'.RecordLock? && k.call == k'.call
  }

  lemma LockStep(cfg: Config, s: Sys, e: Event, s': Sys, w: WorkerId)
    requires Step(cfg, s, e, s') && w in s'.workers && (s'.workers[w].RecordLock? || s'.workers[w].LockedOut?)
    ensures w in s.workers
    ensures WasRetiring(s.workers[w], s'.workers[w])
            || (s.workers[w].RecordLock? && s.workers[w].call == s'.workers[w].call) || s.workers[w] == s'.workers[w]
  {
  }

  /** The step in which a lockout retired the codes of its user. */
  lemma {:induction false} RetireBehind(cfg: Config, run: seq<Sys>, i: nat, w: WorkerId) returns (c: nat)
    requires IsRun(cfg, run) && i < |run| && w in run[i].workers
    requires run[i].workers[w].RecordLock? || run[i].workers[w].LockedOut?
    ensures c < i && w in run[c].workers && w in run[c + 1].workers
    ensures WasRetiring(run[c].workers[w], run[c + 1].workers[w]) && run[c].workers[w].call == run[i].workers[w].call
    decreases i
  {
    assert i > 0;
    assert TakesStep(cfg, run, i - 1);
    var e :| Step(cfg, run[i - 1], e, run[i]);
    LockStep(cfg, run[i - 1], e, run[i], w);
    if run[i - 1].workers[w].RetireAll? {
      c := i - 1;
    } else {
      c := RetireBehind(cfg, run, i - 1, w);
    }
  }

  lemma RetireStep(cfg: Config, s: Sys, e: Event, s': Sys, w: WorkerId)
    requires Step(cfg, s, e, s') && w in s.workers && w in s'.workers && WasRetiring(s.workers[w], s'.workers[w])
    ensures forall id | id in s.db.rows && s.db.rows[id].phone == s.workers[w].call.phone ::
              id in s'.db.rows && !IsOpen(s'.db.rows[id])
  {
  }

  /** Once a lockout has retired the user's codes, none of the codes the user then held ever creates a session. */
  lemma RetirementIsFinal(cfg: Config, run: seq<Sys>, c: nat, j: nat, w: WorkerId, id: RowId, n: nat)
    requires cfg.Valid() && IsRun(cfg, run) && c < j < |run| && w in run[c].workers && w in run[c + 1].workers
    requires WasRetiring(run[c].workers[w], run[c + 1].workers[w])
    requires id in run[c].db.rows && run[c].db.rows[id].phone == run[c].workers[w].call.phone
    requires |run[c + 1].db.sessions| <= n < |run[j].db.sessions|
    ensures run[j].db.sessions[n].otp != id
  {
    assert TakesStep(cfg, run, c);
    var e :| Step(cfg, run[c], e, run[c + 1]);
    RetireStep(cfg, run[c], e, run[c + 1], w);
    ConsumedNeverVerifies(cfg, run, c + 1, j, id, n);
  }

  /**
   A code the user holds when, or after, a lockout is returned verifies later only if it was created after the
   lockout retired the user's codes.
   */
  lemma LockoutIsFinal(cfg: Config, run: seq<Sys>, i: nat, j: nat, w: WorkerId, id: RowId, n: nat) returns (c: nat)
    requires cfg.Valid() && IsRun(cfg, run) && i <= j < |run| && w in run[i].workers && run[i].workers[w].LockedOut?
    requires id in run[i].db.rows && run[i].db.rows[id].phone == run[i].workers[w].call.phone
    requires |run[i].db.sessions| <= n < |run[j].db.sessions| && run[j].db.sessions[n].otp == id
    ensures c < i && w in run[c].workers && w in run[c + 1].workers
    ensures WasRetiring(run[c].workers[w], run[c + 1].workers[w]) && id !in run[c].db.issued
  {
    c := RetireBehind(cfg, run, i, w);
    RunEvolves(cfg, run, c + 1, i);
    if id in run[c].db.issued {
      LaterRowsKeepPhone(cfg, run, c, i, id);
      RetirementIsFinal(cfg, run, c, j, w, id, n);
    }
  }

  /** The step in which a session of the log was created. */
  lemma {:induction false} CommitBehind(cfg: Config, run: seq<Sys>, i: nat, n: nat) returns (c: nat)
    requires cfg.Valid() && IsRun(cfg, run) && i < |run| && n < |run[i].db.sessions|
    ensures c < i && |run[c].db.sessions| <= n < |run[c + 1].db.sessions|
    ensures run[c + 1].db.sessions[n] == run[i].db.sessions[n]
    decreases i
  {
    assert i > 0;
    NextEvolves(cfg, run, i - 1);
    if n < |run[i - 1].db.sessions| {
      c := CommitBehind(cfg, run, i - 1, n);
      assert run[i].db.sessions[n] == run[i - 1].db.sessions[n];
    } else {
      c := i - 1;
    }
  }

  /** Once a session has been created, none of the codes the user then held ever creates another. */
  lemma CommitIsFinal(cfg: Config, run: seq<Sys>, c: nat, n: nat, j: nat, id: RowId, m: nat)
    requires cfg.Valid() && IsRun(cfg, run) && c < j < |run| && |run[c].db.sessions| <= n < |run[c + 1].db.sessions|
    requires id in run[c].db.rows && run[c].db.rows[id].phone == run[c + 1].db.sessions[n].phone
    requires |run[c + 1].db.sessions| <= m < |run[j].db.sessions|
    ensures run[j].db.sessions[m].otp != id
  {
    RunKeepsInv(cfg, run, c);
    assert TakesStep(cfg, run, c);
    var e :| Step(cfg, run[c], e, run[c + 1]);
    CommitStep(cfg, run[c], e, run[c + 1], n);
    ConsumedNeverVerifies(cfg, run, c + 1, j, id, m);
  }

  /**
   However a success is returned, by its own commit, a late lookup or a replay: a code the user holds at that
   time verifies later only if it was created after the session itself.
   */
  lemma SuccessIsFinal(cfg: Config, run: seq<Sys>, i: nat, j: nat, w: WorkerId, id: RowId, m: nat)
    returns (n: nat, c: nat)
    requires cfg.Valid() && IsRun(cfg, run) && i <= j < |run| && w in run[i].workers && run[i].workers[w].Replied?
    requires id in run[i].db.rows && run[i].db.rows[id].phone == run[i].workers[w].call.phone
    requires |run[i].db.sessions| <= m < |run[j].db.sessions| && run[j].db.sessions[m].otp == id
    ensures n < |run[i].db.sessions| && run[i].db.sessions[n].key == run[i].workers[w].call.key
    ensures run[i].db.sessions[n].response == run[i].workers[w].response
    ensures c < i && |run[c].db.sessions| <= n < |run[c + 1].db.sessions| && id !in run[c].db.issued
  {
    n := ReplyIsStoredSession(cfg, run, i, w);
    c := CommitBehind(cfg, run, i, n);
    RunEvolves(cfg, run, c + 1, i);
    RowsWereIssued(cfg, run, c);
    if id in run[c].db.issued {
      LaterRowsKeepPhone(cfg, run, c, i, id);
      CommitIsFinal(cfg, run, c, n, j, id, m);
    }
  }

  /**
   The counter reaches its maximum only together with consumption, so the lookup never returns a locked
   code: the branch that reports one as already locked is dead.
   */
  lemma NeverAlreadyLocked(cfg: Config, run: seq<Sys>, i: nat, w: WorkerId)
    requires cfg.Valid() && IsRun(cfg, run) && i < |run| && w in run[i].workers
    ensures !run[i].workers[w].AlreadyLocked?
    ensures forall id | id in run[i].db.rows && IsOpen(run[i].db.rows[id]) ::
              run[i].db.rows[id].attempts < cfg.maxAttempts
  {
    RunKeepsInv(cfg, run, i);
    assert WorkerOk(cfg, run[i].db, run[i].workers[w]);
  }

  // ----- what can still happen -----

  function Last(run: seq<Sys>): Sys
    requires |run| > 0
  {
    run[|run| - 1]
  }

  ghost predicate Continues(cfg: Config, run: seq<Sys>, more: seq<Sys>) {
    IsRun(cfg, run) && IsRun(cfg, more) && run <= more
  }

  lemma ContinuesOn(cfg: Config, a: seq<Sys>, b: seq<Sys>, c: seq<Sys>)
    requires Continues(cfg, a, b) && Continues(cfg, b, c)
    ensures Continues(cfg, a, c)
  {
  }

  lemma Extended(cfg: Config, run: seq<Sys>, e: Event, s: Sys) returns (more: seq<Sys>)
    requires IsRun(cfg, run) && Step(cfg, Last(run), e, s)
    ensures Continues(cfg, run, more) && |more| == |run| + 1 && Last(more) == s
  {
    more := run + [s];
    forall i {:trigger TakesStep(cfg, more, i)} | 0 <= i < |more| - 1 ensures TakesStep(cfg, more, i) {
      if i < |run| - 1 { assert TakesStep(cfg, run, i); }
    }
  }

  lemma {:induction false} Unused(used: set<nat>) returns (n: nat)
    ensures forall x | x in used :: x < n
  {
    if used == {} {
      n := 0;
    } else {
      var x :| x in used;
      var rest := Unused(used - {x});
      n := if rest <= x then x + 1 else rest;
      forall y | y in used ensures y < n { assert y == x || y in used - {x}; }
    }
  }

  function Quiet(found: Option<RowId>): Choice {
    Choice(found, false, false, 0, false)
  }

  /** A new call, up to its first lookup, for which nothing is stored. */
  lemma Begins(cfg: Config, run: seq<Sys>, call: Call) returns (more: seq<Sys>, w: WorkerId)
    requires IsRun(cfg, run) && !KeyTaken(Last(run).db, call.key)
    ensures Continues(cfg, run, more) && w !in Last(run).workers
    ensures Last(more) == Last(run).(workers := Last(run).workers[w := FindCode(call)])
  {
    var s := Last(run);
    w := Unused(s.workers.Keys);
    var s1 := s.(workers := s.workers[w := Replay(call, Initially)]);
    var s2 := s1.(workers := s1.workers[w := FindCode(call)]);
    var one := Extended(cfg, run, Verify(w, call), s1);
    more := Extended(cfg, one, Move(w, Quiet(None)), s2);
  }

  /** A new call that has found its code. */
  lemma Finds(cfg: Config, run: seq<Sys>, call: Call, id: RowId) returns (more: seq<Sys>, w: WorkerId)
    requires IsRun(cfg, run) && !KeyTaken(Last(run).db, call.key)
    requires id in Last(run).db.rows && IsNewestLive(Last(run).db, Last(run).clock, call.phone, id)
    ensures Continues(cfg, run, more) && w !in Last(run).workers
    ensures Last(more)
            == Last(run).(workers := Last(run).workers[w := CheckCode(call, id, Last(run).db.rows[id])])
  {
    var begun, v := Begins(cfg, run, call);
    w := v;
    var s, t := Last(run), Last(begun);
    more := Extended(cfg, begun, Move(w, Quiet(Some(id))),
                     t.(workers := t.workers[w := CheckCode(call, id, s.db.rows[id])]));
    assert Last(more).workers == s.workers[w := CheckCode(call, id, s.db.rows[id])];
  }

  /** One uninterrupted verification, from any state in which the code is the newest open one and the key is free. */
  lemma Verifies(cfg: Config, run: seq<Sys>, call: Call, id: RowId, response: Response)
    returns (more: seq<Sys>, w: WorkerId)
    requires cfg.Valid() && IsRun(cfg, run) && !KeyTaken(Last(run).db, call.key)
    requires id in Last(run).db.rows && IsNewestLive(Last(run).db, Last(run).clock, call.phone, id)
    requires Last(run).db.rows[id].codeHash == Bcrypt(call.code)
    ensures Continues(cfg, run, more) && w !in Last(run).workers
    ensures Last(more).workers == Last(run).workers[w := Replied(call, response)]
    ensures Last(more).db == Issue(Last(run).db, id, call, Last(run).clock, response)
    ensures Last(more).clock == Last(run).clock
  {
    var s := Last(run);
    RunKeepsInv(cfg, run, |run| - 1);
    var found, v := Finds(cfg, run, call, id);
    w := v;
    var s3 := Last(found);
    var s4 := s3.(workers := s3.workers[w := OpenSession(call, id, s.clock)]);
    var s5 := s4.(db := Issue(s.db, id, call, s.clock, response), workers := s4.workers[w := Replied(call, response)]);
    var checked := Extended(cfg, found, Move(w, Quiet(None)), s4);
    more := Extended(cfg, checked, Move(w, Quiet(None).(response := response)), s5);
    assert s5.workers == s.workers[w := Replied(call, response)];
  }

  /** A code sent now is the newest open one. */
  lemma GetsCode(cfg: Config, run: seq<Sys>, phone: Phone, code: Code) returns (more: seq<Sys>, id: RowId)
    requires cfg.Valid() && IsRun(cfg, run)
    ensures Continues(cfg, run, more) && |more| == |run| + 1 && id !in Last(run).db.issued
    ensures var (s, t) := (Last(run), Last(more));
            && t.clock == s.clock && t.workers == s.workers && t.db.sessions == s.db.sessions
            && id in t.db.rows && t.db.rows[id].codeHash == Bcrypt(code) && t.db.rows[id].verification.None?
            && t.db.rows[id].attempts == 0 && !t.db.rows[id].delivered
            && t.db.rows == s.db.rows[id := t.db.rows[id]] && IsNewestLive(t.db, t.clock, phone, id)
  {
    var s := Last(run);
    RunKeepsInv(cfg, run, |run| - 1);
    id := Unused(s.db.issued);
    var row := Otp(phone, Bcrypt(code), s.clock, s.clock + 1, 0, None, None, false);
    var t := s.(db := s.db.(rows := s.db.rows[id := row], issued := s.db.issued + {id}));
    more := Extended(cfg, run, NewCode(id, phone, code, s.clock + 1), t);
  }

  // ----- when a key is used up for good -----

  /** The key is stored with a code that a notification job points to. */
  ghost predicate HeldForGood(db: Db, key: Key) {
    exists id :: id in db.rows && HasKey(db.rows[id], key) && db.rows[id].delivered
  }

  ghost predicate Gains(a: Db, b: Db, key: Key) {
    exists n :: |a.sessions| <= n < |b.sessions| && b.sessions[n].key == key
  }

  lemma FreesKey(cfg: Config, run: seq<Sys>, key: Key) returns (more: seq<Sys>)
    requires cfg.Valid() && IsRun(cfg, run) && !HeldForGood(Last(run).db, key)
    ensures Continues(cfg, run, more) && !KeyTaken(Last(more).db, key)
    ensures Last(more).db.sessions == Last(run).db.sessions && Last(more).workers == Last(run).workers
  {
    var s := Last(run);
    RunKeepsInv(cfg, run, |run| - 1);
    if id :| id in s.db.rows && HasKey(s.db.rows[id], key) {
      more := Extended(cfg, run, Withdraw(id), s.(db := s.db.(rows := s.db.rows - {id})));
    } else {
      more := run;
    }
  }

  lemma YieldsAgain(cfg: Config, run: seq<Sys>, key: Key, response: Response) returns (more: seq<Sys>, v: WorkerId)
    requires cfg.Valid() && IsRun(cfg, run) && !HeldForGood(Last(run).db, key)
    ensures Continues(cfg, run, more) && Gains(Last(run).db, Last(more).db, key)
    ensures !HeldForGood(Last(more).db, key) && v !in Last(run).workers
    ensures Last(more).workers == Last(run).workers[v := Replied(Call(0, 0, key, 0), response)]
  {
    var free := FreesKey(cfg, run, key);
    var sent, id := GetsCode(cfg, free, 0, 0);
    more, v := Verifies(cfg, sent, Call(0, 0, key, 0), id, response);
    IssueRows(Last(sent).db, id, Call(0, 0, key, 0), Last(sent).clock, response);
    ContinuesOn(cfg, run, free, sent);
    ContinuesOn(cfg, run, sent, more);
    assert Last(more).db.sessions[|Last(run).db.sessions|].key == key;
  }

  lemma HeldStaysHeld(cfg: Config, run: seq<Sys>, i: nat, j: nat, key: Key)
    requires cfg.Valid() && IsRun(cfg, run) && i <= j < |run| && HeldForGood(run[i].db, key)
    ensures HeldForGood(run[j].db, key)
  {
    RunKeepsInv(cfg, run, i);
    RunKeepsInv(cfg, run, j);
    RunEvolves(cfg, run, i, j);
    var (a, b) := (run[i].db, run[j].db);
    var id :| id in a.rows && HasKey(a.rows[id], key) && a.rows[id].delivered;
    assert Stored(a, id, a.rows[id]);
    var m :| 0 <= m < |a.sessions| && a.sessions[m].otp == id && a.sessions[m].key == key;
    assert b.sessions[m] == a.sessions[m];
    assert HasKey(b.rows[id], key);
  }

  lemma HeldKeyCommitsNothing(cfg: Config, run: seq<Sys>, j: nat, key: Key)
    requires cfg.Valid() && IsRun(cfg, run) && j + 1 < |run| && HeldForGood(run[j].db, key)
    ensures run[j].db.sessions <= run[j + 1].db.sessions && !Gains(run[j].db, run[j + 1].db, key)
  {
    RunKeepsInv(cfg, run, j);
    NextEvolves(cfg, run, j);
    assert TakesStep(cfg, run, j);
    var e :| Step(cfg, run[j], e, run[j + 1]);
    var after := run[j + 1].db.sessions;
    forall n | |run[j].db.sessions| <= n < |after| ensures after[n].key != key {
      CommitStep(cfg, run[j], e, run[j + 1], n);
    }
  }

  lemma GainsNeither(a: Db, b: Db, c: Db, key: Key)
    requires b.sessions <= c.sessions && !Gains(a, b, key) && !Gains(b, c, key)
    ensures !Gains(a, c, key)
  {
    forall n | |a.sessions| <= n < |c.sessions| ensures c.sessions[n].key != key {
      if n < |b.sessions| { assert c.sessions[n] == b.sessions[n]; }
    }
  }

  lemma {:induction false} HeldKeyGainsNothing(cfg: Config, run: seq<Sys>, i: nat, j: nat, key: Key)
    requires cfg.Valid() && IsRun(cfg, run) && i <= j < |run| && HeldForGood(run[i].db, key)
    ensures !Gains(run[i].db, run[j].db, key)
    decreases j
  {
    if i == j {
    } else {
      HeldKeyGainsNothing(cfg, run, i, j - 1, key);
      HeldStaysHeld(cfg, run, i, j - 1, key);
      HeldKeyCommitsNothing(cfg, run, j - 1, key);
      GainsNeither(run[i].db, run[j - 1].db, run[j].db, key);
    }
  }

  /**
   From any reachable state, exactly when a key can yield one more session: unless it is stored with a code whose
   job was queued. So it yields a second one exactly when the code behind the first was never queued for delivery,
   and is withdrawn.
   */
  lemma KeyYieldsAgainExactly(cfg: Config, run: seq<Sys>, key: Key)
    requires cfg.Valid() && IsRun(cfg, run)
    ensures (exists more :: Continues(cfg, run, more) && Gains(Last(run).db, Last(more).db, key))
            <==> !HeldForGood(Last(run).db, key)
  {
    if HeldForGood(Last(run).db, key) {
      forall more | Continues(cfg, run, more) ensures !Gains(Last(run).db, Last(more).db, key) {
        assert more[|run| - 1] == Last(run);
        HeldKeyGainsNothing(cfg, more, |run| - 1, |more| - 1, key);
      }
    } else {
      var more, _ := YieldsAgain(cfg, run, key, 0);
    }
  }

  /** In terms of a session: its key can yield another exactly while its stored code was not queued for delivery. */
  lemma UndeliveredCodeFreesItsKey(cfg: Config, run: seq<Sys>, n: nat)
    requires cfg.Valid() && IsRun(cfg, run) && n < |Last(run).db.sessions|
    requires Last(run).db.sessions[n].otp in Last(run).db.rows
    ensures (exists more ::
               Continues(cfg, run, more) && Gains(Last(run).db, Last(more).db, Last(run).db.sessions[n].key))
            <==> !Last(run).db.rows[Last(run).db.sessions[n].otp].delivered
  {
    var db := Last(run).db;
    RunKeepsInv(cfg, run, |run| - 1);
    KeyYieldsAgainExactly(cfg, run, db.sessions[n].key);
    assert HasKey(db.rows[db.sessions[n].otp], db.sessions[n].key);
  }

  /** And a second reply under it can then differ from the first. */
  lemma RepliesCanDisagree(cfg: Config, run: seq<Sys>, w: WorkerId) returns (more: seq<Sys>, v: WorkerId)
    requires cfg.Valid() && IsRun(cfg, run) && w in Last(run).workers && Last(run).workers[w].Replied?
    requires !HeldForGood(Last(run).db, Last(run).workers[w].call.key)
    ensures Continues(cfg, run, more) && w in Last(more).workers && Last(more).workers[w] == Last(run).workers[w]
    ensures v in Last(more).workers && Last(more).workers[v].Replied?
    ensures Last(more).workers[v].call.key == Last(run).workers[w].call.key
    ensures Last(more).workers[v].response != Last(run).workers[w].response
  {
    var k := Last(run).workers[w];
    more, v := YieldsAgain(cfg, run, k.call.key, k.response + 1);
  }

  predicate RepliesDiffer(s: Sys, w: WorkerId, v: WorkerId, key: Key) {
    && w in s.workers && s.workers[w].Replied? && s.workers[w].call.key == key
    && v in s.workers && s.workers[v].Replied? && s.workers[v].call.key == key
    && s.workers[w].response != s.workers[v].response
  }

  ghost predicate CodesAreStored(db: Db, key: Key) {
    forall n | 0 <= n < |db.sessions| && db.sessions[n].key == key :: db.sessions[n].otp in db.rows
  }

  lemma HeldCodesStayStored(cfg: Config, run: seq<Sys>, i: nat, j: nat, key: Key)
    requires cfg.Valid() && IsRun(cfg, run) && i <= j < |run|
    requires HeldForGood(run[i].db, key) && CodesAreStored(run[i].db, key)
    ensures CodesAreStored(run[j].db, key)
  {
    var (a, b) := (run[i].db, run[j].db);
    RunKeepsInv(cfg, run, i);
    RunEvolves(cfg, run, i, j);
    HeldKeyGainsNothing(cfg, run, i, j, key);
    var held :| held in a.rows && HasKey(a.rows[held], key) && a.rows[held].delivered;
    forall n | 0 <= n < |b.sessions| && b.sessions[n].key == key ensures b.sessions[n].otp in b.rows {
      assert n < |a.sessions| && a.sessions[n] == b.sessions[n];
      assert a.rows[a.sessions[n].otp].verification.Some? && HasKey(a.rows[held], key);
      assert a.sessions[n].otp == held;
    }
  }

  /**
   While the codes behind the sessions of a key are stored, exactly when two replies under it can come to differ:
   unless the key is stored with a code whose job was queued.
   */
  lemma RepliesDisagreeExactly(cfg: Config, run: seq<Sys>, key: Key)
    requires cfg.Valid() && IsRun(cfg, run) && CodesAreStored(Last(run).db, key)
    ensures (exists more, w, v :: Continues(cfg, run, more) && RepliesDiffer(Last(more), w, v, key))
            <==> !HeldForGood(Last(run).db, key)
  {
    if HeldForGood(Last(run).db, key) {
      forall more, w, v | Continues(cfg, run, more) ensures !RepliesDiffer(Last(more), w, v, key) {
        assert more[|run| - 1] == Last(run);
        HeldCodesStayStored(cfg, more, |run| - 1, |more| - 1, key);
        if RepliesDiffer(Last(more), w, v, key) { RepliesAgree(cfg, more, |more| - 1, w, v); }
      }
    } else {
      var one, w := YieldsAgain(cfg, run, key, 0);
      var more, v := RepliesCanDisagree(cfg, one, w);
      ContinuesOn(cfg, run, one, more);
      assert RepliesDiffer(Last(more), w, v, key);
    }
  }

  // ----- a success returned by replay -----

  lemma Replays(cfg: Config, run: seq<Sys>, call: Call, id: RowId) returns (more: seq<Sys>, w: WorkerId)
    requires cfg.Valid() && IsRun(cfg, run) && id in Last(run).db.rows && HasKey(Last(run).db.rows[id], call.key)
    requires ReplayChecks(Last(run).clock, call, Last(run).db.rows[id]).Replied?
    ensures Continues(cfg, run, more) && Last(more).db == Last(run).db && Last(more).clock == Last(run).clock
    ensures w in Last(more).workers
    ensures Last(more).workers[w] == ReplayChecks(Last(run).clock, call, Last(run).db.rows[id])
  {
    var s := Last(run);
    w := Unused(s.workers.Keys);
    var s1 := s.(workers := s.workers[w := Replay(call, Initially)]);
    var s2 := s1.(workers := s1.workers[w := ReplayFound(call, s.db.rows[id])]);
    var s3 := s2.(workers := s2.workers[w := ReplayChecks(s.clock, call, s.db.rows[id])]);
    var one := Extended(cfg, run, Verify(w, call), s1);
    var two := Extended(cfg, one, Move(w, Quiet(Some(id))), s2);
    more := Extended(cfg, two, Move(w, Quiet(None)), s3);
  }

  lemma UnusedKey(db: Db) returns (key: Key)
    ensures !KeyTaken(db, key)
  {
    var stored := set id | id in db.rows && db.rows[id].verification.Some? :: db.rows[id].verification.value.key;
    key := Unused(stored);
    assert forall id | id in db.rows && db.rows[id].verification.Some? :: db.rows[id].verification.value.key in stored;
  }

  /**
   Wherever a success can be replayed, the user can get a newer code first, and verify it after the replayed
   success has been returned.
   */
  lemma NewerCodeOutlivesReplay(cfg: Config, run: seq<Sys>, call: Call, id: RowId)
    returns (more: seq<Sys>, i: nat, w: WorkerId, newer: RowId)
    requires cfg.Valid() && IsRun(cfg, run) && id in Last(run).db.rows && HasKey(Last(run).db.rows[id], call.key)
    requires ReplayChecks(Last(run).clock, call, Last(run).db.rows[id]).Replied?
    ensures Continues(cfg, run, more) && i < |more| && w in more[i].workers && more[i].workers[w].Replied?
    ensures more[i].workers[w].call == call
    ensures newer in more[i].db.rows && more[i].db.rows[newer].phone == call.phone
    ensures |Last(more).db.sessions| == |more[i].db.sessions| + 1
    ensures Last(more).db.sessions[|more[i].db.sessions|].otp == newer
  {
    var sent, latest := GetsCode(cfg, run, call.phone, 0);
    RunKeepsInv(cfg, run, |run| - 1);
    var replayed, replayer := Replays(cfg, sent, call, id);
    var key := UnusedKey(Last(replayed).db);
    var done, _ := Verifies(cfg, replayed, Call(call.phone, 0, key, 0), latest, 0);
    ContinuesOn(cfg, run, sent, replayed);
    ContinuesOn(cfg, run, replayed, done);
    more, i, w, newer := done, |replayed| - 1, replayer, latest;
  }

  /** And a success can be replayed: right after it was first returned, for one. */
  lemma ReplayHappens(cfg: Config) returns (run: seq<Sys>, i: nat, w: WorkerId, newer: RowId)
    requires cfg.Valid()
    ensures IsRun(cfg, run) && i < |run| && w in run[i].workers && run[i].workers[w].Replied?
    ensures newer in run[i].db.rows && run[i].db.rows[newer].phone == run[i].workers[w].call.phone
    ensures |Last(run).db.sessions| == |run[i].db.sessions| + 1
    ensures Last(run).db.sessions[|run[i].db.sessions|].otp == newer
  {
    var call := Call(0, 0, 0, 0);
    var start := [Sys(Db(map[], {}, []), 0, map[])];
    var sent, id := GetsCode(cfg, start, 0, 0);
    var done, _ := Verifies(cfg, sent, call, id, 0);
    run, i, w, newer := NewerCodeOutlivesReplay(cfg, done, call, id);
  }

  // ----- a lockout that is still being recorded -----

  /** While a lockout is still being recorded, the user can get a newer code, and verify it once locked out. */
  lemma NewerCodeOutlivesLockout(cfg: Config, run: seq<Sys>, w: WorkerId)
    returns (more: seq<Sys>, i: nat, newer: RowId)
    requires cfg.Valid() && IsRun(cfg, run) && w in Last(run).workers && Last(run).workers[w].RecordLock?
    ensures Continues(cfg, run, more) && i < |more| && w in more[i].workers
    ensures more[i].workers[w] == LockedOut(Last(run).workers[w].call)
    ensures newer in more[i].db.rows && more[i].db.rows[newer].phone == Last(run).workers[w].call.phone
    ensures |Last(more).db.sessions| == |more[i].db.sessions| + 1
    ensures Last(more).db.sessions[|more[i].db.sessions|].otp == newer
  {
    var call := Last(run).workers[w].call;
    var sent, latest := GetsCode(cfg, run, call.phone, 0);
    var s := Last(sent);
    var locked := Extended(cfg, sent, Move(w, Quiet(None)), s.(workers := s.workers[w := LockedOut(call)]));
    var key := UnusedKey(Last(locked).db);
    var done, _ := Verifies(cfg, locked, Call(call.phone, 0, key, 0), latest, 0);
    ContinuesOn(cfg, run, sent, locked);
    ContinuesOn(cfg, run, locked, done);
    more, i, newer := done, |locked| - 1, latest;
  }

  /** A wrong code that has been compared and is about to be counted. */
  lemma Errs(cfg: Config, run: seq<Sys>, call: Call, id: RowId) returns (more: seq<Sys>, w: WorkerId)
    requires cfg.Valid() && IsRun(cfg, run) && !KeyTaken(Last(run).db, call.key)
    requires id in Last(run).db.rows && IsNewestLive(Last(run).db, Last(run).clock, call.phone, id)
    requires Last(run).db.rows[id].codeHash != Bcrypt(call.code)
    ensures Continues(cfg, run, more) && w in Last(more).workers
    ensures Last(more).workers[w] == RecordMiss(call, id, Last(run).db.rows[id].attempts + 1)
    ensures Last(more).db == Last(run).db && Last(more).clock == Last(run).clock
  {
    RunKeepsInv(cfg, run, |run| - 1);
    var found, v := Finds(cfg, run, call, id);
    w := v;
    var s := Last(found);
    more := Extended(cfg, found, Move(w, Quiet(None)),
                     s.(workers := s.workers[w := RecordMiss(call, id, s.db.rows[id].attempts + 1)]));
  }

  /** The row of a code after `n` misses. */
  function AfterMisses(db: Db, id: RowId, n: nat): Db
    requires id in db.rows
  {
    db.(rows := db.rows[id := db.rows[id].(attempts := n)])
  }

  lemma {:induction false} ErrsRepeatedly(cfg: Config, run: seq<Sys>, call: Call, id: RowId, n: nat)
    returns (more: seq<Sys>)
    requires cfg.Valid() && IsRun(cfg, run) && !KeyTaken(Last(run).db, call.key) && n < cfg.maxAttempts
    requires id in Last(run).db.rows && IsNewestLive(Last(run).db, Last(run).clock, call.phone, id)
    requires Last(run).db.rows[id].codeHash != Bcrypt(call.code) && Last(run).db.rows[id].attempts == 0
    ensures Continues(cfg, run, more) && Last(more).clock == Last(run).clock
    ensures Last(more).db == AfterMisses(Last(run).db, id, n)
    decreases n
  {
    if n == 0 {
      more := run;
    } else {
      var before := ErrsRepeatedly(cfg, run, call, id, n - 1);
      var erred, w := Errs(cfg, before, call, id);
      var s := Last(erred);
      more := Extended(cfg, erred, Move(w, Quiet(None)),
                       s.(db := AfterMisses(Last(run).db, id, n), workers := s.workers[w := Rejected]));
    }
  }

  /** And there are lockouts to record, whatever the maximum: after that many wrong codes. */
  lemma LockoutHappens(cfg: Config) returns (run: seq<Sys>, w: WorkerId)
    requires cfg.Valid()
    ensures IsRun(cfg, run) && w in Last(run).workers && Last(run).workers[w].RecordLock?
  {
    var call := Call(0, 1, 0, 0);
    var start := [Sys(Db(map[], {}, []), 0, map[])];
    var sent, id := GetsCode(cfg, start, 0, 0);
    var wrong := ErrsRepeatedly(cfg, sent, call, id, cfg.maxAttempts - 1);
    var erred, v := Errs(cfg, wrong, call, id);
    w := v;
    var s := Last(erred);
    var row := s.db.rows[id].(attempts := cfg.maxAttempts, consumedAt := Some(s.clock));
    var t := s.(db := s.db.(rows := s.db.rows[id := row]), workers := s.workers[w := RetireAll(call, s.clock)]);
    var retiring := Extended(cfg, erred, Move(w, Quiet(None)), t);
    run := Extended(cfg, retiring, Move(w, Quiet(None)),
                    t.(db := Retire(t.db, 0, s.clock), workers := t.workers[w := RecordLock(call)]));
  }
}
