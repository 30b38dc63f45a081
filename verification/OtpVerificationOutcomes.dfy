/** What verifying a one-time password comes to, in any run. */
module OtpVerificationOutcomes {
  import opened Wrappers
  import opened OtpVerification
  import opened OtpVerificationProofs

  predicate Moves(run: seq<Sys>, i: nat, w: WorkerId)
    requires i + 1 < |run|
  {
    w in run[i].workers && w in run[i + 1].workers && run[i + 1].workers[w] != run[i].workers[w]
  }

  predicate Returns(run: seq<Sys>, j: nat, w: WorkerId)
    requires j < |run|
  {
    w in run[j].workers && HasReturned(run[j].workers[w])
  }

  // ----- whose code, and on whose device -----

  /** A success is returned only for the phone, the code and the device its session was created with. */
  lemma ReplyFitsItsSession(cfg: Config, run: seq<Sys>, i: nat, w: WorkerId) returns (n: nat)
    requires cfg.Valid() && IsRun(cfg, run) && i < |run| && w in run[i].workers && run[i].workers[w].Replied?
    ensures n < |run[i].db.sessions| && run[i].db.sessions[n].call == run[i].workers[w].call
    ensures run[i].db.sessions[n].response == run[i].workers[w].response
  {
    RunKeepsInv(cfg, run, i);
    var k := run[i].workers[w];
    assert WorkerOk(cfg, run[i].db, k);
    var id :| Issued(id, k.call, k.response) in run[i].db.sessions;
    n :| 0 <= n < |run[i].db.sessions| && run[i].db.sessions[n] == Issued(id, k.call, k.response);
  }

  /** What the step that creates a session finds: the code that was sent, open and unexpired when it was compared. */
  lemma SessionNeedsItsCode(cfg: Config, run: seq<Sys>, c: nat, n: nat) returns (w: WorkerId)
    requires cfg.Valid() && IsRun(cfg, run) && c + 1 < |run| && |run[c].db.sessions| <= n < |run[c + 1].db.sessions|
    ensures w in run[c].workers && run[c].workers[w].OpenSession?
    ensures var (s, k, session) := (run[c], run[c].workers[w], run[c + 1].db.sessions[n]);
            && session.call == k.call && session.otp == k.id && k.id in s.db.rows
            && s.db.rows[k.id].phone == k.call.phone && s.db.rows[k.id].codeHash == Bcrypt(k.call.code)
            && s.db.rows[k.id].consumedAt.None? && s.db.rows[k.id].expiresAt > k.at
  {
    RunKeepsInv(cfg, run, c);
    assert TakesStep(cfg, run, c);
    var e :| Step(cfg, run[c], e, run[c + 1]);
    CommitStep(cfg, run[c], e, run[c + 1], n);
    w := e.w;
    assert WorkerOk(cfg, run[c].db, run[c].workers[w]);
  }

  /** No call compared this code before it had run out. */
  predicate ExpiredUncompared(s: Sys, id: RowId) {
    && id in s.db.issued && (id in s.db.rows ==> s.db.rows[id].expiresAt <= s.clock)
    && forall w | w in s.workers && s.workers[w].OpenSession? && s.workers[w].id == id && id in s.db.rows ::
         s.workers[w].at >= s.db.rows[id].expiresAt
  }

  lemma StepStaysExpired(cfg: Config, s: Sys, e: Event, s': Sys, id: RowId)
    requires cfg.Valid() && Inv(cfg, s) && Step(cfg, s, e, s') && ExpiredUncompared(s, id)
    ensures ExpiredUncompared(s', id)
  {
    StepKeepsDb(cfg, s, e, s');
  }

  lemma {:induction false} StaysExpired(cfg: Config, run: seq<Sys>, i: nat, j: nat, id: RowId)
    requires cfg.Valid() && IsRun(cfg, run) && i <= j < |run| && ExpiredUncompared(run[i], id)
    ensures ExpiredUncompared(run[j], id)
    decreases j
  {
    if i == j {
    } else {
      StaysExpired(cfg, run, i, j - 1, id);
      RunKeepsInv(cfg, run, j - 1);
      assert TakesStep(cfg, run, j - 1);
      var e :| Step(cfg, run[j - 1], e, run[j]);
      StepStaysExpired(cfg, run[j - 1], e, run[j], id);
    }
  }

  lemma ExpiredCommitsNothing(cfg: Config, run: seq<Sys>, c: nat, n: nat, id: RowId)
    requires cfg.Valid() && IsRun(cfg, run) && c + 1 < |run| && ExpiredUncompared(run[c], id)
    requires |run[c].db.sessions| <= n < |run[c + 1].db.sessions|
    ensures run[c + 1].db.sessions[n].otp != id
  {
    var w := SessionNeedsItsCode(cfg, run, c, n);
  }

  /** A code that ran out before any call compared it never creates a session. */
  lemma ExpiredNeverVerifies(cfg: Config, run: seq<Sys>, i: nat, j: nat, id: RowId, n: nat)
    requires cfg.Valid() && IsRun(cfg, run) && i <= j < |run| && ExpiredUncompared(run[i], id)
    requires |run[i].db.sessions| <= n < |run[j].db.sessions|
    ensures run[j].db.sessions[n].otp != id
  {
    var c := CommitBehind(cfg, run, j, n);
    if c < i {
      RunEvolves(cfg, run, c + 1, i);
    } else {
      StaysExpired(cfg, run, i, c, id);
      ExpiredCommitsNothing(cfg, run, c, n, id);
    }
  }

  // ----- which code is tried -----

  /** A code of the user that is open and has not run out. */
  predicate IsLiveCode(s: Sys, phone: Phone, id: RowId) {
    id in s.db.rows && s.db.rows[id].phone == phone && s.db.rows[id].consumedAt.None?
    && s.db.rows[id].expiresAt > s.clock
  }

  /** A call that looks for a code tries the newest live one, and looks its key up again only if there is none. */
  lemma TriesNewestCode(cfg: Config, run: seq<Sys>, i: nat, w: WorkerId)
    requires cfg.Valid() && IsRun(cfg, run) && i + 1 < |run| && Moves(run, i, w) && run[i].workers[w].FindCode?
    ensures var (s, k, k') := (run[i], run[i].workers[w], run[i + 1].workers[w]);
            && run[i + 1].db == s.db && (k'.RateLimited? || k'.Crashed? || k'.CheckCode? || k'.Replay?)
            && (k'.CheckCode? ==>
                  && k'.call == k.call && IsLiveCode(s, k.call.phone, k'.id) && k'.snap == s.db.rows[k'.id]
                  && forall x | IsLiveCode(s, k.call.phone, x) :: s.db.rows[x].createdAt <= k'.snap.createdAt)
            && (k'.Replay? ==> k' == Replay(k.call, NoLiveCode) && forall x :: !IsLiveCode(s, k.call.phone, x))
  {
    assert TakesStep(cfg, run, i);
    var e :| Step(cfg, run[i], e, run[i + 1]);
  }

  // ----- a retry whose session is stored -----

  /** The key is stored with this row, for the phone, code and device of the call, and within the window. */
  predicate IsReplayable(s: Sys, call: Call, id: RowId) {
    && id in s.db.rows && s.db.rows[id].verification.Some? && s.db.rows[id].verification.value.key == call.key
    && s.db.rows[id].phone == call.phone && s.db.rows[id].codeHash == Bcrypt(call.code)
    && s.db.rows[id].verification.value.request == call.request
    && s.clock - s.db.rows[id].verification.value.verifiedAt <= REPLAY_WINDOW_MS
  }

  function StoredResponse(s: Sys, id: RowId): Response
    requires id in s.db.rows && s.db.rows[id].verification.Some?
  {
    s.db.rows[id].verification.value.envelope.response
  }

  predicate Awaits(s: Sys, k: Worker, call: Call, id: RowId)
    requires IsReplayable(s, call, id)
  {
    match k
    case Replay(c, _) => c == call
    case ReplayFound(c, snap) =>
      c == call && snap.verification == s.db.rows[id].verification && snap.phone == call.phone
      && snap.codeHash == Bcrypt(call.code)
    case OpenSession(c, _, _) => c == call
    case Replied(c, response) => c == call && response == StoredResponse(s, id)
    case Crashed => true
    case _ => false
  }

  /** While the session can be replayed, the call is on its way to its response. */
  predicate GetsSession(s: Sys, w: WorkerId, call: Call, id: RowId) {
    id in s.db.issued && w in s.workers && (IsReplayable(s, call, id) ==> Awaits(s, s.workers[w], call, id))
  }

  lemma ReplayableBefore(cfg: Config, s: Sys, e: Event, s': Sys, call: Call, id: RowId)
    requires cfg.Valid() && Inv(cfg, s) && Step(cfg, s, e, s') && IsReplayable(s', call, id) && id in s.db.issued
    requires id in s.db.rows ==> s.db.rows[id].verification == s'.db.rows[id].verification
    ensures IsReplayable(s, call, id)
  {
    StepKeepsDb(cfg, s, e, s');
  }

  /** A verified row keeps its verification for as long as it is stored. */
  lemma VerificationStays(cfg: Config, s: Sys, e: Event, s': Sys, id: RowId)
    requires cfg.Valid() && Inv(cfg, s) && Step(cfg, s, e, s') && id in s'.db.rows
    requires id in s.db.rows && s.db.rows[id].verification.Some?
    ensures s'.db.rows[id].verification == s.db.rows[id].verification
  {
    assert !IsOpen(s.db.rows[id]);
    if e.Move? && s.workers[e.w].OpenSession? {
      var k := s.workers[e.w];
      assert WorkerOk(cfg, s.db, k);
      if k.id in s.db.rows { IssueRows(s.db, k.id, k.call, k.at, e.choice.response); }
    }
  }

  lemma MoveStillGets(cfg: Config, s: Sys, w: WorkerId, c: Choice, call: Call, id: RowId)
    requires cfg.Valid() && Inv(cfg, s) && w in s.workers && IsReplayable(s, call, id)
    requires Awaits(s, s.workers[w], call, id) && Possible(s.db, s.clock, s.workers[w], c)
    ensures Awaits(s, Advance(cfg, s.db, s.clock, s.workers[w], c).1, call, id)
  {
    assert HasKey(s.db.rows[id], call.key);
    assert Stored(s.db, id, s.db.rows[id]);
  }

  /** The key was held by a verified row from the start. */
  predicate WasVerified(s: Sys, id: RowId) {
    id in s.db.rows && s.db.rows[id].verification.Some?
  }

  lemma StepStillGets(cfg: Config, s: Sys, e: Event, s': Sys, w: WorkerId, call: Call, id: RowId)
    requires cfg.Valid() && Inv(cfg, s) && Step(cfg, s, e, s') && GetsSession(s, w, call, id)
    requires id in s'.db.rows ==> WasVerified(s, id)
    ensures GetsSession(s', w, call, id)
  {
    StepKeepsDb(cfg, s, e, s');
    if IsReplayable(s', call, id) {
      VerificationStays(cfg, s, e, s', id);
      ReplayableBefore(cfg, s, e, s', call, id);
      if e.Move? && e.w == w { MoveStillGets(cfg, s, w, e.choice, call, id); }
    }
  }

  lemma {:induction false} StillGets(cfg: Config, run: seq<Sys>, i: nat, j: nat, w: WorkerId, call: Call, id: RowId)
    requires cfg.Valid() && IsRun(cfg, run) && i <= j < |run| && GetsSession(run[i], w, call, id)
    requires WasVerified(run[i], id)
    ensures GetsSession(run[j], w, call, id)
    ensures id in run[j].db.rows ==>
              WasVerified(run[j], id) && run[j].db.rows[id].verification == run[i].db.rows[id].verification
    decreases j
  {
    if i == j {
    } else {
      StillGets(cfg, run, i, j - 1, w, call, id);
      RunKeepsInv(cfg, run, j - 1);
      NextEvolves(cfg, run, j - 1);
      assert TakesStep(cfg, run, j - 1);
      var e :| Step(cfg, run[j - 1], e, run[j]);
      if id in run[j].db.rows { VerificationStays(cfg, run[j - 1], e, run[j], id); }
      StepStillGets(cfg, run[j - 1], e, run[j], w, call, id);
    }
  }

  /** If the session can still be replayed by then, the call has answered with its response or was cut short. */
  predicate RepliesOrCrashes(run: seq<Sys>, i: nat, j: nat, w: WorkerId, call: Call, id: RowId)
    requires i < |run| && j < |run| && Returns(run, j, w) && WasVerified(run[i], id)
  {
    IsReplayable(run[j], call, id) ==>
      run[j].workers[w] == Replied(call, StoredResponse(run[i], id)) || run[j].workers[w].Crashed?
  }

  lemma GotSession(cfg: Config, run: seq<Sys>, i: nat, j: nat, w: WorkerId, call: Call, id: RowId)
    requires cfg.Valid() && IsRun(cfg, run) && i <= j < |run| && Returns(run, j, w)
    requires GetsSession(run[i], w, call, id) && WasVerified(run[i], id)
    ensures RepliesOrCrashes(run, i, j, w, call, id)
  {
    StillGets(cfg, run, i, j, w, call, id);
  }

  /**
   A call that looks its key up, or is about to create a session, while the key is stored with the same phone,
   code and device answers with the stored response, unless it crashes, the code is withdrawn or the window passes.
   */
  lemma RetryGetsSession(cfg: Config, run: seq<Sys>, i: nat, j: nat, w: WorkerId, id: RowId)
    requires cfg.Valid() && IsRun(cfg, run) && i <= j < |run| && Returns(run, j, w) && w in run[i].workers
    requires run[i].workers[w].Replay? || run[i].workers[w].OpenSession?
    requires IsReplayable(run[i], run[i].workers[w].call, id)
    ensures RepliesOrCrashes(run, i, j, w, run[i].workers[w].call, id)
  {
    RunKeepsInv(cfg, run, i);
    GotSession(cfg, run, i, j, w, run[i].workers[w].call, id);
  }

  lemma LooksUpAgain(cfg: Config, run: seq<Sys>, i: nat, w: WorkerId, id: RowId)
    requires cfg.Valid() && IsRun(cfg, run) && i + 1 < |run| && Moves(run, i, w) && run[i].workers[w].FindCode?
    requires IsReplayable(run[i], run[i].workers[w].call, id)
    requires forall x :: !IsLiveCode(run[i], run[i].workers[w].call.phone, x)
    ensures run[i + 1].db == run[i].db && run[i + 1].clock == run[i].clock
    ensures run[i + 1].workers[w].RateLimited? || Awaits(run[i + 1], run[i + 1].workers[w], run[i].workers[w].call, id)
  {
    TriesNewestCode(cfg, run, i, w);
    assert TakesStep(cfg, run, i);
    var e :| Step(cfg, run[i], e, run[i + 1]);
  }

  lemma {:induction false} StaysLimited(cfg: Config, run: seq<Sys>, i: nat, j: nat, w: WorkerId)
    requires cfg.Valid() && IsRun(cfg, run) && i <= j < |run| && w in run[i].workers && run[i].workers[w].RateLimited?
    ensures w in run[j].workers && run[j].workers[w].RateLimited?
    decreases j
  {
    if i == j {
    } else {
      StaysLimited(cfg, run, i, j - 1, w);
      assert TakesStep(cfg, run, j - 1);
      var e :| Step(cfg, run[j - 1], e, run[j]);
    }
  }

  /**
   A retry whose first lookup came before the winner's commit, and which finds no live code after it, answers with
   the winner's response too, unless it is limited or crashes, the code is withdrawn or the window passes.
   */
  lemma LateRetryGetsSession(cfg: Config, run: seq<Sys>, i: nat, j: nat, w: WorkerId, id: RowId)
    requires cfg.Valid() && IsRun(cfg, run) && i < j < |run| && Moves(run, i, w) && Returns(run, j, w)
    requires run[i].workers[w].FindCode? && IsReplayable(run[i], run[i].workers[w].call, id)
    requires forall x :: !IsLiveCode(run[i], run[i].workers[w].call.phone, x)
    ensures run[j].workers[w].RateLimited? || RepliesOrCrashes(run, i, j, w, run[i].workers[w].call, id)
  {
    RunKeepsInv(cfg, run, i);
    LooksUpAgain(cfg, run, i, w, id);
    if run[i + 1].workers[w].RateLimited? {
      StaysLimited(cfg, run, i + 1, j, w);
    } else {
      GotSession(cfg, run, i + 1, j, w, run[i].workers[w].call, id);
    }
  }

  lemma CommitsOwn(cfg: Config, run: seq<Sys>, i: nat, w: WorkerId)
    requires cfg.Valid() && IsRun(cfg, run) && i + 1 < |run| && Moves(run, i, w) && run[i].workers[w].OpenSession?
    requires |run[i].db.sessions| < |run[i + 1].db.sessions|
    ensures var (k, session) := (run[i].workers[w], run[i + 1].db.sessions[|run[i].db.sessions|]);
            && session.call == k.call && WasVerified(run[i + 1], k.id)
            && StoredResponse(run[i + 1], k.id) == session.response && GetsSession(run[i + 1], w, k.call, k.id)
  {
    RunKeepsInv(cfg, run, i);
    assert TakesStep(cfg, run, i);
    var e :| Step(cfg, run[i], e, run[i + 1]);
    var k := run[i].workers[w];
    assert WorkerOk(cfg, run[i].db, k);
    IssueRows(run[i].db, k.id, k.call, k.at, e.choice.response);
  }

  /** A call whose session was created answers with it, with those exceptions, even if it never learnt of the commit. */
  lemma OwnSessionIsReturned(cfg: Config, run: seq<Sys>, i: nat, j: nat, w: WorkerId)
    requires cfg.Valid() && IsRun(cfg, run) && i < j < |run| && Moves(run, i, w) && Returns(run, j, w)
    requires run[i].workers[w].OpenSession? && |run[i].db.sessions| < |run[i + 1].db.sessions|
    ensures var (k, session) := (run[i].workers[w], run[i + 1].db.sessions[|run[i].db.sessions|]);
            && session.call == k.call
            && (IsReplayable(run[j], k.call, k.id) ==>
                  run[j].workers[w] == Replied(k.call, session.response) || run[j].workers[w].Crashed?)
  {
    CommitsOwn(cfg, run, i, w);
    GotSession(cfg, run, i + 1, j, w, run[i].workers[w].call, run[i].workers[w].id);
  }

  // ----- a retry that comes too late -----

  /** The session stored under the key is older than the window. */
  predicate HasPassed(s: Sys, key: Key, id: RowId) {
    && id in s.db.rows && HasKey(s.db.rows[id], key)
    && s.clock - s.db.rows[id].verification.value.verifiedAt > REPLAY_WINDOW_MS
  }

  /** This call has not succeeded, and has read nothing but that session. */
  predicate ComesLate(k: Worker, key: Key, row: Otp) {
    match k
    case ReplayFound(call, snap) => call.key == key ==> snap.verification == row.verification
    case Replied(call, _) => call.key != key
    case _ => true
  }

  /** For as long as the row is stored, its session has passed and the call comes late. */
  predicate StaysLate(s: Sys, w: WorkerId, key: Key, id: RowId) {
    && id in s.db.issued
    && (id in s.db.rows ==>
          HasPassed(s, key, id) && (w in s.workers ==> ComesLate(s.workers[w], key, s.db.rows[id])))
  }

  lemma LateMove(cfg: Config, s: Sys, c: Choice, k: Worker, key: Key, id: RowId)
    requires cfg.Valid() && Inv(cfg, s) && HasPassed(s, key, id) && ComesLate(k, key, s.db.rows[id])
    requires WorkerOk(cfg, s.db, k) && Possible(s.db, s.clock, k, c)
    ensures ComesLate(Advance(cfg, s.db, s.clock, k, c).1, key, s.db.rows[id])
  {
    assert KeyTaken(s.db, key);
  }

  lemma SameVerification(k: Worker, key: Key, a: Otp, b: Otp)
    requires ComesLate(k, key, a) && a.verification == b.verification
    ensures ComesLate(k, key, b)
  {
  }

  lemma StepStaysLate(cfg: Config, s: Sys, e: Event, s': Sys, w: WorkerId, key: Key, id: RowId)
    requires cfg.Valid() && Inv(cfg, s) && Step(cfg, s, e, s') && StaysLate(s, w, key, id)
    ensures StaysLate(s', w, key, id)
  {
    StepKeepsDb(cfg, s, e, s');
    if id in s'.db.rows {
      VerificationStays(cfg, s, e, s', id);
      if e.Move? && e.w == w { LateMove(cfg, s, e.choice, s.workers[w], key, id); }
      if w in s'.workers {
        assert ComesLate(s'.workers[w], key, s.db.rows[id]);
        SameVerification(s'.workers[w], key, s.db.rows[id], s'.db.rows[id]);
      }
    }
  }

  /** A call that begins after the window never succeeds while the session's code is stored. */
  lemma {:induction false} TooLateYieldsNothing(cfg: Config, run: seq<Sys>, i: nat, j: nat, w: WorkerId, key: Key,
                                                id: RowId)
    requires cfg.Valid() && IsRun(cfg, run) && i <= j < |run| && HasPassed(run[i], key, id) && w !in run[i].workers
    ensures StaysLate(run[j], w, key, id)
    ensures id in run[j].db.rows && w in run[j].workers && run[j].workers[w].Replied? ==>
              run[j].workers[w].call.key != key
    decreases j
  {
    RunKeepsInv(cfg, run, j);
    if i == j {
    } else {
      TooLateYieldsNothing(cfg, run, i, j - 1, w, key, id);
      RunKeepsInv(cfg, run, j - 1);
      assert TakesStep(cfg, run, j - 1);
      var e :| Step(cfg, run[j - 1], e, run[j]);
      StepStaysLate(cfg, run[j - 1], e, run[j], w, key, id);
    }
  }

  // ----- whose codes a call consumes -----

  /** Only a commit or a lockout of the same user consumes a code, or the last miss against the code itself. */
  lemma OnlyOwnCodesAreConsumed(cfg: Config, run: seq<Sys>, i: nat, id: RowId)
    requires cfg.Valid() && IsRun(cfg, run) && i + 1 < |run|
    requires id in run[i].db.rows && run[i].db.rows[id].consumedAt.None?
    requires id in run[i + 1].db.rows && run[i + 1].db.rows[id].consumedAt.Some?
    ensures exists w :: w in run[i].workers
              && (run[i].workers[w].OpenSession? || run[i].workers[w].RetireAll?
                  || (run[i].workers[w].RecordMiss? && run[i].workers[w].attempts >= cfg.maxAttempts))
              && run[i].workers[w].call.phone == run[i].db.rows[id].phone
  {
    RunKeepsInv(cfg, run, i);
    assert TakesStep(cfg, run, i);
    var e :| Step(cfg, run[i], e, run[i + 1]);
    assert e.Move?;
    var k := run[i].workers[e.w];
    assert WorkerOk(cfg, run[i].db, k);
    assert k.OpenSession? || k.RetireAll? || k.RecordMiss?;
    assert k.call.phone == run[i].db.rows[id].phone;
  }
}
