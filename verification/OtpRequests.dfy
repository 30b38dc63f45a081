/**
 Requesting a one-time password under an idempotency key, while other calls with the same
 key run concurrently, crash, or take over a request that has not finished in time.

 Every statement is one atomic step. The database keeps at most one OTP row per request
 key, at most one notification job per deduplication key and per OTP row, and refuses to
 delete an OTP row that a job points to.
 */
module OtpRequests {
  import opened Wrappers

  const PROCESSING_TIMEOUT_MS := 30_000

  type RowId = nat
  type Phone = nat
  type Key = nat
  type Code = nat
  type WorkerId = nat

  /** bcrypt, as far as the protocol depends on it: injective in the code. */
  datatype Hash = Bcrypt(code: Code)

  datatype OtpRow = OtpRow(phone: Phone, key: Key, codeHash: Hash, developmentOtp: Option<Code>, createdAt: int,
                           completedAt: Option<int>)

  /** What the SMS worker will send; gone once the job is finished and redacted. */
  datatype Payload = Payload(phone: Phone, code: Code)

  datatype Job = Job(otpCodeId: RowId, payload: Option<Payload>)

  /**
   `jobs` is indexed by the request key, which determines the deduplication key and is
   determined by it. `issued` is history: every row id the database ever handed out.
   */
  datatype Db = Db(rows: map<RowId, OtpRow>, jobs: map<Key, Job>, issued: set<RowId>)

  // ----- statements -----

  ghost predicate KeyTaken(db: Db, key: Key) {
    exists id :: id in db.rows && db.rows[id].key == key
  }

  ghost predicate Referenced(db: Db, id: RowId) {
    exists key :: key in db.jobs && db.jobs[key].otpCodeId == id
  }

  predicate IsEnqueued(db: Db, key: Key, id: RowId) {
    key in db.jobs && db.jobs[key].otpCodeId == id
  }

  function Complete(db: Db, id: RowId, now: int): Db
    requires id in db.rows
  {
    db.(rows := db.rows[id := db.rows[id].(completedAt := Some(now))])
  }

  function Delete(db: Db, id: RowId): Db {
    db.(rows := db.rows - {id})
  }

  // ----- a call in flight -----

  /** Which of its two uses a replay serves: before any work, or after losing the insert. */
  datatype Purpose = Initially | AfterConflict

  datatype Worker =
    | Replay(phone: Phone, key: Key, why: Purpose)
    | ReplayFound(phone: Phone, key: Key, why: Purpose, id: RowId, snap: OtpRow)
    | CheckEnqueued(phone: Phone, key: Key, why: Purpose, id: RowId, snap: OtpRow)
    | Takeover(phone: Phone, key: Key, why: Purpose, id: RowId, snap: OtpRow, deadline: int)
    | RecheckEnqueued(phone: Phone, key: Key, id: RowId, snap: OtpRow)
    | MarkCompleted(phone: Phone, key: Key, id: RowId, developmentOtp: Option<Code>)
    | CheckLatest(phone: Phone, key: Key)
    | Insert(phone: Phone, key: Key)
    | RecordEvent(phone: Phone, key: Key, id: RowId, code: Code)
    | CleanUp(id: RowId)
    | Publish(phone: Phone, key: Key, id: RowId, code: Code)
    | PublishConflict(phone: Phone, key: Key, id: RowId, code: Code)
    | Replied(phone: Phone, key: Key, developmentOtp: Option<Code>)
    | RateLimited
    | Failed
    | Crashed

  datatype Config = Config(exposeOtp: bool, resendCooldown: nat)

  /** What the environment decides in a step. */
  datatype Choice = Choice(found: Option<RowId>, newId: RowId, code: Code, limited: bool, fails: bool)

  function Exposed(cfg: Config, code: Code): Option<Code> {
    if cfg.exposeOtp then Some(code) else None
  }

  /** A replay that found nothing to return: fall through, or report the original conflict. */
  function NothingToReplay(phone: Phone, key: Key, why: Purpose): Worker {
    if why.Initially? then CheckLatest(phone, key) else Failed
  }

  /** The statement a call executes next, and where it then stands. */
  ghost function Advance(cfg: Config, db: Db, clock: int, k: Worker, c: Choice): (Db, Worker) {
    match k
    case Replay(phone, key, why) =>
      (db, if c.found.Some? && c.found.value in db.rows then
             ReplayFound(phone, key, why, c.found.value, db.rows[c.found.value])
           else NothingToReplay(phone, key, why))
    case ReplayFound(phone, key, why, id, snap) =>
      (db, if snap.phone != phone then Failed
           else if snap.completedAt.Some? then Replied(phone, key, snap.developmentOtp)
           else CheckEnqueued(phone, key, why, id, snap))
    case CheckEnqueued(phone, key, why, id, snap) =>
      (db, if IsEnqueued(db, key, id) then MarkCompleted(phone, key, id, snap.developmentOtp)
           else if snap.createdAt <= clock - PROCESSING_TIMEOUT_MS then
             Takeover(phone, key, why, id, snap, clock - PROCESSING_TIMEOUT_MS)
           else Failed)
    case Takeover(phone, key, why, id, snap, deadline) =>
      if id in db.rows && db.rows[id].completedAt.None? && db.rows[id].createdAt <= deadline then
        if Referenced(db, id) then (db, RecheckEnqueued(phone, key, id, snap))
        else (Delete(db, id), NothingToReplay(phone, key, why))
      else (db, Failed)
    case RecheckEnqueued(phone, key, id, snap) =>
      (db, if IsEnqueued(db, key, id) then MarkCompleted(phone, key, id, snap.developmentOtp) else Failed)
    case MarkCompleted(phone, key, id, developmentOtp) =>
      if id in db.rows then (Complete(db, id, clock), Replied(phone, key, developmentOtp)) else (db, Failed)
    case CheckLatest(phone, key) =>
      (db, if c.limited then RateLimited
           else if c.found.Some? && c.found.value in db.rows then
             var latest := db.rows[c.found.value];
             if latest.key == key && latest.completedAt.Some? then Replied(phone, key, latest.developmentOtp)
             else Failed
           else Insert(phone, key))
    case Insert(phone, key) =>
      if KeyTaken(db, key) then (db, Replay(phone, key, AfterConflict))
      else
        (db.(rows := db.rows[c.newId := OtpRow(phone, key, Bcrypt(c.code), Exposed(cfg, c.code), clock, None)],
             issued := db.issued + {c.newId}),
         RecordEvent(phone, key, c.newId, c.code))
    case RecordEvent(phone, key, id, code) =>
      (db, if c.fails || id !in db.rows then CleanUp(id) else Publish(phone, key, id, code))
    case CleanUp(id) =>
      (if id in db.rows && db.rows[id].completedAt.None? && !Referenced(db, id) then Delete(db, id) else db, Failed)
    case Publish(phone, key, id, code) =>
      if key in db.jobs || Referenced(db, id) then (db, PublishConflict(phone, key, id, code))
      else if id !in db.rows then (db, Failed)
      else (db.(jobs := db.jobs[key := Job(id, Some(Payload(phone, code)))]),
            MarkCompleted(phone, key, id, Exposed(cfg, code)))
    case PublishConflict(phone, key, id, code) =>
      (db, if IsEnqueued(db, key, id) then MarkCompleted(phone, key, id, Exposed(cfg, code)) else Failed)
    case _ => (db, k)
  }

  /** What the database may answer, and which identifiers are new. */
  ghost predicate Possible(cfg: Config, db: Db, clock: int, k: Worker, c: Choice) {
    match k
    case Replay(_, key, _) =>
      if c.found.Some? then c.found.value in db.rows && db.rows[c.found.value].key == key else !KeyTaken(db, key)
    case CheckLatest(phone, _) =>
      if c.found.Some? then c.found.value in db.rows && IsLatest(cfg, db, clock, phone, c.found.value)
      else forall id | id in db.rows && db.rows[id].phone == phone ::
          db.rows[id].createdAt <= clock - cfg.resendCooldown
    case Insert(_, _) => c.newId !in db.issued
    case _ => !HasReturned(k)
  }

  predicate HasReturned(k: Worker) {
    k.Replied? || k.RateLimited? || k.Failed? || k.Crashed?
  }

  ghost predicate IsLatest(cfg: Config, db: Db, clock: int, phone: Phone, id: RowId)
    requires id in db.rows
  {
    && db.rows[id].phone == phone && db.rows[id].createdAt > clock - cfg.resendCooldown
    && forall other | other in db.rows && db.rows[other].phone == phone ::
         db.rows[other].createdAt <= db.rows[id].createdAt
  }

  // ----- runs -----

  datatype Sys = Sys(db: Db, clock: int, workers: map<WorkerId, Worker>)

  datatype Event =
    | Tick(now: int)
    | Request(w: WorkerId, phone: Phone, key: Key)
    | Crash(w: WorkerId)
    | Move(w: WorkerId, choice: Choice)
    | Redact(job: Key)

  ghost predicate Step(cfg: Config, s: Sys, e: Event, s': Sys) {
    match e
    case Tick(now) => s.clock <= now && s' == s.(clock := now)
    case Request(w, phone, key) =>
      w !in s.workers && s' == s.(workers := s.workers[w := Replay(phone, key, Initially)])
    case Crash(w) => w in s.workers && !HasReturned(s.workers[w]) && s' == s.(workers := s.workers[w := Crashed])
    case Move(w, c) =>
      w in s.workers && Possible(cfg, s.db, s.clock, s.workers[w], c)
      && var (db, k) := Advance(cfg, s.db, s.clock, s.workers[w], c);
         s' == s.(db := db, workers := s.workers[w := k])
    case Redact(key) =>
      key in s.db.jobs && s' == s.(db := s.db.(jobs := s.db.jobs[key := s.db.jobs[key].(payload := None)]))
  }

  ghost predicate Next(cfg: Config, s: Sys, s': Sys) {
    exists e :: Step(cfg, s, e, s')
  }

  ghost predicate TakesStep(cfg: Config, run: seq<Sys>, i: nat)
    requires i + 1 < |run|
  {
    Next(cfg, run[i], run[i + 1])
  }

  ghost predicate Init(s: Sys) {
    s.db == Db(map[], map[], {}) && s.workers == map[]
  }

  ghost predicate IsRun(cfg: Config, run: seq<Sys>) {
    && |run| > 0 && Init(run[0])
    && forall i {:trigger TakesStep(cfg, run, i)} | 0 <= i < |run| - 1 :: TakesStep(cfg, run, i)
  }

  // ----- what every step keeps -----

  /** The columns a row is created with and keeps. */
  predicate SameRequest(a: OtpRow, b: OtpRow) {
    a == b.(completedAt := a.completedAt)
  }

  ghost predicate JobMatches(db: Db, key: Key)
    requires key in db.jobs
  {
    var job := db.jobs[key];
    && job.otpCodeId in db.rows
    && db.rows[job.otpCodeId].key == key
    && (job.payload.Some? ==>
          && Bcrypt(job.payload.value.code) == db.rows[job.otpCodeId].codeHash
          && job.payload.value.phone == db.rows[job.otpCodeId].phone)
  }

  ghost predicate DbOk(cfg: Config, db: Db) {
    && db.rows.Keys <= db.issued
    && (forall a, b | a in db.rows && b in db.rows && db.rows[a].key == db.rows[b].key :: a == b)
    && (forall key | key in db.jobs :: JobMatches(db, key))
    && (forall id | id in db.rows && db.rows[id].completedAt.Some? :: IsEnqueued(db, db.rows[id].key, id))
    && (forall id | id in db.rows :: db.rows[id].developmentOtp == Exposed(cfg, db.rows[id].codeHash.code))
  }

  /** Row ids are never used again, rows keep their request, and jobs stay where they are. */
  ghost predicate Evolves(a: Db, b: Db) {
    && a.issued <= b.issued
    && (forall id | id in a.issued && id in b.rows :: id in a.rows && SameRequest(b.rows[id], a.rows[id]))
    && (forall key | key in a.jobs ::
          key in b.jobs && b.jobs[key].otpCodeId == a.jobs[key].otpCodeId && b.jobs[key].otpCodeId in b.rows)
  }

  /** What a call may rely on about the row it works for, if that row is still there. */
  ghost predicate Knows(db: Db, id: RowId, phone: Phone, key: Key, code: Code) {
    && id in db.issued
    && (id in db.rows ==> db.rows[id].phone == phone && db.rows[id].key == key && db.rows[id].codeHash == Bcrypt(code))
  }

  ghost predicate Recalls(cfg: Config, db: Db, id: RowId, snap: OtpRow) {
    && id in db.issued
    && (id in db.rows ==> SameRequest(db.rows[id], snap))
    && snap.developmentOtp == Exposed(cfg, snap.codeHash.code)
    && (snap.completedAt.Some? ==> IsEnqueued(db, snap.key, id) && id in db.rows)
  }

  /** The reply a call with this key may give, or has given. */
  ghost predicate MayReply(db: Db, phone: Phone, key: Key, id: RowId, developmentOtp: Option<Code>) {
    && IsEnqueued(db, key, id) && id in db.rows
    && db.rows[id].phone == phone && db.rows[id].developmentOtp == developmentOtp
  }

  ghost predicate WorkerOk(cfg: Config, db: Db, clock: int, k: Worker) {
    match k
    case ReplayFound(_, key, _, id, snap) => Recalls(cfg, db, id, snap) && snap.key == key
    case CheckEnqueued(phone, key, _, id, snap) => Recalls(cfg, db, id, snap) && snap.key == key && snap.phone == phone
    case Takeover(phone, key, _, id, snap, deadline) =>
      Recalls(cfg, db, id, snap) && snap.key == key && snap.phone == phone && deadline <= clock - PROCESSING_TIMEOUT_MS
    case RecheckEnqueued(phone, key, id, snap) => Recalls(cfg, db, id, snap) && snap.key == key && snap.phone == phone
    case MarkCompleted(phone, key, id, developmentOtp) => MayReply(db, phone, key, id, developmentOtp)
    case RecordEvent(phone, key, id, code) => Knows(db, id, phone, key, code)
    case CleanUp(id) => id in db.issued
    case Publish(phone, key, id, code) => Knows(db, id, phone, key, code)
    case PublishConflict(phone, key, id, code) => Knows(db, id, phone, key, code)
    case Replied(phone, key, developmentOtp) => exists id :: MayReply(db, phone, key, id, developmentOtp)
    case _ => true
  }

  ghost predicate Inv(cfg: Config, s: Sys) {
    && DbOk(cfg, s.db)
    && forall w | w in s.workers :: WorkerOk(cfg, s.db, s.clock, s.workers[w])
  }
}
