/**
 Verifying a one-time password under an idempotency key: concurrent retries, crashes, and
 commits whose acknowledgement is lost.

 Every statement, and the session-issuing transaction as a whole, is one atomic step. A
 user is identified with the phone number, which is unique.
 */
module OtpVerification {
  import opened Wrappers

  const REPLAY_WINDOW_MS := 10 * 60 * 1000

  type RowId = nat
  type Phone = nat
  type Key = nat
  type Code = nat
  /** The keyed hash of the calling device. */
  type RequestHash = nat
  /** The token pair of one session. */
  type Response = nat
  type WorkerId = nat

  datatype Config = Config(maxAttempts: nat) {
    ghost predicate Valid() { maxAttempts >= 1 }
  }

  /** bcrypt, as far as the protocol depends on it: injective in the code. */
  datatype Hash = Bcrypt(code: Code)

  /** AES-GCM under the server's key, bound to the key hash and request hash it was sealed with. */
  datatype Envelope = Sealed(key: Key, request: RequestHash, response: Response)

  function Encrypt(key: Key, request: RequestHash, response: Response): Envelope {
    Sealed(key, request, response)
  }

  function Decrypt(key: Key, request: RequestHash, envelope: Envelope): Option<Response> {
    if envelope.key == key && envelope.request == request then Some(envelope.response) else None
  }

  datatype Verification = Verification(key: Key, request: RequestHash, envelope: Envelope, verifiedAt: int)

  /** `delivered` says that a notification job points to the row, which forbids deleting it. */
  datatype Otp = Otp(
    phone: Phone,
    codeHash: Hash,
    createdAt: int,
    expiresAt: int,
    attempts: nat,
    consumedAt: Option<int>,
    verification: Option<Verification>,
    delivered: bool)

  datatype Call = Call(phone: Phone, code: Code, key: Key, request: RequestHash)

  datatype Issued = Issued(otp: RowId, call: Call, response: Response) {
    const phone: Phone := call.phone
    const key: Key := call.key
  }

  /** `issued` and `sessions` are history: every row id ever used, and every session ever created. */
  datatype Db = Db(rows: map<RowId, Otp>, issued: set<RowId>, sessions: seq<Issued>)

  // ----- statements -----

  ghost predicate KeyTaken(db: Db, key: Key) {
    exists id :: id in db.rows && HasKey(db.rows[id], key)
  }

  predicate HasKey(row: Otp, key: Key) {
    row.verification.Some? && row.verification.value.key == key
  }

  predicate IsOpen(row: Otp) {
    row.consumedAt.None?
  }

  /** Consumes every open code of the user. */
  function Retire(db: Db, phone: Phone, at: int): Db {
    db.(rows := map id | id in db.rows ::
                  if db.rows[id].phone == phone && IsOpen(db.rows[id]) then db.rows[id].(consumedAt := Some(at))
                  else db.rows[id])
  }

  /** The committed transaction: this code and all the user's others consumed, the session stored under the key. */
  function Issue(db: Db, id: RowId, call: Call, at: int, response: Response): Db
    requires id in db.rows
  {
    var retired := Retire(db.(rows := db.rows[id := db.rows[id].(consumedAt := Some(at))]), call.phone, at);
    var sealed := Verification(call.key, call.request, Encrypt(call.key, call.request, response), at);
    retired.(rows := retired.rows[id := retired.rows[id].(verification := Some(sealed))],
             sessions := db.sessions + [Issued(id, call, response)])
  }

  // ----- a call in flight -----

  /** Which of its three uses a replay lookup serves. */
  datatype Purpose = Initially | NoLiveCode | AfterFailure

  datatype Worker =
    | Replay(call: Call, why: Purpose)
    | ReplayFound(call: Call, snap: Otp)
    | FindCode(call: Call)
    | CheckCode(call: Call, id: RowId, snap: Otp)
    | RecordMiss(call: Call, id: RowId, attempts: nat)
    | RetireAll(call: Call, at: int)
    | RecordLock(call: Call)
    | OpenSession(call: Call, id: RowId, at: int)
    | Replied(call: Call, response: Response)
    | LockedOut(call: Call)
    | AlreadyLocked(call: Call)
    | RateLimited
    | Rejected
    | Crashed

  /** What the environment decides in a step. */
  datatype Choice = Choice(found: Option<RowId>, limited: bool, aborts: bool, response: Response, ackLost: bool)

  function NothingToReplay(call: Call, why: Purpose): Worker {
    if why.Initially? then FindCode(call) else Rejected
  }

  /** The checks a stored response must pass before it is returned. */
  function ReplayChecks(clock: int, call: Call, snap: Otp): Worker {
    if snap.phone != call.phone || snap.verification.None? then Rejected
    else if snap.verification.value.request != call.request then Rejected
    else if snap.codeHash != Bcrypt(call.code) then Rejected
    else if clock - snap.verification.value.verifiedAt > REPLAY_WINDOW_MS then Rejected
    else match Decrypt(call.key, call.request, snap.verification.value.envelope)
         case Some(response) => Replied(call, response)
         case None => Rejected
  }

  /** The statement a call executes next, and where it then stands. */
  ghost function Advance(cfg: Config, db: Db, clock: int, k: Worker, c: Choice): (Db, Worker) {
    match k
    case Replay(call, why) =>
      (db, if c.found.Some? && c.found.value in db.rows then ReplayFound(call, db.rows[c.found.value])
       else NothingToReplay(call, why))
    case ReplayFound(call, snap) => (db, ReplayChecks(clock, call, snap))
    case FindCode(call) =>
      (db, if c.limited then RateLimited
           else if c.found.Some? && c.found.value in db.rows then CheckCode(call, c.found.value, db.rows[c.found.value])
           else Replay(call, NoLiveCode))
    case CheckCode(call, id, snap) =>
      (db, if snap.attempts >= cfg.maxAttempts then AlreadyLocked(call)
           else if snap.codeHash != Bcrypt(call.code) then RecordMiss(call, id, snap.attempts + 1)
           else OpenSession(call, id, clock))
    case RecordMiss(call, id, attempts) =>
      if id !in db.rows then (db, Rejected)
      else if attempts >= cfg.maxAttempts then
        (db.(rows := db.rows[id := db.rows[id].(attempts := attempts, consumedAt := Some(clock))]),
         RetireAll(call, clock))
      else (db.(rows := db.rows[id := db.rows[id].(attempts := attempts)]), Rejected)
    case RetireAll(call, at) => (Retire(db, call.phone, at), RecordLock(call))
    case RecordLock(call) => (db, LockedOut(call))
    case OpenSession(call, id, at) =>
      if c.aborts || !Claimable(db, id, at) || KeyTaken(db, call.key) then (db, Replay(call, AfterFailure))
      else (Issue(db, id, call, at, c.response),
            if c.ackLost then Replay(call, AfterFailure) else Replied(call, c.response))
    case _ => (db, k)
  }

  predicate Claimable(db: Db, id: RowId, at: int) {
    id in db.rows && IsOpen(db.rows[id]) && db.rows[id].expiresAt > at
  }

  /** What the database may answer. */
  ghost predicate Possible(db: Db, clock: int, k: Worker, c: Choice) {
    match k
    case Replay(call, _) =>
      if c.found.None? then !KeyTaken(db, call.key)
      else c.found.value in db.rows && HasKey(db.rows[c.found.value], call.key)
    case FindCode(call) =>
      if c.found.Some? then c.found.value in db.rows && IsNewestLive(db, clock, call.phone, c.found.value)
      else forall id | id in db.rows && db.rows[id].phone == call.phone :: !Claimable(db, id, clock)
    case _ => !HasReturned(k)
  }

  predicate HasReturned(k: Worker) {
    k.Replied? || k.LockedOut? || k.AlreadyLocked? || k.RateLimited? || k.Rejected? || k.Crashed?
  }

  ghost predicate IsNewestLive(db: Db, clock: int, phone: Phone, id: RowId)
    requires id in db.rows
  {
    && db.rows[id].phone == phone && Claimable(db, id, clock)
    && forall other | other in db.rows && db.rows[other].phone == phone && Claimable(db, other, clock) ::
         db.rows[other].createdAt <= db.rows[id].createdAt
  }

  // ----- runs -----

  datatype Sys = Sys(db: Db, clock: int, workers: map<WorkerId, Worker>)

  datatype Event =
    | Tick(now: int)
    | NewCode(id: RowId, phone: Phone, code: Code, expiresAt: int)
    | Deliver(id: RowId)
    | Withdraw(id: RowId)
    | Verify(w: WorkerId, call: Call)
    | Crash(w: WorkerId)
    | Move(w: WorkerId, choice: Choice)

  ghost predicate Step(cfg: Config, s: Sys, e: Event, s': Sys) {
    match e
    case Tick(now) => s.clock <= now && s' == s.(clock := now)
    case NewCode(id, phone, code, expiresAt) =>
      id !in s.db.issued
      && s' == s.(db := s.db.(rows := s.db.rows[id := Otp(phone, Bcrypt(code), s.clock, expiresAt, 0, None, None,
                                                          false)],
                              issued := s.db.issued + {id}))
    case Deliver(id) =>
      id in s.db.rows && s' == s.(db := s.db.(rows := s.db.rows[id := s.db.rows[id].(delivered := true)]))
    case Withdraw(id) =>
      id in s.db.rows && !s.db.rows[id].delivered && s' == s.(db := s.db.(rows := s.db.rows - {id}))
    case Verify(w, call) => w !in s.workers && s' == s.(workers := s.workers[w := Replay(call, Initially)])
    case Crash(w) => w in s.workers && !HasReturned(s.workers[w]) && s' == s.(workers := s.workers[w := Crashed])
    case Move(w, c) =>
      w in s.workers && Possible(s.db, s.clock, s.workers[w], c)
      && var (db, k) := Advance(cfg, s.db, s.clock, s.workers[w], c);
         s' == s.(db := db, workers := s.workers[w := k])
  }

  ghost predicate Next(cfg: Config, s: Sys, s': Sys) {
    exists e :: Step(cfg, s, e, s')
  }

  ghost predicate TakesStep(cfg: Config, run: seq<Sys>, i: nat)
    requires i + 1 < |run|
  {
    Next(cfg, run[i], run[i + 1])
  }

  ghost predicate Init(s: Sys) {
    s.db == Db(map[], {}, []) && s.workers == map[]
  }

  ghost predicate IsRun(cfg: Config, run: seq<Sys>) {
    && |run| > 0 && Init(run[0])
    && forall i {:trigger TakesStep(cfg, run, i)} | 0 <= i < |run| - 1 :: TakesStep(cfg, run, i)
  }

  // ----- what every step keeps -----

  predicate RecordsSession(row: Otp, session: Issued) {
    && row.phone == session.phone && row.codeHash == Bcrypt(session.call.code) && HasKey(row, session.key)
    && row.verification.value.request == session.call.request
    && row.verification.value.envelope.response == session.response
  }

  ghost predicate LogOk(db: Db) {
    && (forall n | 0 <= n < |db.sessions| :: db.sessions[n].otp in db.issued)
    && (forall m, n | 0 <= m < n < |db.sessions| :: db.sessions[m].otp != db.sessions[n].otp)
    && (forall n | 0 <= n < |db.sessions| && db.sessions[n].otp in db.rows ::
          RecordsSession(db.rows[db.sessions[n].otp], db.sessions[n]))
  }

  /** The stored response of a row is the one a session was created with, for this phone, code, key and device. */
  ghost predicate Stored(db: Db, id: RowId, row: Otp)
    requires row.verification.Some?
  {
    var v := row.verification.value;
    && v.envelope == Encrypt(v.key, v.request, v.envelope.response)
    && Issued(id, Call(row.phone, row.codeHash.code, v.key, v.request), v.envelope.response) in db.sessions
  }

  ghost predicate DbOk(cfg: Config, db: Db) {
    && db.rows.Keys <= db.issued
    && LogOk(db)
    && (forall id | id in db.rows && db.rows[id].verification.Some? ::
          !IsOpen(db.rows[id]) && Stored(db, id, db.rows[id]))
    && (forall a, b | a in db.rows && b in db.rows && db.rows[a].verification.Some?
          && HasKey(db.rows[b], db.rows[a].verification.value.key) :: a == b)
    && (forall id | id in db.rows && db.rows[id].attempts >= cfg.maxAttempts :: !IsOpen(db.rows[id]))
  }

  ghost predicate WorkerOk(cfg: Config, db: Db, k: Worker) {
    match k
    case ReplayFound(call, snap) =>
      HasKey(snap, call.key) && exists id :: Stored(db, id, snap)
    case CheckCode(call, id, snap) =>
      && id in db.issued && snap.attempts < cfg.maxAttempts
      && (id in db.rows ==> db.rows[id].phone == call.phone && db.rows[id].codeHash == snap.codeHash)
    case RecordMiss(call, id, _) => id in db.issued && (id in db.rows ==> db.rows[id].phone == call.phone)
    case OpenSession(call, id, _) =>
      && id in db.issued
      && (id in db.rows ==> db.rows[id].phone == call.phone && db.rows[id].codeHash == Bcrypt(call.code))
    case Replied(call, response) => exists id :: Issued(id, call, response) in db.sessions
    case AlreadyLocked(_) => false
    case _ => true
  }

  /**
   Row ids are never used again, codes stay with their phone, consumed stays consumed, delivered rows stay,
   the log grows.
   */
  ghost predicate Evolves(a: Db, b: Db) {
    && a.issued <= b.issued
    && (forall id | id in a.issued && id in b.rows ::
          && id in a.rows && b.rows[id].phone == a.rows[id].phone && b.rows[id].codeHash == a.rows[id].codeHash
          && b.rows[id].createdAt == a.rows[id].createdAt && b.rows[id].expiresAt == a.rows[id].expiresAt
          && (IsOpen(b.rows[id]) ==> IsOpen(a.rows[id])))
    && (forall id | id in a.rows && a.rows[id].delivered :: id in b.rows && b.rows[id].delivered)
    && a.sessions <= b.sessions
  }

  /** Every session the log gained came from a code that was still open. */
  ghost predicate OnlyOpenCodesVerify(a: Db, b: Db)
    requires a.sessions <= b.sessions
  {
    forall n | |a.sessions| <= n < |b.sessions| :: b.sessions[n].otp in a.issued ==>
        b.sessions[n].otp in a.rows && IsOpen(a.rows[b.sessions[n].otp])
  }

  ghost predicate Inv(cfg: Config, s: Sys) {
    && DbOk(cfg, s.db)
    && (forall id | id in s.db.rows :: s.db.rows[id].createdAt <= s.clock)
    && forall w | w in s.workers :: WorkerOk(cfg, s.db, s.workers[w])
  }
}
