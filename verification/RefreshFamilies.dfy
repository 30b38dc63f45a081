/**
 Refresh-token families: sign-in, rotation with reuse detection, and revocation, as the
 rows of one table changed by concurrent calls.

 A statement, or a transaction that holds the user's advisory lock, is one atomic step
 at one instant of a shared clock. Between steps a call keeps only what it read earlier,
 which may be stale by the time it acts on it.
 */
module RefreshFamilies {
  import opened Wrappers

  type RowId = nat
  type UserId = nat
  type FamilyId = nat
  type TokenHash = nat
  type Device = nat
  type WorkerId = nat

  datatype Config = Config(maxFamilies: nat, maxAge: nat, tokenLifetime: nat) {
    ghost predicate Valid() { maxFamilies >= 1 }
  }

  datatype Row = Row(
    user: UserId,
    tokenHash: TokenHash,
    family: FamilyId,
    familyCreatedAt: int,
    device: Option<Device>,
    expiresAt: int,
    revokedAt: Option<int>,
    replacedBy: Option<RowId>)

  type Rows = map<RowId, Row>

  // ----- the table and the statements that change it -----

  predicate Live(rows: Rows, id: RowId) {
    id in rows && rows[id].revokedAt.None?
  }

  function FamilyRows(rows: Rows, family: FamilyId): set<RowId> {
    set id | id in rows && rows[id].family == family
  }

  ghost predicate HasRows(rows: Rows, family: FamilyId) {
    exists id :: id in rows && rows[id].family == family
  }

  function UserRows(rows: Rows, user: UserId): set<RowId> {
    set id | id in rows && rows[id].user == user
  }

  /** Rows of this user that belong to one of these families. */
  function UserFamilyRows(rows: Rows, user: UserId, families: set<FamilyId>): set<RowId> {
    set id | id in rows && rows[id].user == user && rows[id].family in families
  }

  function LiveFamilies(rows: Rows, user: UserId): set<FamilyId> {
    set id | id in rows && rows[id].user == user && rows[id].revokedAt.None? :: rows[id].family
  }

  /** Families of this user holding an unrevoked row bound to the device. */
  function DeviceFamilies(rows: Rows, user: UserId, device: Option<Device>): set<FamilyId> {
    set id | id in rows && rows[id].user == user && rows[id].revokedAt.None?
             && device.Some? && rows[id].device == device :: rows[id].family
  }

  /** `updateMany ... where revokedAt: null` restricted to `ids`. */
  function Revoke(rows: Rows, ids: set<RowId>, now: int): Rows {
    map id | id in rows ::
      if id in ids && rows[id].revokedAt.None? then rows[id].(revokedAt := Some(now)) else rows[id]
  }

  predicate Claimable(cfg: Config, rows: Rows, id: RowId, now: int) {
    && Live(rows, id)
    && rows[id].expiresAt > now
    && rows[id].familyCreatedAt > now - cfg.maxAge
  }

  /** The committed rotation: predecessor claimed and linked, successor inserted. */
  function Rotate(cfg: Config, rows: Rows, id: RowId, device: Option<Device>,
                  newId: RowId, newHash: TokenHash, now: int): Rows
    requires id in rows
  {
    var used := rows[id];
    var successor := Row(used.user, newHash, used.family, used.familyCreatedAt,
                         if device.Some? then device else used.device,
                         now + cfg.tokenLifetime, None, None);
    rows[id := used.(revokedAt := Some(now), replacedBy := Some(newId))][newId := successor]
  }

  /** What `groupBy` returns for one live family. */
  datatype Group = Group(family: FamilyId, oldest: int)

  ghost predicate IsGrouping(groups: seq<Group>, rows: Rows, user: UserId) {
    && (forall i, j | 0 <= i < j < |groups| :: groups[i].family != groups[j].family)
    && FamiliesOf(groups) == LiveFamilies(rows, user)
    && (forall i | 0 <= i < |groups| :: IsOldest(rows, user, groups[i]))
  }

  function FamiliesOf(groups: seq<Group>): set<FamilyId> {
    set i | 0 <= i < |groups| :: groups[i].family
  }

  /** `_min: familyCreatedAt` over the group's unrevoked rows. */
  ghost predicate IsOldest(rows: Rows, user: UserId, g: Group) {
    && (exists id :: id in rows && rows[id].user == user && rows[id].revokedAt.None? && rows[id].family == g.family
                     && rows[id].familyCreatedAt == g.oldest)
    && (forall id | id in rows && rows[id].user == user && rows[id].revokedAt.None? && rows[id].family == g.family ::
          g.oldest <= rows[id].familyCreatedAt)
  }

  function Overflow(cfg: Config, live: nat): nat
    requires cfg.maxFamilies >= 1
  {
    if live > cfg.maxFamilies - 1 then live - (cfg.maxFamilies - 1) else 0
  }

  /** `evicted` is a set of the oldest live families, just large enough to make room. */
  ghost predicate EvictsOldest(cfg: Config, rows: Rows, user: UserId, evicted: set<FamilyId>)
    requires cfg.Valid()
  {
    && evicted <= LiveFamilies(rows, user)
    && |evicted| == Overflow(cfg, |LiveFamilies(rows, user)|)
    && (forall e, k, te, tk | e in evicted && k in LiveFamilies(rows, user) - evicted
          && IsOldest(rows, user, Group(e, te)) && IsOldest(rows, user, Group(k, tk)) :: te <= tk)
  }

  /** The table once the user's families with an unrevoked row of this device have been ended. */
  function Cleared(rows: Rows, user: UserId, device: Option<Device>, now: int): Rows {
    Revoke(rows, UserFamilyRows(rows, user, DeviceFamilies(rows, user, device)), now)
  }

  /** The committed sign-in transaction, for the families it chose to evict. */
  function SignIn(cfg: Config, rows: Rows, user: UserId, device: Option<Device>, evicted: set<FamilyId>,
                  family: FamilyId, familyCreatedAt: int, newId: RowId, newHash: TokenHash, now: int): Rows
  {
    var cleared := Cleared(rows, user, device, now);
    var roomy := Revoke(cleared, UserFamilyRows(cleared, user, evicted), now);
    roomy[newId := Row(user, newHash, family, familyCreatedAt, device, now + cfg.tokenLifetime, None, None)]
  }

  // ----- calls in flight -----

  /** Where a call stands, with everything it remembers. */
  datatype Worker =
    | RefreshStart(token: TokenHash, device: Option<Device>)
    | RefreshRead(id: RowId, snap: Row, device: Option<Device>)
    | RefreshReused(family: FamilyId)
    | RefreshExpired(id: RowId)
    | RefreshAged(family: FamilyId)
    | RefreshClaim(id: RowId, snap: Row, device: Option<Device>)
    | RefreshLost(id: RowId, snap: Row)
    | RefreshOk(id: RowId, newId: RowId)
    | RefreshReuseRejected(family: FamilyId)
    | RefreshRejected
    | LogoutStart(token: TokenHash)
    | LogoutRead(family: FamilyId)
    | LogoutDone(families: set<FamilyId>)
    | LogoutAllStart(user: UserId)
    | SignInStart(user: UserId, device: Option<Device>, family: FamilyId, familyCreatedAt: int)
    | SignInDone(id: RowId)
    | Ended

  /**
   `rotatedAt` and `chains` are history the program does not store: the instant at which
   each successor row was inserted, and the order in which a family's rows appeared.
   */
  datatype Sys = Sys(
    rows: Rows,
    clock: int,
    workers: map<WorkerId, Worker>,
    rotatedAt: map<RowId, int>,
    chains: map<FamilyId, seq<RowId>>)

  /** What the environment decides in a step: fresh identifiers, faults, ties in a sort. */
  datatype Choice = Choice(found: Option<RowId>, newId: RowId, newHash: TokenHash, evicted: set<FamilyId>, abort: bool)

  datatype Event =
    | Tick(now: int)
    | Spawn(w: WorkerId, call: Worker)
    | Crash(w: WorkerId)
    | Advance(w: WorkerId, choice: Choice)

  predicate IsCall(k: Worker) {
    k.RefreshStart? || k.LogoutStart? || k.LogoutAllStart? || k.SignInStart?
  }

  predicate HasReturned(k: Worker) {
    k.RefreshOk? || k.RefreshReuseRejected? || k.RefreshRejected? || k.LogoutDone? || k.SignInDone? || k.Ended?
  }

  /** The checks between reading the row and opening the transaction. */
  function AfterChecks(cfg: Config, clock: int, id: RowId, snap: Row, device: Option<Device>): Worker {
    if snap.revokedAt.Some? then RefreshReused(snap.family)
    else if snap.expiresAt <= clock then RefreshExpired(id)
    else if snap.familyCreatedAt + cfg.maxAge <= clock then RefreshAged(snap.family)
    else if snap.device.Some? && device != snap.device then RefreshRejected
    else RefreshClaim(id, snap, device)
  }

  ghost predicate Finds(rows: Rows, token: TokenHash, found: Option<RowId>) {
    match found
    case Some(id) => id in rows && rows[id].tokenHash == token
    case None => forall id | id in rows :: rows[id].tokenHash != token
  }

  predicate FreshRow(rows: Rows, newId: RowId, newHash: TokenHash) {
    newId !in rows && forall id | id in rows :: rows[id].tokenHash != newHash
  }

  /** The statement a call executes next, when that statement inserts no row, and where the call then stands. */
  function Quietly(cfg: Config, rows: Rows, clock: int, k: Worker, c: Choice): (Rows, Worker) {
    match k
    case RefreshStart(_, device) =>
      (rows, if c.found.Some? && c.found.value in rows then RefreshRead(c.found.value, rows[c.found.value], device)
       else RefreshRejected)
    case RefreshRead(id, snap, device) => (rows, AfterChecks(cfg, clock, id, snap, device))
    case RefreshReused(family) => (Revoke(rows, FamilyRows(rows, family), clock), RefreshReuseRejected(family))
    case RefreshExpired(id) =>
      (if id in rows then rows[id := rows[id].(revokedAt := Some(clock))] else rows, RefreshRejected)
    case RefreshAged(family) => (Revoke(rows, FamilyRows(rows, family), clock), RefreshRejected)
    case RefreshClaim(id, snap, _) => (rows, if c.abort then Ended else RefreshLost(id, snap))
    case RefreshLost(id, snap) =>
      (rows, if id in rows && rows[id].revokedAt.Some? then RefreshReused(snap.family) else RefreshRejected)
    case LogoutStart(_) =>
      (rows, if c.found.Some? && c.found.value in rows then LogoutRead(rows[c.found.value].family) else LogoutDone({}))
    case LogoutRead(family) => (Revoke(rows, FamilyRows(rows, family), clock), LogoutDone({family}))
    case LogoutAllStart(user) =>
      (Revoke(rows, UserRows(rows, user), clock),
       LogoutDone(set id | id in rows && rows[id].user == user :: rows[id].family))
    case SignInStart(_, _, _, _) => (rows, Ended)
    case _ => (rows, k)
  }

  /** The transaction about to run commits, inserting a row. */
  predicate Commits(cfg: Config, rows: Rows, clock: int, k: Worker, c: Choice) {
    !c.abort && (k.SignInStart? || (k.RefreshClaim? && Claimable(cfg, rows, k.id, clock)))
  }

  ghost predicate WorkerStep(cfg: Config, s: Sys, w: WorkerId, c: Choice, s': Sys)
    requires cfg.Valid()
  {
    w in s.workers && !HasReturned(s.workers[w]) &&
    var k := s.workers[w];
    if !Commits(cfg, s.rows, s.clock, k, c) then
      var (rows, next) := Quietly(cfg, s.rows, s.clock, k, c);
      && (k.RefreshStart? || k.LogoutStart? ==> Finds(s.rows, k.token, c.found))
      && s' == s.(rows := rows, workers := s.workers[w := next])
    else if k.RefreshClaim? then
      var family := s.rows[k.id].family;
      && FreshRow(s.rows, c.newId, c.newHash)
      && s' == s.(rows := Rotate(cfg, s.rows, k.id, k.device, c.newId, c.newHash, s.clock),
                  workers := s.workers[w := RefreshOk(k.id, c.newId)],
                  rotatedAt := s.rotatedAt[c.newId := s.clock],
                  chains := s.chains[family := Chain(s.chains, family) + [c.newId]])
    else
      && FreshRow(s.rows, c.newId, c.newHash)
      && k.family !in s.chains && !HasRows(s.rows, k.family)
      && EvictsOldest(cfg, Cleared(s.rows, k.user, k.device, s.clock), k.user, c.evicted)
      && s' == s.(rows := SignIn(cfg, s.rows, k.user, k.device, c.evicted, k.family, k.familyCreatedAt, c.newId,
                                 c.newHash, s.clock),
                  workers := s.workers[w := SignInDone(c.newId)],
                  chains := s.chains[k.family := [c.newId]])
  }

  function Chain(chains: map<FamilyId, seq<RowId>>, family: FamilyId): seq<RowId> {
    if family in chains then chains[family] else []
  }

  ghost predicate Step(cfg: Config, s: Sys, e: Event, s': Sys)
    requires cfg.Valid()
  {
    match e
    case Tick(now) => s.clock <= now && s' == s.(clock := now)
    case Spawn(w, call) => w !in s.workers && IsCall(call) && s' == s.(workers := s.workers[w := call])
    case Crash(w) => w in s.workers && !HasReturned(s.workers[w]) && s' == s.(workers := s.workers[w := Ended])
    case Advance(w, c) => WorkerStep(cfg, s, w, c, s')
  }

  ghost predicate Init(s: Sys) {
    s.rows == map[] && s.workers == map[] && s.rotatedAt == map[] && s.chains == map[]
  }

  ghost predicate IsRun(cfg: Config, run: seq<Sys>)
    requires cfg.Valid()
  {
    && |run| > 0
    && Init(run[0])
    && forall i {:trigger TakesStep(cfg, run, i)} | 0 <= i < |run| - 1 :: TakesStep(cfg, run, i)
  }

  ghost predicate Next(cfg: Config, s: Sys, s': Sys)
    requires cfg.Valid()
  {
    exists e :: Step(cfg, s, e, s')
  }

  ghost predicate TakesStep(cfg: Config, run: seq<Sys>, i: nat)
    requires cfg.Valid() && i + 1 < |run|
  {
    Next(cfg, run[i], run[i + 1])
  }

  // ----- invariants -----

  /** The rows of `family` are exactly `c`, each replaced by the next, the last by none. */
  ghost predicate IsChain(rows: Rows, family: FamilyId, c: seq<RowId>) {
    && |c| > 0
    && (forall i, j | 0 <= i < j < |c| :: c[i] != c[j])
    && (forall i | 0 <= i < |c| :: c[i] in rows && rows[c[i]].family == family)
    && (forall id | id in rows && rows[id].family == family :: id in c)
    && (forall i | 0 <= i < |c| ::
          rows[c[i]].user == rows[c[0]].user && rows[c[i]].familyCreatedAt == rows[c[0]].familyCreatedAt)
    && (forall i, j | 0 <= i < j < |c| && j == i + 1 ::
          rows[c[i]].replacedBy == Some(c[j]) && rows[c[i]].revokedAt.Some?)
    && rows[c[|c| - 1]].replacedBy.None?
  }

  ghost predicate Chained(rows: Rows, chains: map<FamilyId, seq<RowId>>) {
    && (forall id | id in rows :: rows[id].family in chains)
    && (forall f {:trigger IsChain(rows, f, chains[f])} | f in chains :: IsChain(rows, f, chains[f]))
  }

  /** The family exists and none of its rows is usable. */
  ghost predicate Dead(rows: Rows, family: FamilyId) {
    && HasRows(rows, family)
    && (forall id | id in rows && rows[id].family == family :: rows[id].revokedAt.Some?)
  }

  /** A snapshot agrees with the row on everything but revocation and replacement. */
  ghost predicate Recalls(rows: Rows, id: RowId, snap: Row) {
    && id in rows
    && rows[id] == snap.(revokedAt := rows[id].revokedAt, replacedBy := rows[id].replacedBy)
    && (snap.revokedAt.Some? ==> rows[id].revokedAt.Some?)
  }

  ghost predicate WorkerOk(rows: Rows, k: Worker) {
    match k
    case RefreshRead(id, snap, _) => Recalls(rows, id, snap)
    case RefreshReused(family) => HasRows(rows, family)
    case RefreshExpired(id) => id in rows
    case RefreshAged(family) => HasRows(rows, family)
    case RefreshClaim(id, snap, device) => Recalls(rows, id, snap) && (snap.device.Some? ==> device == snap.device)
    case RefreshLost(id, snap) => Recalls(rows, id, snap)
    case RefreshOk(id, newId) => id in rows && rows[id].replacedBy == Some(newId)
    case RefreshReuseRejected(family) => Dead(rows, family)
    case LogoutRead(family) => HasRows(rows, family)
    case LogoutDone(families) => forall f | f in families :: Dead(rows, f)
    case SignInDone(id) => id in rows
    case _ => true
  }

  ghost predicate WorkersOk(s: Sys) {
    && (forall w | w in s.workers :: WorkerOk(s.rows, s.workers[w]))
    && (forall w, v | w in s.workers && v in s.workers && w != v
                      && s.workers[w].RefreshOk? && s.workers[v].RefreshOk? ::
          s.workers[w].newId != s.workers[v].newId)
    && (forall w | w in s.workers && s.workers[w].RefreshOk? :: s.workers[w].newId in s.rows)
  }

  ghost predicate InTable(rows: Rows, c: seq<RowId>) {
    forall i | 0 <= i < |c| :: c[i] in rows
  }

  /** Along a chain, bound stays bound, and every successor was inserted while the family was young enough. */
  ghost predicate InheritsAlong(cfg: Config, rows: Rows, rotatedAt: map<RowId, int>, c: seq<RowId>)
    requires InTable(rows, c)
  {
    && (forall i, j | 0 <= i < j < |c| && rows[c[i]].device.Some? :: rows[c[j]].device == rows[c[i]].device)
    && (forall j | 1 <= j < |c| :: c[j] in rotatedAt && rotatedAt[c[j]] < rows[c[j]].familyCreatedAt + cfg.maxAge)
  }

  ghost predicate Inherited(cfg: Config, rows: Rows, rotatedAt: map<RowId, int>, chains: map<FamilyId, seq<RowId>>) {
    forall f {:trigger InheritsAlong(cfg, rows, rotatedAt, chains[f])} | f in chains ::
      InTable(rows, chains[f]) && InheritsAlong(cfg, rows, rotatedAt, chains[f])
  }

  ghost predicate UniqueTokens(rows: Rows) {
    forall i, j | i in rows && j in rows && rows[i].tokenHash == rows[j].tokenHash :: i == j
  }

  ghost predicate Capped(cfg: Config, rows: Rows) {
    forall user :: |LiveFamilies(rows, user)| <= cfg.maxFamilies
  }

  ghost predicate Inv(cfg: Config, s: Sys) {
    && Chained(s.rows, s.chains)
    && WorkersOk(s)
    && Inherited(cfg, s.rows, s.rotatedAt, s.chains)
    && UniqueTokens(s.rows)
    && Capped(cfg, s.rows)
  }
}
