/** The OTP table as verification updates it in place, and one verification served without interruption. */
module OtpVerificationStore {
  import opened Wrappers
  import opened OtpVerification
  import opened OtpVerificationProofs

  datatype VerifyError = KeyReused | ReplayExpired | CodeNotFound | WrongCode | Locked | Limited | RolledBack

  class OtpTable {
    const cfg: Config
    var rows: map<RowId, Otp>
    ghost var issued: set<RowId>
    ghost var sessions: seq<Issued>

    ghost function View(): Db
      reads this
    {
      Db(rows, issued, sessions)
    }

    ghost predicate Valid()
      reads this
    {
      cfg.Valid() && DbOk(cfg, View())
    }

    constructor (cfg: Config)
      requires cfg.Valid()
      ensures Valid() && View() == Db(map[], {}, []) && this.cfg == cfg
    {
      this.cfg := cfg;
      rows, issued, sessions := map[], {}, [];
    }

    method FindByKey(key: Key) returns (found: Option<RowId>)
      ensures found.Some? ==> found.value in rows && HasKey(rows[found.value], key)
      ensures found.None? ==> !KeyTaken(View(), key)
    {
      if id :| id in rows && HasKey(rows[id], key) { found := Some(id); } else { found := None; }
    }

    /** Returns the stored response for this key, if any; the same key with anything different is an error. */
    method ReplayOtpVerification(call: Call, now: int) returns (r: Option<Result<Response, VerifyError>>)
      requires Valid()
      ensures r.None? <==> !KeyTaken(View(), call.key)
      ensures r.Some? && r.value.Err? ==> r.value.error.KeyReused? || r.value.error.ReplayExpired?
      ensures r.Some? && r.value.Ok? ==> exists id :: Issued(id, call, r.value.value) in sessions
      ensures forall id | id in rows && HasKey(rows[id], call.key) ::
                r == Some(Ok(rows[id].verification.value.envelope.response)) <==>
                  (rows[id].phone == call.phone && rows[id].verification.value.request == call.request
                   && rows[id].codeHash == Bcrypt(call.code)
                        && now - rows[id].verification.value.verifiedAt <= REPLAY_WINDOW_MS)
      ensures forall id | id in rows && HasKey(rows[id], call.key) ::
                r.Some? && (r.value.Err? || r.value.value == rows[id].verification.value.envelope.response)
    {
      var found := FindByKey(call.key);
      if found.None? { return None; }
      var existing := rows[found.value];
      assert Stored(View(), found.value, existing);
      var differs := existing.phone != call.phone || existing.verification.value.request != call.request
                     || existing.codeHash != Bcrypt(call.code);
      var checked := ReplayChecks(now, call, existing);
      r := Some(if checked.Replied? then Ok(checked.response) else Err(if differs then KeyReused else ReplayExpired));
    }

    /** Consumes every open code of the user. */
    method RetireLiveOtps(phone: Phone, at: int)
      requires Valid()
      modifies this
      ensures Valid() && View() == Retire(old(View()), phone, at)
    {
      RetireOk(cfg, View(), phone, at);
      rows := map id | id in rows ::
                if rows[id].phone == phone && IsOpen(rows[id]) then rows[id].(consumedAt := Some(at)) else rows[id];
    }

    /** The transaction that turns one open code into one session, or leaves everything as it was. */
    method IssueVerifiedSession(id: RowId, call: Call, response: Response, signs: bool, at: int)
      returns (committed: bool)
      requires Valid() && (id in rows ==> rows[id].phone == call.phone && rows[id].codeHash == Bcrypt(call.code))
      modifies this
      ensures Valid() && Evolves(old(View()), View())
      ensures committed <==> signs && Claimable(old(View()), id, at) && !KeyTaken(old(View()), call.key)
      ensures View() == if committed then Issue(old(View()), id, call, at, response) else old(View())
    {
      var before := rows;
      ghost var start := View();
      var taken := FindByKey(call.key);
      if id !in rows || !IsOpen(rows[id]) || rows[id].expiresAt <= at { return false; }
      rows := rows[id := rows[id].(consumedAt := Some(at))];
      rows := map x | x in rows ::
                if rows[x].phone == call.phone && IsOpen(rows[x]) then rows[x].(consumedAt := Some(at)) else rows[x];
      if taken.Some? || !signs {
        rows := before;
        return false;
      }
      IssueOk(cfg, start, id, call, at, response);
      var sealed := Verification(call.key, call.request, Encrypt(call.key, call.request, response), at);
      rows := rows[id := rows[id].(verification := Some(sealed))];
      sessions := sessions + [Issued(id, call, response)];
      committed := true;
    }

    method FindLiveCode(phone: Phone, now: int) returns (found: Option<RowId>)
      ensures found.Some? ==> found.value in rows && IsNewestLive(View(), now, phone, found.value)
      ensures found.None? ==> forall id | id in rows && rows[id].phone == phone :: !Claimable(View(), id, now)
    {
      var todo := set id | id in rows && rows[id].phone == phone && IsOpen(rows[id]) && rows[id].expiresAt > now;
      ghost var all := todo;
      found := None;
      while todo != {}
        invariant todo <= all
        invariant found.None? ==> todo == all
        invariant found.Some? ==> found.value in all && forall id | id in all - todo ::
            rows[id].createdAt <= rows[found.value].createdAt
        decreases todo
      {
        var id :| id in todo;
        if found.None? || rows[id].createdAt > rows[found.value].createdAt { found := Some(id); }
        todo := todo - {id};
      }
      assert forall id | id in rows && rows[id].phone == phone && Claimable(View(), id, now) :: id in all;
    }

    /**
     One whole verification. The right code yields a new session and consumes every code the user held; a retry
     under the same key gets the same response and changes nothing; the last allowed miss consumes every code too.
     The branch for a code found already locked is left out: no such code is ever found.
     */
    method VerifyOtp(call: Call, response: Response, limited: bool, signs: bool, now: int)
      returns (r: Result<Response, VerifyError>)
      requires Valid()
      modifies this
      ensures Valid() && Evolves(old(View()), View())
      ensures KeyTaken(old(View()), call.key) ==> View() == old(View())
      ensures r.Ok? ==> exists id :: Issued(id, call, r.value) in sessions
      ensures forall id | id in old(rows) && HasKey(old(rows)[id], call.key) && r.Ok? ::
                r.value == old(rows)[id].verification.value.envelope.response
      ensures r.Ok? && !KeyTaken(old(View()), call.key) ==>
                r.value == response && |sessions| == |old(sessions)| + 1
                && forall id | id in rows && rows[id].phone == call.phone :: !IsOpen(rows[id])
      ensures r.Ok? && !KeyTaken(old(View()), call.key) ==>
                exists id :: id in old(rows) && IsNewestLive(old(View()), now, call.phone, id)
                             && old(rows)[id].codeHash == Bcrypt(call.code)
                                  && View() == Issue(old(View()), id, call, now, response)
      ensures r == Err(Locked) ==> forall id | id in rows && rows[id].phone == call.phone :: !IsOpen(rows[id])
      ensures r == Err(WrongCode) || r == Err(Locked) ==>
                exists id :: id in old(rows) && IsNewestLive(old(View()), now, call.phone, id)
                             && old(rows)[id].codeHash != Bcrypt(call.code)
                                  && View() == Missed(cfg, old(View()), id, call.phone, now)
      ensures r.Err? && r != Err(WrongCode) && r != Err(Locked) ==> View() == old(View())
      ensures !KeyTaken(old(View()), call.key) && !limited && signs
              && (exists id :: id in old(rows) && IsNewestLive(old(View()), now, call.phone, id))
              && (forall id | id in old(rows) && IsNewestLive(old(View()), now, call.phone, id) ::
                  old(rows)[id].codeHash == Bcrypt(call.code))
              ==> r == Ok(response)
      ensures !KeyTaken(old(View()), call.key) && !limited
              && (exists id :: id in old(rows) && IsNewestLive(old(View()), now, call.phone, id))
              && (forall id | id in old(rows) && IsNewestLive(old(View()), now, call.phone, id) ::
                  old(rows)[id].codeHash != Bcrypt(call.code))
              ==> r == Err(WrongCode) || r == Err(Locked)
    {
      var replay := ReplayOtpVerification(call, now);
      if replay.Some? { return replay.value; }
      if limited { return Err(Limited); }
      var found := FindLiveCode(call.phone, now);
      if found.None? { return Err(CodeNotFound); }
      var id := found.value;
      var record := rows[id];
      if record.codeHash != Bcrypt(call.code) {
        r := CountMiss(id, call.phone, now);
        return;
      }
      var committed := IssueVerifiedSession(id, call, response, signs, now);
      if !committed { return Err(RolledBack); }
      IssueRows(old(View()), id, call, now, response);
      assert sessions[|old(sessions)|] == Issued(id, call, response);
      r := Ok(response);
    }

    /** Counts one wrong code against an open row, and locks the user's codes at the maximum. */
    method CountMiss(id: RowId, phone: Phone, now: int) returns (r: Result<Response, VerifyError>)
      requires Valid() && id in rows && IsOpen(rows[id]) && rows[id].phone == phone
      modifies this
      ensures View() == Missed(cfg, old(View()), id, phone, now)
      ensures Valid() && Evolves(old(View()), View())
      ensures r == Err(if old(rows)[id].attempts + 1 >= cfg.maxAttempts then Locked else WrongCode)
      ensures r == Err(Locked) ==> forall x | x in rows && rows[x].phone == phone :: !IsOpen(rows[x])
    {
      ghost var start := View();
      var attempts := rows[id].attempts + 1;
      if attempts < cfg.maxAttempts {
        rows := rows[id := rows[id].(attempts := attempts)];
        MissedOk(cfg, start, id, phone, now, View());
        return Err(WrongCode);
      }
      rows := rows[id := rows[id].(attempts := attempts, consumedAt := Some(now))];
      CountedOk(cfg, start, id, attempts, Some(now), View());
      RetireLiveOtps(phone, now);
      MissedOk(cfg, start, id, phone, now, View());
      r := Err(Locked);
    }
  }

  function Counted(db: Db, id: RowId, attempts: nat, consumedAt: Option<int>): Db
    requires id in db.rows
  {
    db.(rows := db.rows[id := db.rows[id].(attempts := attempts, consumedAt := consumedAt)])
  }

  /** What a wrong code leaves: one attempt more, and at the maximum every code of the user consumed. */
  function Missed(cfg: Config, db: Db, id: RowId, phone: Phone, now: int): Db
    requires id in db.rows
  {
    var attempts := db.rows[id].attempts + 1;
    if attempts < cfg.maxAttempts then Counted(db, id, attempts, db.rows[id].consumedAt)
    else Retire(Counted(db, id, attempts, Some(now)), phone, now)
  }

  lemma RetireLeavesNone(db: Db, phone: Phone, at: int, x: RowId)
    requires x in db.rows && db.rows[x].phone == phone
    ensures !IsOpen(Retire(db, phone, at).rows[x])
  {
  }

  lemma CountedOk(cfg: Config, db: Db, id: RowId, attempts: nat, consumedAt: Option<int>, after: Db)
    requires DbOk(cfg, db) && id in db.rows && after == Counted(db, id, attempts, consumedAt)
    requires if attempts >= cfg.maxAttempts then consumedAt.Some? else consumedAt == db.rows[id].consumedAt
    ensures DbOk(cfg, after) && Evolves(db, after)
  {
    MissOk(cfg, db, id, attempts, consumedAt);
  }

  lemma RetiredOk(cfg: Config, db: Db, counted: Db, phone: Phone, now: int, after: Db)
    requires DbOk(cfg, counted) && Evolves(db, counted) && after == Retire(counted, phone, now)
    ensures DbOk(cfg, after) && Evolves(db, after)
  {
    RetireOk(cfg, counted, phone, now);
    EvolvesTransitively(db, counted, after);
  }

  lemma LockoutRetires(db: Db, id: RowId, attempts: nat, phone: Phone, now: int, after: Db)
    requires id in db.rows && after == Retire(Counted(db, id, attempts, Some(now)), phone, now)
    ensures forall x | x in db.rows && db.rows[x].phone == phone :: x in after.rows && !IsOpen(after.rows[x])
  {
    forall x | x in db.rows && db.rows[x].phone == phone ensures x in after.rows && !IsOpen(after.rows[x]) {
      RetireLeavesNone(Counted(db, id, attempts, Some(now)), phone, now, x);
    }
  }

  lemma LockoutOk(cfg: Config, db: Db, id: RowId, attempts: nat, phone: Phone, now: int, after: Db)
    requires DbOk(cfg, db) && id in db.rows && attempts >= cfg.maxAttempts
    requires after == Retire(Counted(db, id, attempts, Some(now)), phone, now)
    ensures DbOk(cfg, after) && Evolves(db, after)
    ensures forall x | x in db.rows && db.rows[x].phone == phone :: x in after.rows && !IsOpen(after.rows[x])
  {
    var counted := Counted(db, id, attempts, Some(now));
    CountedOk(cfg, db, id, attempts, Some(now), counted);
    RetiredOk(cfg, db, counted, phone, now, after);
    LockoutRetires(db, id, attempts, phone, now, after);
  }

  lemma MissedOk(cfg: Config, db: Db, id: RowId, phone: Phone, now: int, after: Db)
    requires cfg.Valid() && DbOk(cfg, db) && id in db.rows && after == Missed(cfg, db, id, phone, now)
    ensures DbOk(cfg, after) && Evolves(db, after)
    ensures db.rows[id].attempts + 1 >= cfg.maxAttempts ==>
              forall x | x in db.rows && db.rows[x].phone == phone :: x in after.rows && !IsOpen(after.rows[x])
  {
    var attempts := db.rows[id].attempts + 1;
    if attempts >= cfg.maxAttempts {
      LockoutOk(cfg, db, id, attempts, phone, now, after);
    } else {
      CountedOk(cfg, db, id, attempts, db.rows[id].consumedAt, after);
    }
  }
}
