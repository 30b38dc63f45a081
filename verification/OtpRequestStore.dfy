/**
 The OTP and job tables as the auth service and the notification queue update them in
 place, and one request served without interruption.
 */
module OtpRequestStore {
  import opened Wrappers
  import opened OtpRequests
  import opened OtpRequestProofs

  datatype RequestError = KeyConflict | StillProcessing | NotQueued | Limited

  class OtpTables {
    const cfg: Config
    var rows: map<RowId, OtpRow>
    var jobs: map<Key, Job>
    ghost var issued: set<RowId>

    ghost function View(): Db
      reads this
    {
      Db(rows, jobs, issued)
    }

    ghost predicate Valid()
      reads this
    {
      DbOk(cfg, View())
    }

    constructor (cfg: Config)
      ensures Valid() && View() == Db(map[], map[], {}) && this.cfg == cfg
    {
      this.cfg := cfg;
      rows, jobs, issued := map[], map[], {};
    }

    method FindByKey(key: Key) returns (found: Option<RowId>)
      ensures found.Some? ==> found.value in rows && rows[found.value].key == key
      ensures found.None? ==> !KeyTaken(View(), key)
    {
      if id :| id in rows && rows[id].key == key { found := Some(id); } else { found := None; }
    }

    method IsReferenced(id: RowId) returns (b: bool)
      ensures b == Referenced(View(), id)
    {
      b := exists key | key in jobs :: jobs[key].otpCodeId == id;
    }

    /** Adds the job for a row. Meeting its own earlier job counts as success; any other conflict is an error. */
    method EnqueueOtpRequested(payload: Payload, id: RowId, key: Key) returns (queued: bool)
      requires Valid() && Knows(View(), id, payload.phone, key, payload.code)
      modifies this
      ensures Valid() && Evolves(old(View()), View()) && rows == old(rows) && issued == old(issued)
      ensures queued <==> IsEnqueued(View(), key, id)
      ensures jobs == old(jobs) || (key !in old(jobs) && jobs == old(jobs)[key := Job(id, Some(payload))])
      ensures key !in old(jobs) && !Referenced(old(View()), id) && id in rows ==> queued
    {
      SameIsEvolution(cfg, View());
      var referenced := IsReferenced(id);
      if key in jobs || referenced {
        queued := key in jobs && jobs[key].otpCodeId == id;
      } else if id !in rows {
        queued := false;
      } else {
        EnqueueOk(cfg, View(), key, id, payload);
        jobs := jobs[key := Job(id, Some(payload))];
        queued := true;
      }
    }

    method MarkRequestCompleted(id: RowId, now: int)
      requires Valid() && id in rows && IsEnqueued(View(), rows[id].key, id)
      modifies this
      ensures Valid() && Evolves(old(View()), View()) && View() == Complete(old(View()), id, now)
    {
      CompleteOk(cfg, View(), id, now);
      rows := rows[id := rows[id].(completedAt := Some(now))];
    }

    /**
     Looks for an earlier request with this key. `Ok(None)` means that none is left to wait for: there was none,
     or an abandoned one was just removed.
     */
    method ReplayOtpRequest(phone: Phone, key: Key, now: int) returns (r: Result<Option<Option<Code>>, RequestError>)
      requires Valid()
      modifies this
      ensures Valid() && Evolves(old(View()), View()) && jobs == old(jobs) && issued == old(issued)
      ensures r.Ok? && r.value.Some? ==> key in jobs && MayReply(View(), phone, key, jobs[key].otpCodeId, r.value.value)
      ensures r == Ok(None) <==> !KeyTaken(Freed(old(View()), phone, key, now), key)
      ensures r == Ok(None) ==> View() == Freed(old(View()), phone, key, now) && key !in jobs
      ensures forall id | id in old(rows) && old(rows)[id].key == key && !IsAbandoned(old(View()), id, phone, now) ::
                && (old(rows)[id].phone != phone ==> r == Err(KeyConflict) && View() == old(View()))
                && (old(rows)[id].phone == phone && old(rows)[id].completedAt.Some? ==>
                      r == Ok(Some(old(rows)[id].developmentOtp)) && View() == old(View()))
                && (old(rows)[id].phone == phone && old(rows)[id].completedAt.None? && key in old(jobs) ==>
                      r == Ok(Some(old(rows)[id].developmentOtp)) && View() == Complete(old(View()), id, now))
                && (old(rows)[id].phone == phone && old(rows)[id].completedAt.None? && key !in old(jobs) ==>
                      r == Err(StillProcessing) && View() == old(View()))
    {
      SameIsEvolution(cfg, View());
      var found := FindByKey(key);
      if found.None? {
        FreeKeyHasNoJob(cfg, View(), key);
        NothingToFree(View(), phone, key, now);
        return Ok(None);
      }
      var id := found.value;
      FreedIfAbandoned(cfg, View(), id, phone, now);
      var existing := rows[id];
      if existing.phone != phone { return Err(KeyConflict); }
      if existing.completedAt.Some? {
        assert MayReply(View(), phone, key, id, existing.developmentOtp);
        return Ok(Some(existing.developmentOtp));
      }
      if IsEnqueued(Db(rows, jobs, {}), key, id) {
        CompleteOk(cfg, View(), id, now);
        MarkRequestCompleted(id, now);
        return Ok(Some(existing.developmentOtp));
      }
      if existing.createdAt <= now - PROCESSING_TIMEOUT_MS {
        OnlyOwnJobRefers(cfg, View(), id);
        DeleteOk(cfg, View(), id);
        rows := rows - {id};
        FreeKeyHasNoJob(cfg, View(), key);
        return Ok(None);
      }
      return Err(StillProcessing);
    }

    method InsertRequest(newId: RowId, row: OtpRow)
      requires Valid() && newId !in issued && !KeyTaken(View(), row.key)
      requires row.completedAt.None? && row.developmentOtp == Exposed(cfg, row.codeHash.code)
      modifies this
      ensures Valid() && Evolves(old(View()), View()) && !Referenced(View(), newId)
      ensures View() == Inserted(old(View()), newId, row)
    {
      InsertOk(cfg, View(), newId, row);
      NotReferenced(cfg, View(), newId);
      rows := rows[newId := row];
      issued := issued + {newId};
    }

    method DeleteRequest(id: RowId)
      requires Valid() && id in rows && !Referenced(View(), id)
      modifies this
      ensures Valid() && Evolves(old(View()), View()) && View() == Delete(old(View()), id)
    {
      DeleteOk(cfg, View(), id);
      rows := rows - {id};
    }

    method PublishCode(payload: Payload, id: RowId, key: Key, now: int)
      requires Valid() && Knows(View(), id, payload.phone, key, payload.code)
      requires id in rows && key !in jobs && !Referenced(View(), id)
      modifies this
      ensures Valid() && Evolves(old(View()), View()) && issued == old(issued)
      ensures jobs == old(jobs)[key := Job(id, Some(payload))]
      ensures rows == old(rows)[id := old(rows)[id].(completedAt := Some(now))]
    {
      ghost var before := View();
      var _ := EnqueueOtpRequested(payload, id, key);
      ghost var published := View();
      MarkRequestCompleted(id, now);
      EvolvesTransitively(before, published, View());
    }

    /** The second half of a request: insert the row, record the event, publish, complete. */
    method SendNewCode(phone: Phone, key: Key, newId: RowId, code: Code, eventFails: bool, now: int)
      returns (r: Result<Option<Code>, RequestError>)
      requires Valid() && newId !in issued && !KeyTaken(View(), key) && key !in jobs
      modifies this
      ensures Valid() && Evolves(old(View()), View())
      ensures eventFails ==> r == Err(NotQueued) && View() == old(View()).(issued := issued)
      ensures !eventFails ==>
                && r == Ok(Exposed(cfg, code)) && jobs == old(jobs)[key := Job(newId, Some(Payload(phone, code)))]
                && rows == old(rows)[newId := OtpRow(phone, key, Bcrypt(code), Exposed(cfg, code), now, Some(now))]
    {
      ghost var before := View();
      InsertRequest(newId, OtpRow(phone, key, Bcrypt(code), Exposed(cfg, code), now, None));
      ghost var inserted := View();
      if eventFails {
        DeleteRequest(newId);
        InsertedThenDeleted(before, newId, inserted.rows[newId]);
        EvolvesTransitively(before, inserted, View());
        return Err(NotQueued);
      }
      PublishCode(Payload(phone, code), newId, key, now);
      EvolvesTransitively(before, inserted, View());
      r := Ok(Exposed(cfg, code));
    }

    /**
     One whole request: replay, limits, insert, publish, complete. A success always leaves a job behind that
     matches the reply; a request that is limited, or whose event cannot be recorded, leaves no row of its own;
     a refused one changes nothing.
     */
    method RequestOtp(phone: Phone, key: Key, newId: RowId, code: Code, limited: bool, eventFails: bool, now: int)
      returns (r: Result<Option<Code>, RequestError>)
      requires Valid() && newId !in issued
      modifies this
      ensures Valid() && Evolves(old(View()), View())
      ensures r.Ok? ==> key in jobs && MayReply(View(), phone, key, jobs[key].otpCodeId, r.value)
      ensures forall id | id in old(rows) && old(rows)[id].key == key && old(rows)[id].phone == phone
              && key in old(jobs) ::
                r == Ok(old(rows)[id].developmentOtp)
                && View() == if old(rows)[id].completedAt.Some? then old(View()) else Complete(old(View()), id, now)
      ensures r == Err(KeyConflict) <==> exists id ::
          id in old(rows) && old(rows)[id].key == key && old(rows)[id].phone != phone
      ensures r == Err(StillProcessing) <==> exists id ::
          id in old(rows) && old(rows)[id].key == key && InProgress(old(View()), id, phone, now)
      ensures r == Err(KeyConflict) || r == Err(StillProcessing) ==> View() == old(View())
      ensures var (free, before) := (!KeyTaken(Freed(old(View()), phone, key, now), key),
                                     Freed(old(View()), phone, key, now));
              && (free && limited ==> r == Err(Limited) && View() == before)
              && (free && !limited && eventFails ==> r == Err(NotQueued) && View() == before.(issued := issued))
              && (free && !limited && !eventFails ==>
                    r == Ok(Exposed(cfg, code)) && jobs == old(jobs)[key := Job(newId, Some(Payload(phone, code)))]
                    && rows == before.rows[newId := OtpRow(phone, key, Bcrypt(code), Exposed(cfg, code), now,
                                                           Some(now))])
    {
      var replay := ReplayOtpRequest(phone, key, now);
      match replay {
        case Err(error) => return Err(error);
        case Ok(reply) =>
          if reply.Some? { return Ok(reply.value); }
      }
      if limited { return Err(Limited); }
      ghost var start, before := old(View()), View();
      r := SendNewCode(phone, key, newId, code, eventFails, now);
      EvolvesTransitively(start, before, View());
    }
  }

  function Inserted(db: Db, id: RowId, row: OtpRow): Db {
    db.(rows := db.rows[id := row], issued := db.issued + {id})
  }

  lemma InsertedThenDeleted(db: Db, id: RowId, row: OtpRow)
    requires id !in db.rows
    ensures Delete(Inserted(db, id, row), id) == db.(issued := db.issued + {id})
  {
    assert db.rows[id := row] - {id} == db.rows;
  }

  /** An unfinished request of this phone that has no job yet. */
  predicate IsUnsent(db: Db, id: RowId, phone: Phone)
    requires id in db.rows
  {
    db.rows[id].phone == phone && db.rows[id].completedAt.None? && db.rows[id].key !in db.jobs
  }

  /** Such a request that is too young to take over ... */
  predicate InProgress(db: Db, id: RowId, phone: Phone, now: int)
    requires id in db.rows
  {
    IsUnsent(db, id, phone) && db.rows[id].createdAt > now - PROCESSING_TIMEOUT_MS
  }

  /** ... and one that is old enough. */
  predicate IsAbandoned(db: Db, id: RowId, phone: Phone, now: int)
    requires id in db.rows
  {
    IsUnsent(db, id, phone) && db.rows[id].createdAt <= now - PROCESSING_TIMEOUT_MS
  }

  /** The tables without an abandoned request under this key. */
  function Freed(db: Db, phone: Phone, key: Key, now: int): Db {
    db.(rows := map id | id in db.rows && !(db.rows[id].key == key && IsAbandoned(db, id, phone, now)) :: db.rows[id])
  }

  lemma NothingToFree(db: Db, phone: Phone, key: Key, now: int)
    requires !KeyTaken(db, key)
    ensures Freed(db, phone, key, now) == db
  {
    assert Freed(db, phone, key, now).rows == db.rows;
  }

  lemma FreedIfAbandoned(cfg: Config, db: Db, id: RowId, phone: Phone, now: int)
    requires DbOk(cfg, db) && id in db.rows
    ensures var (key, freed) := (db.rows[id].key, Freed(db, phone, db.rows[id].key, now));
            && (KeyTaken(freed, key) <==> !IsAbandoned(db, id, phone, now))
            && freed == if IsAbandoned(db, id, phone, now) then Delete(db, id) else db
  {
    var freed := Freed(db, phone, db.rows[id].key, now);
    if IsAbandoned(db, id, phone, now) {
      assert freed.rows == db.rows - {id};
    } else {
      assert freed.rows == db.rows;
    }
  }

  lemma FreeKeyHasNoJob(cfg: Config, db: Db, key: Key)
    requires DbOk(cfg, db) && !KeyTaken(db, key)
    ensures key !in db.jobs
  {
    forall other | other in db.jobs ensures other != key { assert JobMatches(db, other); }
  }

  lemma OnlyOwnJobRefers(cfg: Config, db: Db, id: RowId)
    requires DbOk(cfg, db) && id in db.rows && !IsEnqueued(db, db.rows[id].key, id)
    ensures !Referenced(db, id)
  {
    forall key | key in db.jobs ensures db.jobs[key].otpCodeId != id { assert JobMatches(db, key); }
  }

  lemma NotReferenced(cfg: Config, db: Db, id: RowId)
    requires DbOk(cfg, db) && id !in db.issued
    ensures !Referenced(db, id)
  {
    forall key | key in db.jobs ensures db.jobs[key].otpCodeId != id { assert JobMatches(db, key); }
  }
}
