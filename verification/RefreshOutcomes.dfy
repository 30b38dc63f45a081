/** What single calls of the refresh-token protocol come to, in any run. */
module RefreshOutcomes {
  import opened Wrappers
  import opened RefreshFamilies
  import opened RefreshFamilyProofs
  import opened RefreshFamilyTheorems

  // ----- a call that ends a family -----

  /** An unusable row of the family has this token. */
  ghost predicate IsSpent(rows: Rows, token: TokenHash, family: FamilyId) {
    exists id :: id in rows && rows[id].tokenHash == token && rows[id].family == family && rows[id].revokedAt.Some?
  }

  /** A refresh that has found, or is bound to find, that its token was used up. */
  ghost predicate EndsReused(s: Sys, k: Worker, family: FamilyId) {
    match k
    case RefreshStart(token, _) => IsSpent(s.rows, token, family)
    case RefreshRead(_, snap, _) => snap.family == family && snap.revokedAt.Some?
    case RefreshClaim(id, snap, _) => snap.family == family && id in s.rows && s.rows[id].revokedAt.Some?
    case RefreshLost(id, snap) => snap.family == family && id in s.rows && s.rows[id].revokedAt.Some?
    case RefreshReused(f) => f == family
    case RefreshAged(f) => f == family
    case _ => HasReturned(k) && (k.Ended? || Dead(s.rows, family))
  }

  /** A device logout on its way to end this family. */
  ghost predicate EndsLogout(s: Sys, k: Worker, family: FamilyId) {
    match k
    case LogoutStart(token) =>
      exists id :: id in s.rows && s.rows[id].tokenHash == token && s.rows[id].family == family
    case LogoutRead(f) => f == family
    case _ => HasReturned(k) && (k.Ended? || Dead(s.rows, family))
  }

  ghost predicate Ends(s: Sys, k: Worker, family: FamilyId) {
    EndsReused(s, k, family) || EndsLogout(s, k, family)
  }

  lemma RowsStay(cfg: Config, s: Sys, e: Event, s': Sys, id: RowId)
    requires cfg.Valid() && Step(cfg, s, e, s') && id in s.rows
    ensures id in s'.rows && s'.rows[id].tokenHash == s.rows[id].tokenHash && s'.rows[id].family == s.rows[id].family
    ensures s.rows[id].revokedAt.Some? ==> s'.rows[id].revokedAt.Some?
  {
    if e.Advance? {
      var k, c := s.workers[e.w], e.choice;
      if !Commits(cfg, s.rows, s.clock, k, c) {
        QuietlyOnlyRevokes(cfg, s.rows, s.clock, k, c);
      } else if k.SignInStart? {
        RoomyOnlyRevokes(s.rows, k.user, k.device, c.evicted, s.clock);
      }
    }
  }

  lemma WaitingStillEnds(cfg: Config, s: Sys, e: Event, s': Sys, k: Worker, family: FamilyId)
    requires cfg.Valid() && Step(cfg, s, e, s') && Ends(s, k, family)
    ensures Ends(s', k, family)
  {
    if k.RefreshStart? || k.LogoutStart? {
      var id :| id in s.rows && s.rows[id].tokenHash == k.token && s.rows[id].family == family
                && (k.RefreshStart? ==> s.rows[id].revokedAt.Some?);
      RowsStay(cfg, s, e, s', id);
      assert id in s'.rows && s'.rows[id].tokenHash == k.token;
    }
    if k.RefreshClaim? || k.RefreshLost? { RowsStay(cfg, s, e, s', k.id); }
    if HasReturned(k) && !k.Ended? { StepKeepsDead(cfg, s, e, s', family); }
  }

  lemma SpentIsFound(rows: Rows, token: TokenHash, found: RowId, id: RowId)
    requires UniqueTokens(rows) && found in rows && id in rows
    requires rows[found].tokenHash == token == rows[id].tokenHash
    ensures found == id
  {
  }

  lemma FamilyOfRead(s: Sys, k: Worker, family: FamilyId)
    requires WorkerOk(s.rows, k) && EndsReused(s, k, family) && (k.RefreshRead? || k.RefreshClaim? || k.RefreshLost?)
    ensures k.id in s.rows && s.rows[k.id].family == family && HasRows(s.rows, family)
  {
  }

  /** The call's own step: it goes on towards ending the family. */
  lemma QuietStillEnds(cfg: Config, s: Sys, k: Worker, c: Choice, family: FamilyId, s': Sys)
    requires Inv(cfg, s) && WorkerOk(s.rows, k) && Ends(s, k, family) && !HasReturned(k)
    requires !Commits(cfg, s.rows, s.clock, k, c)
    requires k.RefreshStart? || k.LogoutStart? ==> Finds(s.rows, k.token, c.found)
    requires s'.rows == Quietly(cfg, s.rows, s.clock, k, c).0
    ensures Ends(s', Quietly(cfg, s.rows, s.clock, k, c).1, family)
  {
    if k.RefreshStart? || k.LogoutStart? {
      var id :| id in s.rows && s.rows[id].tokenHash == k.token && s.rows[id].family == family
                && (k.RefreshStart? ==> s.rows[id].revokedAt.Some?);
      if c.found.Some? { SpentIsFound(s.rows, k.token, c.found.value, id); }
    } else if k.RefreshReused? || k.RefreshAged? || k.LogoutRead? {
      RevokedFamilyIsDead(s.rows, family, s.clock);
    } else {
      FamilyOfRead(s, k, family);
    }
  }

  lemma StepStillEnds(cfg: Config, s: Sys, e: Event, s': Sys, w: WorkerId, family: FamilyId)
    requires cfg.Valid() && Inv(cfg, s) && Step(cfg, s, e, s') && w in s.workers && Ends(s, s.workers[w], family)
    ensures w in s'.workers && Ends(s', s'.workers[w], family)
  {
    var k := s.workers[w];
    if e.Advance? && e.w == w {
      assert WorkerOk(s.rows, k);
      assert !Commits(cfg, s.rows, s.clock, k, e.choice);
      QuietStillEnds(cfg, s, k, e.choice, family, s');
    } else if s'.workers[w] == k {
      WaitingStillEnds(cfg, s, e, s', k, family);
    }
  }

  lemma {:induction false} StillEnds(cfg: Config, run: seq<Sys>, i: nat, j: nat, w: WorkerId, family: FamilyId)
    requires cfg.Valid() && IsRun(cfg, run) && i <= j < |run|
    requires w in run[i].workers && Ends(run[i], run[i].workers[w], family)
    ensures w in run[j].workers && Ends(run[j], run[j].workers[w], family)
    decreases j
  {
    if i == j {
    } else {
      StillEnds(cfg, run, i, j - 1, w, family);
      RunKeepsInv(cfg, run, j - 1);
      assert TakesStep(cfg, run, j - 1);
      var e :| Step(cfg, run[j - 1], e, run[j]);
      StepStillEnds(cfg, run[j - 1], e, run[j], w, family);
    }
  }

  ghost predicate Returns(run: seq<Sys>, j: nat, w: WorkerId)
    requires j < |run|
  {
    w in run[j].workers && HasReturned(run[j].workers[w])
  }

  /** When the call has returned without being cut short, the family is ended, and stays so. */
  ghost predicate FamilyEnded(run: seq<Sys>, j: nat, w: WorkerId, family: FamilyId)
    requires j < |run| && Returns(run, j, w)
  {
    run[j].workers[w].Ended? || forall m | j <= m < |run| :: Dead(run[m].rows, family)
  }

  lemma EndedForGood(cfg: Config, run: seq<Sys>, i: nat, j: nat, w: WorkerId, family: FamilyId)
    requires cfg.Valid() && IsRun(cfg, run) && i <= j < |run| && Returns(run, j, w)
    requires w in run[i].workers && Ends(run[i], run[i].workers[w], family)
    ensures FamilyEnded(run, j, w, family)
  {
    StillEnds(cfg, run, i, j, w, family);
    if !run[j].workers[w].Ended? {
      forall m | j <= m < |run| ensures Dead(run[m].rows, family) { DeadStaysDead(cfg, run, j, m, family); }
    }
  }

  /** Presenting a token that was used or revoked ends its family before the call answers. */
  lemma ReuseEndsFamily(cfg: Config, run: seq<Sys>, i: nat, j: nat, w: WorkerId, id: RowId)
    requires cfg.Valid() && IsRun(cfg, run) && i <= j < |run| && Returns(run, j, w)
    requires w in run[i].workers && run[i].workers[w].RefreshStart?
    requires id in run[i].rows && run[i].rows[id].revokedAt.Some?
    requires run[i].rows[id].tokenHash == run[i].workers[w].token
    ensures FamilyEnded(run, j, w, run[i].rows[id].family)
  {
    assert IsSpent(run[i].rows, run[i].workers[w].token, run[i].rows[id].family);
    EndedForGood(cfg, run, i, j, w, run[i].rows[id].family);
  }

  /** So does a refresh that found its token usable and was beaten to it by another call. */
  lemma BeatenRefreshEndsFamily(cfg: Config, run: seq<Sys>, i: nat, j: nat, w: WorkerId)
    requires cfg.Valid() && IsRun(cfg, run) && i <= j < |run| && Returns(run, j, w)
    requires w in run[i].workers && run[i].workers[w].RefreshClaim?
    requires run[i].workers[w].id in run[i].rows && run[i].rows[run[i].workers[w].id].revokedAt.Some?
    ensures FamilyEnded(run, j, w, run[i].rows[run[i].workers[w].id].family)
  {
    RunKeepsInv(cfg, run, i);
    assert WorkerOk(run[i].rows, run[i].workers[w]);
    EndedForGood(cfg, run, i, j, w, run[i].rows[run[i].workers[w].id].family);
  }

  /** A refresh that has yet to read, or to claim, this row. */
  predicate Contends(rows: Rows, k: Worker, id: RowId)
    requires id in rows
  {
    (k.RefreshStart? && k.token == rows[id].tokenHash) || (k.RefreshClaim? && k.id == id)
  }

  /**
   Once one refresh of a token has succeeded, any other that has yet to read or claim its row ends the family,
   the winner's successor included.
   */
  lemma LoserRevokesSuccessor(cfg: Config, run: seq<Sys>, i: nat, j: nat, winner: WorkerId, loser: WorkerId)
    requires cfg.Valid() && IsRun(cfg, run) && i <= j < |run| && Returns(run, j, loser)
    requires winner in run[i].workers && run[i].workers[winner].RefreshOk?
    requires run[i].workers[winner].id in run[i].rows
    requires loser in run[i].workers && Contends(run[i].rows, run[i].workers[loser], run[i].workers[winner].id)
    ensures var (id, newId) := (run[i].workers[winner].id, run[i].workers[winner].newId);
            && newId in run[i].rows && run[i].rows[newId].family == run[i].rows[id].family
            && FamilyEnded(run, j, loser, run[i].rows[id].family)
  {
    RunKeepsInv(cfg, run, i);
    var s := run[i];
    var id, newId := s.workers[winner].id, s.workers[winner].newId;
    assert WorkerOk(s.rows, s.workers[winner]);
    ReplacedIsRevoked(cfg, s, id);
    ChainedAt(s.rows, s.chains, s.rows[id].family);
    SuccessorSharesFamily(s.rows, s.rows[id].family, s.chains[s.rows[id].family], id, newId);
    if s.workers[loser].RefreshStart? {
      ReuseEndsFamily(cfg, run, i, j, loser, id);
    } else {
      BeatenRefreshEndsFamily(cfg, run, i, j, loser);
    }
  }

  /** A device logout ends the family of the token it was given. */
  lemma LogoutEndsFamily(cfg: Config, run: seq<Sys>, i: nat, j: nat, w: WorkerId, id: RowId)
    requires cfg.Valid() && IsRun(cfg, run) && i <= j < |run| && Returns(run, j, w)
    requires w in run[i].workers && run[i].workers[w].LogoutStart?
    requires id in run[i].rows && run[i].rows[id].tokenHash == run[i].workers[w].token
    ensures FamilyEnded(run, j, w, run[i].rows[id].family)
  {
    EndedForGood(cfg, run, i, j, w, run[i].rows[id].family);
  }

  // ----- what the checks of a refresh decide -----

  predicate Moves(run: seq<Sys>, i: nat, w: WorkerId)
    requires i + 1 < |run|
  {
    w in run[i].workers && w in run[i + 1].workers && run[i + 1].workers[w] != run[i].workers[w]
  }

  /**
   A refresh that finds its token unused and unexpired, but its family at or beyond the maximum age, ends the
   family.
   */
  lemma AgedRefreshEndsFamily(cfg: Config, run: seq<Sys>, i: nat, j: nat, w: WorkerId)
    requires cfg.Valid() && IsRun(cfg, run) && i < j < |run| && Moves(run, i, w) && Returns(run, j, w)
    requires run[i].workers[w].RefreshRead?
    requires var snap := run[i].workers[w].snap;
             snap.revokedAt.None? && snap.expiresAt > run[i].clock && snap.familyCreatedAt + cfg.maxAge <= run[i].clock
    ensures FamilyEnded(run, j, w, run[i].workers[w].snap.family)
  {
    assert TakesStep(cfg, run, i);
    var e :| Step(cfg, run[i], e, run[i + 1]);
    assert run[i + 1].workers[w].Ended? || run[i + 1].workers[w] == RefreshAged(run[i].workers[w].snap.family);
    EndedForGood(cfg, run, i + 1, j, w, run[i].workers[w].snap.family);
  }

  /** A refresh that was refused because of an expired row, a wrong device, or a claim that came too late. */
  ghost predicate RefusedAlone(s: Sys, k: Worker, id: RowId) {
    match k
    case RefreshExpired(x) => x == id
    case _ => k.Ended? || (k.RefreshRejected? && id in s.rows && s.rows[id].revokedAt.Some?)
  }

  lemma StepStaysRefused(cfg: Config, s: Sys, e: Event, s': Sys, w: WorkerId, id: RowId)
    requires cfg.Valid() && Inv(cfg, s) && Step(cfg, s, e, s') && w in s.workers && RefusedAlone(s, s.workers[w], id)
    ensures w in s'.workers && RefusedAlone(s', s'.workers[w], id)
  {
    assert WorkerOk(s.rows, s.workers[w]);
    if id in s.rows { RowsStay(cfg, s, e, s', id); }
  }

  lemma {:induction false} StaysRefused(cfg: Config, run: seq<Sys>, i: nat, j: nat, w: WorkerId, id: RowId)
    requires cfg.Valid() && IsRun(cfg, run) && i <= j < |run|
    requires w in run[i].workers && RefusedAlone(run[i], run[i].workers[w], id)
    ensures w in run[j].workers && RefusedAlone(run[j], run[j].workers[w], id)
    decreases j
  {
    if i == j {
    } else {
      StaysRefused(cfg, run, i, j - 1, w, id);
      RunKeepsInv(cfg, run, j - 1);
      assert TakesStep(cfg, run, j - 1);
      var e :| Step(cfg, run[j - 1], e, run[j]);
      StepStaysRefused(cfg, run[j - 1], e, run[j], w, id);
    }
  }

  lemma FindsExpired(cfg: Config, run: seq<Sys>, i: nat, w: WorkerId)
    requires cfg.Valid() && IsRun(cfg, run) && i + 1 < |run| && Moves(run, i, w) && run[i].workers[w].RefreshRead?
    requires run[i].workers[w].snap.revokedAt.None? && run[i].workers[w].snap.expiresAt <= run[i].clock
    ensures RefusedAlone(run[i + 1], run[i + 1].workers[w], run[i].workers[w].id)
  {
    assert TakesStep(cfg, run, i);
    var e :| Step(cfg, run[i], e, run[i + 1]);
  }

  /** A refresh that finds its token unused but expired is refused, and revokes the row. */
  lemma ExpiredRefreshRevokesRow(cfg: Config, run: seq<Sys>, i: nat, j: nat, w: WorkerId)
    requires cfg.Valid() && IsRun(cfg, run) && i < j < |run| && Moves(run, i, w) && Returns(run, j, w)
    requires run[i].workers[w].RefreshRead?
    requires run[i].workers[w].snap.revokedAt.None? && run[i].workers[w].snap.expiresAt <= run[i].clock
    ensures var id := run[i].workers[w].id;
            run[j].workers[w].Ended?
            || (run[j].workers[w].RefreshRejected? && id in run[j].rows && run[j].rows[id].revokedAt.Some?)
  {
    FindsExpired(cfg, run, i, w);
    StaysRefused(cfg, run, i + 1, j, w, run[i].workers[w].id);
  }

  /** A refresh that finds its token usable, but bound to another device, is refused and changes nothing. */
  lemma WrongDeviceIsRefused(cfg: Config, run: seq<Sys>, i: nat, w: WorkerId)
    requires cfg.Valid() && IsRun(cfg, run) && i + 1 < |run| && Moves(run, i, w) && run[i].workers[w].RefreshRead?
    requires var snap := run[i].workers[w].snap;
             && snap.revokedAt.None? && snap.expiresAt > run[i].clock
             && snap.familyCreatedAt + cfg.maxAge > run[i].clock
             && snap.device.Some? && run[i].workers[w].device != snap.device
    ensures run[i + 1].rows == run[i].rows
    ensures run[i + 1].workers[w].RefreshRejected? || run[i + 1].workers[w].Ended?
  {
    assert TakesStep(cfg, run, i);
    var e :| Step(cfg, run[i], e, run[i + 1]);
  }

  /** A claim that failed although the row is still unused, because it has run out meanwhile, revokes nothing. */
  lemma LateClaimIsRefused(cfg: Config, run: seq<Sys>, i: nat, w: WorkerId)
    requires cfg.Valid() && IsRun(cfg, run) && i + 1 < |run| && Moves(run, i, w) && run[i].workers[w].RefreshLost?
    requires Live(run[i].rows, run[i].workers[w].id)
    ensures run[i + 1].rows == run[i].rows
    ensures run[i + 1].workers[w].RefreshRejected? || run[i + 1].workers[w].Ended?
  {
    assert TakesStep(cfg, run, i);
    var e :| Step(cfg, run[i], e, run[i + 1]);
  }

  // ----- a refresh that succeeds -----

  /** What a successful refresh found and left: nothing but its row and the successor changed. */
  lemma RotationEffect(cfg: Config, run: seq<Sys>, i: nat, w: WorkerId)
    requires cfg.Valid() && IsRun(cfg, run) && i + 1 < |run| && Moves(run, i, w) && run[i + 1].workers[w].RefreshOk?
    ensures var (k, before, after, now) := (run[i].workers[w], run[i].rows, run[i + 1].rows, run[i].clock);
            var (id, newId) := (run[i + 1].workers[w].id, run[i + 1].workers[w].newId);
            && k.RefreshClaim? && k.id == id && id in before && newId !in before && newId in after
            && before[id].revokedAt.None? && before[id].expiresAt > now
            && before[id].familyCreatedAt + cfg.maxAge > now
            && (before[id].device.Some? ==> k.device == before[id].device)
            && after == before[id := before[id].(revokedAt := Some(now), replacedBy := Some(newId))]
                              [newId := after[newId]]
            && after[newId] == Row(before[id].user, after[newId].tokenHash, before[id].family,
                                   before[id].familyCreatedAt,
                                   if k.device.Some? then k.device else before[id].device, now + cfg.tokenLifetime,
                                   None, None)
            && forall x | x in before :: before[x].tokenHash != after[newId].tokenHash
  {
    RunKeepsInv(cfg, run, i);
    assert TakesStep(cfg, run, i);
    var e :| Step(cfg, run[i], e, run[i + 1]);
    assert WorkerOk(run[i].rows, run[i].workers[w]);
    if e.Advance? && !Commits(cfg, run[i].rows, run[i].clock, run[i].workers[w], e.choice) {
      QuietlyOnlyRevokes(cfg, run[i].rows, run[i].clock, run[i].workers[w], e.choice);
    }
  }

  /** From any reachable state, a usable token presented by its device is rotated, when nothing intervenes. */
  lemma UsableTokenRotates(cfg: Config, run: seq<Sys>, id: RowId, device: Option<Device>, w: WorkerId, newId: RowId,
                           newHash: TokenHash)
    returns (more: seq<Sys>)
    requires cfg.Valid() && IsRun(cfg, run) && w !in run[|run| - 1].workers
    requires var s := run[|run| - 1];
             && id in s.rows && s.rows[id].revokedAt.None? && s.rows[id].expiresAt > s.clock
             && s.rows[id].familyCreatedAt + cfg.maxAge > s.clock
             && (s.rows[id].device.Some? ==> device == s.rows[id].device)
             && newId !in s.rows && forall x | x in s.rows :: s.rows[x].tokenHash != newHash
    ensures IsRun(cfg, more) && run <= more && w in more[|more| - 1].workers
    ensures more[|more| - 1].workers[w] == RefreshOk(id, newId)
    ensures newId in more[|more| - 1].rows && more[|more| - 1].rows[newId].tokenHash == newHash
    ensures id in more[|more| - 1].rows && more[|more| - 1].rows[id].replacedBy == Some(newId)
  {
    var s, c := run[|run| - 1], Choice(Some(id), newId, newHash, {}, false);
    var token, row := s.rows[id].tokenHash, s.rows[id];
    var s1 := s.(workers := s.workers[w := RefreshStart(token, device)]);
    var s2 := s1.(workers := s1.workers[w := RefreshRead(id, row, device)]);
    var s3 := s2.(workers := s2.workers[w := RefreshClaim(id, row, device)]);
    var s4 := s3.(rows := Rotate(cfg, s.rows, id, device, newId, newHash, s.clock),
                  workers := s3.workers[w := RefreshOk(id, newId)], rotatedAt := s.rotatedAt[newId := s.clock],
                  chains := s.chains[row.family := Chain(s.chains, row.family) + [newId]]);
    var one := Extended(cfg, run, Spawn(w, RefreshStart(token, device)), s1);
    var two := Extended(cfg, one, Advance(w, c), s2);
    var three := Extended(cfg, two, Advance(w, c), s3);
    more := Extended(cfg, three, Advance(w, c), s4);
  }

  // ----- a sign-in ends no more than it must -----

  lemma EvictedForRoom(cfg: Config, rows: Rows, chains: map<FamilyId, seq<RowId>>, user: UserId,
                       device: Option<Device>, evicted: set<FamilyId>, now: int, x: RowId)
    requires cfg.Valid() && Chained(rows, chains)
    requires EvictsOldest(cfg, Cleared(rows, user, device, now), user, evicted)
    requires Live(rows, x) && !Live(Roomy(rows, user, device, evicted, now), x)
    requires device.Some? ==> rows[x].device != device
    ensures |LiveFamilies(Roomy(rows, user, device, evicted, now), user)| == cfg.maxFamilies - 1
  {
    if rows[x].family in DeviceFamilies(rows, user, device) { OnDoomedDevice(rows, chains, user, device, x); }
    assert rows[x].family in evicted;
    EvictionMakesRoom(cfg, Cleared(rows, user, device, now), user, evicted, now);
  }

  lemma OneMoreFamily(rows: Rows, newId: RowId, row: Row)
    requires newId !in rows && row.revokedAt.None? && !HasRows(rows, row.family)
    ensures |LiveFamilies(rows[newId := row], row.user)| == |LiveFamilies(rows, row.user)| + 1
  {
    var after := rows[newId := row];
    forall f | f in LiveFamilies(rows, row.user) + {row.family} ensures f in LiveFamilies(after, row.user) {
      if f != row.family {
        var x :| x in rows && rows[x].user == row.user && rows[x].revokedAt.None? && rows[x].family == f;
        assert x in after && after[x].user == row.user && after[x].revokedAt.None? && after[x].family == f;
      } else {
        assert after[newId].user == row.user && after[newId].revokedAt.None? && after[newId].family == f;
      }
    }
    assert LiveFamilies(after, row.user) == LiveFamilies(rows, row.user) + {row.family};
  }

  lemma NewFamilyHasNoRows(cfg: Config, run: seq<Sys>, i: nat, w: WorkerId)
    requires cfg.Valid() && IsRun(cfg, run) && i + 1 < |run|
    requires w in run[i].workers && run[i].workers[w].SignInStart?
    requires w in run[i + 1].workers && run[i + 1].workers[w].SignInDone?
    ensures !HasRows(run[i].rows, run[i].workers[w].family)
  {
    assert TakesStep(cfg, run, i);
    var e :| Step(cfg, run[i], e, run[i + 1]);
  }

  lemma RoomyHasSameRows(rows: Rows, user: UserId, device: Option<Device>, evicted: set<FamilyId>, now: int,
                         family: FamilyId)
    requires !HasRows(rows, family)
    ensures !HasRows(Roomy(rows, user, device, evicted, now), family)
  {
    RoomyOnlyRevokes(rows, user, device, evicted, now);
  }

  /** A sign-in ends a row of another device only when the user then holds as many families as is allowed. */
  lemma EvictsOnlyWhenFull(cfg: Config, run: seq<Sys>, i: nat, w: WorkerId, x: RowId)
    requires cfg.Valid() && IsRun(cfg, run) && i + 1 < |run|
    requires w in run[i].workers && run[i].workers[w].SignInStart?
    requires w in run[i + 1].workers && run[i + 1].workers[w].SignInDone?
    requires Live(run[i].rows, x) && !Live(run[i + 1].rows, x)
    requires run[i].workers[w].device.Some? ==> run[i].rows[x].device != run[i].workers[w].device
    ensures |LiveFamilies(run[i + 1].rows, run[i].workers[w].user)| == cfg.maxFamilies
  {
    var evicted := SignInCommitted(cfg, run, i, w);
    var (s, k, newId) := (run[i], run[i].workers[w], run[i + 1].workers[w].id);
    var roomy := Roomy(s.rows, k.user, k.device, evicted, s.clock);
    RoomyOnlyRevokes(s.rows, k.user, k.device, evicted, s.clock);
    EvictedForRoom(cfg, s.rows, s.chains, k.user, k.device, evicted, s.clock, x);
    NewFamilyHasNoRows(cfg, run, i, w);
    RoomyHasSameRows(s.rows, k.user, k.device, evicted, s.clock, k.family);
    OneMoreFamily(roomy, newId, run[i + 1].rows[newId]);
  }

  // ----- what may end a row -----

  /** The reason a call has for the statement it is about to execute. */
  ghost predicate HasReason(cfg: Config, s: Sys, k: Worker) {
    match k
    case RefreshReused(f) => exists id :: id in s.rows && s.rows[id].family == f && s.rows[id].revokedAt.Some?
    case RefreshExpired(id) => id in s.rows && s.rows[id].expiresAt <= s.clock
    case RefreshAged(f) =>
      exists id :: id in s.rows && s.rows[id].family == f && s.rows[id].familyCreatedAt + cfg.maxAge <= s.clock
    case _ => true
  }

  lemma RowsKeepTimes(cfg: Config, s: Sys, e: Event, s': Sys, id: RowId)
    requires cfg.Valid() && Step(cfg, s, e, s') && id in s.rows
    ensures id in s'.rows && s'.rows[id].expiresAt == s.rows[id].expiresAt
    ensures s'.rows[id].familyCreatedAt == s.rows[id].familyCreatedAt && s.clock <= s'.clock
  {
    if e.Advance? {
      var k, c := s.workers[e.w], e.choice;
      if !Commits(cfg, s.rows, s.clock, k, c) {
        QuietlyOnlyRevokes(cfg, s.rows, s.clock, k, c);
      } else if k.SignInStart? {
        RoomyOnlyRevokes(s.rows, k.user, k.device, c.evicted, s.clock);
      }
    }
  }

  lemma ReasonStays(cfg: Config, s: Sys, e: Event, s': Sys, k: Worker)
    requires cfg.Valid() && Step(cfg, s, e, s') && HasReason(cfg, s, k)
    ensures HasReason(cfg, s', k)
  {
    match k
    case RefreshReused(f) =>
      var id :| id in s.rows && s.rows[id].family == f && s.rows[id].revokedAt.Some?;
      RowsStay(cfg, s, e, s', id);
      assert id in s'.rows && s'.rows[id].family == f;
    case RefreshExpired(id) => RowsKeepTimes(cfg, s, e, s', id);
    case RefreshAged(f) =>
      var id :| id in s.rows && s.rows[id].family == f && s.rows[id].familyCreatedAt + cfg.maxAge <= s.clock;
      RowsStay(cfg, s, e, s', id);
      RowsKeepTimes(cfg, s, e, s', id);
      assert id in s'.rows && s'.rows[id].family == f;
    case _ =>
  }

  lemma OwnStepHasReason(cfg: Config, s: Sys, k: Worker, c: Choice)
    requires WorkerOk(s.rows, k) && !HasReturned(k) && !Commits(cfg, s.rows, s.clock, k, c)
    ensures var (rows, next) := Quietly(cfg, s.rows, s.clock, k, c); HasReason(cfg, s.(rows := rows), next)
  {
    if k.RefreshRead? || k.RefreshLost? { assert k.id in s.rows && s.rows[k.id].family == k.snap.family; }
  }

  lemma StepKeepsReasons(cfg: Config, s: Sys, e: Event, s': Sys, w: WorkerId)
    requires cfg.Valid() && Inv(cfg, s) && Step(cfg, s, e, s') && w in s'.workers
    requires w in s.workers ==> HasReason(cfg, s, s.workers[w])
    ensures HasReason(cfg, s', s'.workers[w])
  {
    if w in s.workers {
      assert WorkerOk(s.rows, s.workers[w]);
      if s'.workers[w] == s.workers[w] {
        ReasonStays(cfg, s, e, s', s.workers[w]);
      } else if e.Advance? && !Commits(cfg, s.rows, s.clock, s.workers[w], e.choice) {
        OwnStepHasReason(cfg, s, s.workers[w], e.choice);
      }
    }
  }

  lemma {:induction false} CallsHaveReasons(cfg: Config, run: seq<Sys>, i: nat, w: WorkerId)
    requires cfg.Valid() && IsRun(cfg, run) && i < |run| && w in run[i].workers
    ensures HasReason(cfg, run[i], run[i].workers[w])
    decreases i
  {
    assert i > 0;
    if w in run[i - 1].workers { CallsHaveReasons(cfg, run, i - 1, w); }
    RunKeepsInv(cfg, run, i - 1);
    assert TakesStep(cfg, run, i - 1);
    var e :| Step(cfg, run[i - 1], e, run[i]);
    StepKeepsReasons(cfg, run[i - 1], e, run[i], w);
  }

  /** Why a call may end this row now. */
  ghost predicate MayEnd(cfg: Config, s: Sys, k: Worker, id: RowId)
    requires id in s.rows
  {
    var row := s.rows[id];
    match k
    case RefreshClaim(x, _, _) => x == id && row.expiresAt > s.clock && row.familyCreatedAt + cfg.maxAge > s.clock
    case RefreshExpired(x) => x == id && row.expiresAt <= s.clock
    case RefreshAged(f) =>
      row.family == f
      && exists x :: x in s.rows && s.rows[x].family == f && s.rows[x].familyCreatedAt + cfg.maxAge <= s.clock
    case RefreshReused(f) =>
      row.family == f && exists x :: x in s.rows && s.rows[x].family == f && s.rows[x].revokedAt.Some?
    case LogoutRead(f) => row.family == f
    case LogoutAllStart(user) => row.user == user
    case SignInStart(user, _, _, _) => row.user == user
    case _ => false
  }

  lemma StepEndsOnlyItsOwn(cfg: Config, s: Sys, e: Event, s': Sys, id: RowId)
    requires cfg.Valid() && Step(cfg, s, e, s') && Live(s.rows, id) && !Live(s'.rows, id)
    requires e.Advance? ==> HasReason(cfg, s, s.workers[e.w])
    ensures id in s'.rows && s'.rows[id].revokedAt == Some(s.clock)
    ensures exists w :: w in s.workers && MayEnd(cfg, s, s.workers[w], id)
  {
    var k := s.workers[e.w];
    assert MayEnd(cfg, s, k, id);
  }

  /**
   A row is ended only by its own rotation or expiry, because its family grew too old, was reused or logged out,
   or by a logout from all devices or a sign-in of its user; and that is when it is recorded as revoked.
   */
  lemma RevocationHasCause(cfg: Config, run: seq<Sys>, i: nat, id: RowId)
    requires cfg.Valid() && IsRun(cfg, run) && i + 1 < |run| && Live(run[i].rows, id) && !Live(run[i + 1].rows, id)
    ensures id in run[i + 1].rows && run[i + 1].rows[id].revokedAt == Some(run[i].clock)
    ensures exists w :: w in run[i].workers && MayEnd(cfg, run[i], run[i].workers[w], id)
  {
    assert TakesStep(cfg, run, i);
    var e :| Step(cfg, run[i], e, run[i + 1]);
    if e.Advance? { CallsHaveReasons(cfg, run, i, e.w); }
    StepEndsOnlyItsOwn(cfg, run[i], e, run[i + 1], id);
  }
}
