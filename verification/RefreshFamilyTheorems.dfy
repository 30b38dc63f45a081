/** What the refresh-token protocol guarantees over whole runs, for any interleaving of calls. */
module RefreshFamilyTheorems {
  import opened Wrappers
  import opened RefreshFamilies
  import opened RefreshFamilyProofs

  // ----- one chain per family -----

  /** A family is one replacement chain of one user and one birth date; only its last row can be unrevoked. */
  lemma FamilyIsOneChain(cfg: Config, run: seq<Sys>, i: nat, family: FamilyId)
    requires cfg.Valid() && IsRun(cfg, run) && i < |run| && HasRows(run[i].rows, family)
    ensures exists c :: IsChain(run[i].rows, family, c) && InheritsAlong(cfg, run[i].rows, run[i].rotatedAt, c)
    ensures forall x, y | Live(run[i].rows, x) && Live(run[i].rows, y)
              && run[i].rows[x].family == run[i].rows[y].family == family :: x == y
  {
    RunKeepsInv(cfg, run, i);
    var s := run[i];
    ChainedAt(s.rows, s.chains, family);
    InheritedAt(cfg, s.rows, s.rotatedAt, s.chains, family);
    forall x, y | Live(s.rows, x) && Live(s.rows, y) && s.rows[x].family == s.rows[y].family == family
      ensures x == y
    {
      LiveRowIsLast(s.rows, family, s.chains[family], x);
      LiveRowIsLast(s.rows, family, s.chains[family], y);
    }
  }

  lemma NeighboursInherit(cfg: Config, rows: Rows, rotatedAt: map<RowId, int>, family: FamilyId, c: seq<RowId>,
                          id: RowId, newId: RowId)
    requires IsChain(rows, family, c) && InheritsAlong(cfg, rows, rotatedAt, c)
    requires id in rows && rows[id].family == family && rows[id].replacedBy == Some(newId)
    ensures newId in rows && newId in rotatedAt && rotatedAt[newId] < rows[newId].familyCreatedAt + cfg.maxAge
    ensures rows[newId].familyCreatedAt == rows[id].familyCreatedAt
    ensures (rows[id].device.Some? ==> rows[newId].device == rows[id].device)
  {
    assert id in c;
    var k :| 0 <= k < |c| && c[k] == id;
    var next := c[k + 1];
  }

  /**
   However often a family was rotated, no rotation happened at or beyond its maximum age, and a bound row is
   followed only by rows of its device.
   */
  lemma RotationsAreYoungAndBound(cfg: Config, run: seq<Sys>, i: nat, id: RowId, newId: RowId)
    requires cfg.Valid() && IsRun(cfg, run) && i < |run| && id in run[i].rows
    requires run[i].rows[id].replacedBy == Some(newId)
    ensures newId in run[i].rows && newId in run[i].rotatedAt
    ensures run[i].rotatedAt[newId] < run[i].rows[id].familyCreatedAt + cfg.maxAge
    ensures run[i].rows[id].device.Some? ==> run[i].rows[newId].device == run[i].rows[id].device
  {
    RunKeepsInv(cfg, run, i);
    var s, family := run[i], run[i].rows[id].family;
    ChainedAt(s.rows, s.chains, family);
    InheritedAt(cfg, s.rows, s.rotatedAt, s.chains, family);
    NeighboursInherit(cfg, s.rows, s.rotatedAt, family, s.chains[family], id, newId);
  }

  // ----- when a replaced row was revoked -----

  /**
   In step `i` a late refresh that read the row before its rotation, and found it expired since, revokes it
   once more.
   */
  ghost predicate Overwrites(run: seq<Sys>, i: nat, id: RowId)
    requires i + 1 < |run|
  {
    && id in run[i].rows && run[i].rows[id].replacedBy.Some?
    && exists w :: w in run[i].workers && run[i].workers[w] == RefreshExpired(id)
                   && w in run[i + 1].workers && run[i + 1].workers[w].RefreshRejected?
  }

  lemma ReplacedIsRevoked(cfg: Config, s: Sys, id: RowId)
    requires Inv(cfg, s) && id in s.rows && s.rows[id].replacedBy.Some?
    ensures s.rows[id].revokedAt.Some? && s.rows[id].replacedBy.value in s.rows
    ensures s.rows[id].replacedBy.value in s.rotatedAt
  {
    var family := s.rows[id].family;
    ChainedAt(s.rows, s.chains, family);
    InheritedAt(cfg, s.rows, s.rotatedAt, s.chains, family);
    NeighboursInherit(cfg, s.rows, s.rotatedAt, family, s.chains[family], id, s.rows[id].replacedBy.value);
    var k :| 0 <= k < |s.chains[family]| && s.chains[family][k] == id;
    var next := s.chains[family][k + 1];
  }

  lemma StepKeepsRotationTimes(cfg: Config, s: Sys, e: Event, s': Sys, n: RowId)
    requires cfg.Valid() && Step(cfg, s, e, s') && n in s.rotatedAt && n in s.rows
    ensures n in s'.rotatedAt && s'.rotatedAt[n] == s.rotatedAt[n] && s.clock <= s'.clock
  {
  }

  lemma StepOnReplaced(cfg: Config, s: Sys, e: Event, s': Sys, id: RowId)
    requires cfg.Valid() && Step(cfg, s, e, s')
    requires id in s.rows && s.rows[id].replacedBy.Some? && s.rows[id].revokedAt.Some?
    ensures id in s'.rows && s'.rows[id].replacedBy == s.rows[id].replacedBy
    ensures s'.rows[id].revokedAt
            == if e.Advance? && s.workers[e.w] == RefreshExpired(id) then Some(s.clock) else s.rows[id].revokedAt
  {
    if e.Advance? {
      var k, c := s.workers[e.w], e.choice;
      if !Commits(cfg, s.rows, s.clock, k, c) {
        QuietlyOnlyRevokes(cfg, s.rows, s.clock, k, c);
      } else if k.SignInStart? {
        RoomyOnlyRevokes(s.rows, k.user, k.device, c.evicted, s.clock);
      }
    }
  }

  lemma OverwritingStep(cfg: Config, run: seq<Sys>, i: nat, e: Event, id: RowId)
    requires cfg.Valid() && i + 1 < |run| && Step(cfg, run[i], e, run[i + 1])
    requires id in run[i].rows && run[i].rows[id].replacedBy.Some?
    ensures Overwrites(run, i, id) <==> e.Advance? && run[i].workers[e.w] == RefreshExpired(id)
  {
    if e.Advance? && run[i].workers[e.w] == RefreshExpired(id) {
      assert run[i + 1].workers[e.w].RefreshRejected?;
    }
  }

  /** What is known of the revocation time of a replaced row: it is the rotation's or the last overwriting refresh's. */
  ghost predicate RevokedLast(run: seq<Sys>, i: nat, id: RowId, n: RowId)
    requires i < |run| && id in run[i].rows && run[i].rows[id].revokedAt.Some? && n in run[i].rotatedAt
  {
    var t := run[i].rows[id].revokedAt.value;
    && run[i].rotatedAt[n] <= t <= run[i].clock
    && (forall j | 0 <= j < i && Overwrites(run, j, id) :: run[j].clock <= t)
    && (t == run[i].rotatedAt[n] || exists j | 0 <= j < i && Overwrites(run, j, id) :: run[j].clock == t)
  }

  lemma RotationRevokes(cfg: Config, s: Sys, e: Event, s': Sys, id: RowId)
    requires cfg.Valid() && Step(cfg, s, e, s') && id in s'.rows && s'.rows[id].replacedBy.Some?
    requires id !in s.rows || s.rows[id].replacedBy.None?
    ensures var n := s'.rows[id].replacedBy.value;
            && s'.rows[id].revokedAt == Some(s.clock) && n in s'.rotatedAt && s'.rotatedAt[n] == s.clock
                 && s'.clock == s.clock
  {
    if e.Advance? {
      var k, c := s.workers[e.w], e.choice;
      if !Commits(cfg, s.rows, s.clock, k, c) {
        QuietlyOnlyRevokes(cfg, s.rows, s.clock, k, c);
      } else if k.SignInStart? {
        RoomyOnlyRevokes(s.rows, k.user, k.device, c.evicted, s.clock);
      }
    }
  }

  lemma {:induction false} ReplacedStays(cfg: Config, run: seq<Sys>, i: nat, j: nat, id: RowId)
    requires cfg.Valid() && IsRun(cfg, run) && i <= j < |run| && id in run[i].rows && run[i].rows[id].replacedBy.Some?
    ensures id in run[j].rows && run[j].rows[id].replacedBy == run[i].rows[id].replacedBy
    decreases j
  {
    if i == j {
    } else {
      ReplacedStays(cfg, run, i, j - 1, id);
      RunKeepsInv(cfg, run, j - 1);
      assert TakesStep(cfg, run, j - 1);
      var e :| Step(cfg, run[j - 1], e, run[j]);
      ReplacedIsRevoked(cfg, run[j - 1], id);
      StepOnReplaced(cfg, run[j - 1], e, run[j], id);
    }
  }

  lemma StillRevokedLast(run: seq<Sys>, i: nat, id: RowId, n: RowId)
    requires i + 1 < |run| && id in run[i].rows && run[i].rows[id].revokedAt.Some? && n in run[i].rotatedAt
    requires id in run[i + 1].rows && n in run[i + 1].rotatedAt && run[i + 1].rotatedAt[n] == run[i].rotatedAt[n]
    requires run[i].clock <= run[i + 1].clock
    requires run[i + 1].rows[id].revokedAt
             == if Overwrites(run, i, id) then Some(run[i].clock) else run[i].rows[id].revokedAt
    requires RevokedLast(run, i, id, n)
    ensures RevokedLast(run, i + 1, id, n)
  {
  }

  /** Before its rotation a row cannot have been overwritten in the sense above. */
  lemma NotOverwrittenBefore(cfg: Config, run: seq<Sys>, i: nat, j: nat, id: RowId)
    requires cfg.Valid() && IsRun(cfg, run) && j <= i && i + 1 < |run|
    requires id !in run[i].rows || run[i].rows[id].replacedBy.None?
    ensures !Overwrites(run, j, id)
  {
    if id in run[j].rows && run[j].rows[id].replacedBy.Some? {
      ReplacedStays(cfg, run, j, i, id);
    }
  }

  lemma RevokedLastAfter(cfg: Config, run: seq<Sys>, i: nat, e: Event, id: RowId)
    requires cfg.Valid() && i + 1 < |run| && Inv(cfg, run[i]) && Step(cfg, run[i], e, run[i + 1])
    requires id in run[i].rows && run[i].rows[id].replacedBy.Some? && run[i].rows[id].revokedAt.Some?
    requires run[i].rows[id].replacedBy.value in run[i].rotatedAt
    requires RevokedLast(run, i, id, run[i].rows[id].replacedBy.value)
    ensures id in run[i + 1].rows && run[i + 1].rows[id].replacedBy == run[i].rows[id].replacedBy
    ensures run[i + 1].rows[id].revokedAt.Some? && run[i].rows[id].replacedBy.value in run[i + 1].rotatedAt
    ensures RevokedLast(run, i + 1, id, run[i].rows[id].replacedBy.value)
  {
    var n := run[i].rows[id].replacedBy.value;
    ReplacedIsRevoked(cfg, run[i], id);
    StepOnReplaced(cfg, run[i], e, run[i + 1], id);
    StepKeepsRotationTimes(cfg, run[i], e, run[i + 1], n);
    OverwritingStep(cfg, run, i, e, id);
    StillRevokedLast(run, i, id, n);
  }

  /** What the induction below carries along, for a row that may not be replaced yet. */
  ghost predicate IsRevokedLast(run: seq<Sys>, i: nat, id: RowId)
    requires i < |run|
  {
    id in run[i].rows && run[i].rows[id].replacedBy.Some? ==>
      && run[i].rows[id].revokedAt.Some? && run[i].rows[id].replacedBy.value in run[i].rotatedAt
      && RevokedLast(run, i, id, run[i].rows[id].replacedBy.value)
  }

  lemma RevokedLastGoesOn(cfg: Config, run: seq<Sys>, i: nat, id: RowId)
    requires cfg.Valid() && IsRun(cfg, run) && i + 1 < |run| && IsRevokedLast(run, i, id)
    requires id in run[i].rows && run[i].rows[id].replacedBy.Some?
    ensures IsRevokedLast(run, i + 1, id)
  {
    RunKeepsInv(cfg, run, i);
    assert TakesStep(cfg, run, i);
    var e :| Step(cfg, run[i], e, run[i + 1]);
    RevokedLastAfter(cfg, run, i, e, id);
  }

  lemma NeverOverwrittenBefore(cfg: Config, run: seq<Sys>, i: nat, id: RowId)
    requires cfg.Valid() && IsRun(cfg, run) && i + 1 < |run|
    requires id !in run[i].rows || run[i].rows[id].replacedBy.None?
    ensures forall j | 0 <= j <= i :: !Overwrites(run, j, id)
  {
    forall j | 0 <= j <= i ensures !Overwrites(run, j, id) { NotOverwrittenBefore(cfg, run, i, j, id); }
  }

  lemma JustRotated(cfg: Config, run: seq<Sys>, i: nat, id: RowId)
    requires cfg.Valid() && IsRun(cfg, run) && i + 1 < |run|
    requires id !in run[i].rows || run[i].rows[id].replacedBy.None?
    ensures IsRevokedLast(run, i + 1, id)
  {
    NeverOverwrittenBefore(cfg, run, i, id);
    if id in run[i + 1].rows && run[i + 1].rows[id].replacedBy.Some? {
      assert TakesStep(cfg, run, i);
      var e :| Step(cfg, run[i], e, run[i + 1]);
      RotationRevokes(cfg, run[i], e, run[i + 1], id);
    }
  }

  lemma {:induction false} RevokedLastHolds(cfg: Config, run: seq<Sys>, i: nat, id: RowId)
    requires cfg.Valid() && IsRun(cfg, run) && i < |run|
    ensures IsRevokedLast(run, i, id)
    decreases i
  {
    if i == 0 {
    } else {
      RevokedLastHolds(cfg, run, i - 1, id);
      if id in run[i - 1].rows && run[i - 1].rows[id].replacedBy.Some? {
        RevokedLastGoesOn(cfg, run, i - 1, id);
      } else {
        JustRotated(cfg, run, i - 1, id);
      }
    }
  }

  /**
   The revocation time of a replaced row is not that of its rotation exactly when, at some later time, a refresh
   that had read it unrevoked found it expired and revoked it once more.
   */
  lemma RevocationTimeIsLost(cfg: Config, run: seq<Sys>, i: nat, id: RowId)
    requires cfg.Valid() && IsRun(cfg, run) && i < |run| && id in run[i].rows && run[i].rows[id].replacedBy.Some?
    ensures run[i].rows[id].replacedBy.value in run[i].rotatedAt
    ensures var rotated := run[i].rotatedAt[run[i].rows[id].replacedBy.value];
            run[i].rows[id].revokedAt != Some(rotated)
            <==> exists j :: 0 <= j < i && Overwrites(run, j, id) && run[j].clock > rotated
  {
    RevokedLastHolds(cfg, run, i, id);
    var n := run[i].rows[id].replacedBy.value;
    var t, rotated := run[i].rows[id].revokedAt.value, run[i].rotatedAt[n];
    if t != rotated {
      var j :| 0 <= j < i && Overwrites(run, j, id) && run[j].clock == t;
      assert run[j].clock > rotated;
    }
  }

  const SHORT_LIVED := Config(1, 100, 10)

  lemma FirstSignInCommits(s: Sys, s': Sys)
    requires Init(s.(workers := map[])) && s.workers == map[0 := SignInStart(1, None, 0, 0)]
    requires s' == s.(rows := SignIn(SHORT_LIVED, s.rows, 1, None, {}, 0, 0, 0, 5, s.clock),
                      workers := s.workers[0 := SignInDone(0)], chains := s.chains[0 := [0]])
    ensures Step(SHORT_LIVED, s, Advance(0, Choice(None, 0, 5, {}, false)), s')
    ensures s'.rows == map[0 := Row(1, 5, 0, 0, None, s.clock + 10, None, None)]
  {
    var cleared := Revoke(s.rows, UserFamilyRows(s.rows, 1, DeviceFamilies(s.rows, 1, None)), s.clock);
    assert LiveFamilies(cleared, 1) == {};
  }

  lemma Extended(cfg: Config, run: seq<Sys>, e: Event, s: Sys) returns (longer: seq<Sys>)
    requires cfg.Valid() && IsRun(cfg, run) && Step(cfg, run[|run| - 1], e, s)
    ensures IsRun(cfg, longer) && run <= longer && longer[|longer| - 1] == s
  {
    longer := run + [s];
    forall i {:trigger TakesStep(cfg, longer, i)} | 0 <= i < |longer| - 1 ensures TakesStep(cfg, longer, i) {
      if i < |run| - 1 { assert TakesStep(cfg, run, i); }
    }
  }

  lemma SignsIn() returns (run: seq<Sys>)
    ensures IsRun(SHORT_LIVED, run)
    ensures run[|run| - 1] == Sys(map[0 := Row(1, 5, 0, 0, None, 10, None, None)], 0, map[0 := SignInDone(0)],
                                  map[], map[0 := [0]])
  {
    var s0 := Sys(map[], 0, map[], map[], map[]);
    var s1 := s0.(workers := map[0 := SignInStart(1, None, 0, 0)]);
    var s2 := s1.(rows := SignIn(SHORT_LIVED, s1.rows, 1, None, {}, 0, 0, 0, 5, 0),
                  workers := s1.workers[0 := SignInDone(0)], chains := s1.chains[0 := [0]]);
    FirstSignInCommits(s1, s2);
    run := Extended(SHORT_LIVED, [s0], Spawn(0, SignInStart(1, None, 0, 0)), s1);
    run := Extended(SHORT_LIVED, run, Advance(0, Choice(None, 0, 5, {}, false)), s2);
  }

  /** A new refresh gets as far as having read its row. */
  lemma Reads(cfg: Config, run: seq<Sys>, w: WorkerId, id: RowId) returns (longer: seq<Sys>)
    requires cfg.Valid() && IsRun(cfg, run)
    requires w !in run[|run| - 1].workers && id in run[|run| - 1].rows
    ensures IsRun(cfg, longer)
    ensures var s := run[|run| - 1];
            longer[|longer| - 1] == s.(workers := s.workers[w := RefreshRead(id, s.rows[id], None)])
  {
    var s := run[|run| - 1];
    var token := s.rows[id].tokenHash;
    var begun := s.(workers := s.workers[w := RefreshStart(token, None)]);
    var read := s.(workers := s.workers[w := RefreshRead(id, s.rows[id], None)]);
    assert begun.workers[w := RefreshRead(id, s.rows[id], None)] == read.workers;
    longer := Extended(cfg, run, Spawn(w, RefreshStart(token, None)), begun);
    longer := Extended(cfg, longer, Advance(w, Choice(Some(id), 0, 0, {}, false)), read);
  }

  /** A refresh that has read a usable row rotates it. */
  lemma Rotates(cfg: Config, run: seq<Sys>, w: WorkerId, id: RowId, newId: RowId, newHash: TokenHash)
    returns (longer: seq<Sys>)
    requires cfg.Valid() && IsRun(cfg, run)
    requires var s := run[|run| - 1];
             && Claimable(cfg, s.rows, id, s.clock) && FreshRow(s.rows, newId, newHash) && s.rows[id].device.None?
             && w in s.workers && s.workers[w] == RefreshRead(id, s.rows[id], None)
    ensures IsRun(cfg, longer)
    ensures var (s, last) := (run[|run| - 1], longer[|longer| - 1]);
            && last.rows == Rotate(cfg, s.rows, id, None, newId, newHash, s.clock) && last.clock == s.clock
            && last.workers == s.workers[w := RefreshOk(id, newId)] && last.rotatedAt == s.rotatedAt[newId := s.clock]
  {
    var c := Choice(None, newId, newHash, {}, false);
    var s := run[|run| - 1];
    var family := s.rows[id].family;
    var claiming := s.(workers := s.workers[w := RefreshClaim(id, s.rows[id], None)]);
    var rotated := claiming.(rows := Rotate(cfg, s.rows, id, None, newId, newHash, s.clock),
                             workers := claiming.workers[w := RefreshOk(id, newId)],
                             rotatedAt := s.rotatedAt[newId := s.clock],
                             chains := s.chains[family := Chain(s.chains, family) + [newId]]);
    longer := Extended(cfg, run, Advance(w, c), claiming);
    longer := Extended(cfg, longer, Advance(w, c), rotated);
    assert rotated.workers == s.workers[w := RefreshOk(id, newId)];
  }

  /** Any refresh that has read its row unrevoked can come to overwrite the row's revocation time. */
  lemma LateReaderOverwrites(cfg: Config, run: seq<Sys>, w: WorkerId, id: RowId, now: int) returns (longer: seq<Sys>)
    requires cfg.Valid() && IsRun(cfg, run)
    requires var s := run[|run| - 1];
             && w in s.workers && s.workers[w].RefreshRead? && s.workers[w].id == id && id in s.rows
             && s.workers[w].snap.revokedAt.None? && s.clock <= now && s.workers[w].snap.expiresAt <= now
    ensures IsRun(cfg, longer)
    ensures var (s, last) := (run[|run| - 1], longer[|longer| - 1]);
            && last.rotatedAt == s.rotatedAt
            && last.rows == s.rows[id := s.rows[id].(revokedAt := Some(now))]
  {
    var c := Choice(None, 0, 0, {}, false);
    var s := run[|run| - 1];
    var later := s.(clock := now);
    var expired := later.(workers := later.workers[w := RefreshExpired(id)]);
    var last := expired.(rows := expired.rows[id := expired.rows[id].(revokedAt := Some(now))],
                         workers := expired.workers[w := RefreshRejected]);
    longer := Extended(cfg, run, Tick(now), later);
    longer := Extended(cfg, longer, Advance(w, c), expired);
    longer := Extended(cfg, longer, Advance(w, c), last);
  }

  /** The first rotates at time 0; the second goes on at time 10 and overwrites the revocation time. */
  lemma RevocationTimeCanBeLost() returns (run: seq<Sys>)
    ensures IsRun(SHORT_LIVED, run)
    ensures var last := run[|run| - 1];
            && 0 in last.rows && last.rows[0].replacedBy == Some(1)
            && 1 in last.rotatedAt && last.rotatedAt[1] == 0 && last.rows[0].revokedAt == Some(10)
  {
    run := SignsIn();
    run := Reads(SHORT_LIVED, run, 1, 0);
    run := Reads(SHORT_LIVED, run, 2, 0);
    run := Rotates(SHORT_LIVED, run, 1, 0, 1, 6);
    run := LateReaderOverwrites(SHORT_LIVED, run, 2, 0, 10);
  }

  // ----- revocation is final -----

  lemma StepKeepsDead(cfg: Config, s: Sys, e: Event, s': Sys, family: FamilyId)
    requires cfg.Valid() && Step(cfg, s, e, s') && Dead(s.rows, family)
    ensures Dead(s'.rows, family)
  {
    if e.Advance? {
      var k, c := s.workers[e.w], e.choice;
      if !Commits(cfg, s.rows, s.clock, k, c) {
        QuietlyOnlyRevokes(cfg, s.rows, s.clock, k, c);
        RevokingKeepsDead(s.rows, s'.rows, family);
      } else {
        if k.SignInStart? {
          SignInJoins(cfg, s.rows, k.user, k.device, c.evicted, k.family, k.familyCreatedAt, c.newId, c.newHash,
                      s.clock);
        }
        InsertingKeepsDead(s.rows, s'.rows, c.newId, family);
      }
    }
  }

  /** Once no row of a family is usable, none ever is again, whatever calls are still in flight. */
  lemma {:induction false} DeadStaysDead(cfg: Config, run: seq<Sys>, i: nat, j: nat, family: FamilyId)
    requires cfg.Valid() && IsRun(cfg, run) && i <= j < |run| && Dead(run[i].rows, family)
    ensures Dead(run[j].rows, family)
    decreases j
  {
    if i == j {
    } else {
      DeadStaysDead(cfg, run, i, j - 1, family);
      assert TakesStep(cfg, run, j - 1);
      var e :| Step(cfg, run[j - 1], e, run[j]);
      StepKeepsDead(cfg, run[j - 1], e, run[j], family);
    }
  }

  /** A logout that has returned stays in force. */
  lemma LogoutIsFinal(cfg: Config, run: seq<Sys>, i: nat, j: nat, w: WorkerId, family: FamilyId)
    requires cfg.Valid() && IsRun(cfg, run) && i <= j < |run|
    requires w in run[i].workers && run[i].workers[w].LogoutDone? && family in run[i].workers[w].families
    ensures Dead(run[j].rows, family)
  {
    RunKeepsInv(cfg, run, i);
    DeadStaysDead(cfg, run, i, j, family);
  }

  /** Logging out of all devices ends, for good, every family the user had when it committed. */
  lemma AllDevicesLogoutIsFinal(cfg: Config, run: seq<Sys>, i: nat, j: nat, w: WorkerId, id: RowId)
    requires cfg.Valid() && IsRun(cfg, run) && i < j < |run|
    requires w in run[i].workers && run[i].workers[w].LogoutAllStart?
    requires w in run[i + 1].workers && run[i + 1].workers[w].LogoutDone?
    requires id in run[i].rows && run[i].rows[id].user == run[i].workers[w].user
    ensures Dead(run[j].rows, run[i].rows[id].family)
  {
    assert TakesStep(cfg, run, i);
    LogoutIsFinal(cfg, run, i + 1, j, w, run[i].rows[id].family);
  }

  // ----- rotation and reuse -----

  /** Of all refreshes of one token, at most one succeeds. */
  lemma OneRefreshWins(cfg: Config, run: seq<Sys>, i: nat, w: WorkerId, v: WorkerId)
    requires cfg.Valid() && IsRun(cfg, run) && i < |run|
    requires w in run[i].workers && run[i].workers[w].RefreshOk?
    requires v in run[i].workers && run[i].workers[v].RefreshOk?
    requires run[i].workers[w].id in run[i].rows && run[i].workers[v].id in run[i].rows
    requires run[i].rows[run[i].workers[w].id].tokenHash == run[i].rows[run[i].workers[v].id].tokenHash
    ensures w == v
  {
    RunKeepsInv(cfg, run, i);
    assert WorkerOk(run[i].rows, run[i].workers[w]) && WorkerOk(run[i].rows, run[i].workers[v]);
  }

  lemma SuccessorSharesFamily(rows: Rows, family: FamilyId, c: seq<RowId>, id: RowId, newId: RowId)
    requires IsChain(rows, family, c) && id in rows && rows[id].family == family && rows[id].replacedBy == Some(newId)
    ensures newId in rows && rows[newId].family == family
  {
    assert id in c;
    var k :| 0 <= k < |c| && c[k] == id;
    var next := c[k + 1];
  }

  // ----- sign-in and the cap -----

  /** No user ever holds more usable families than configured. */
  lemma LiveFamiliesCapped(cfg: Config, run: seq<Sys>, i: nat, user: UserId)
    requires cfg.Valid() && IsRun(cfg, run) && i < |run|
    ensures |LiveFamilies(run[i].rows, user)| <= cfg.maxFamilies
  {
    RunKeepsInv(cfg, run, i);
  }

  lemma FamilyAge(rows: Rows, family: FamilyId, c: seq<RowId>, user: UserId, id: RowId)
    requires IsChain(rows, family, c) && Live(rows, id) && rows[id].family == family && rows[id].user == user
    ensures IsOldest(rows, user, Group(family, rows[id].familyCreatedAt))
  {
    forall x | x in rows && rows[x].user == user && rows[x].revokedAt.None? && rows[x].family == family
      ensures rows[x].familyCreatedAt == rows[id].familyCreatedAt
    {
      LiveRowIsLast(rows, family, c, x);
      LiveRowIsLast(rows, family, c, id);
    }
  }

  lemma EvictedIsOlder(cfg: Config, cleared: Rows, chains: map<FamilyId, seq<RowId>>, user: UserId,
                       evicted: set<FamilyId>, x: RowId, y: RowId)
    requires cfg.Valid() && Chained(cleared, chains) && EvictsOldest(cfg, cleared, user, evicted)
    requires Live(cleared, x) && cleared[x].user == user && cleared[x].family in evicted
    requires Live(cleared, y) && cleared[y].user == user && cleared[y].family !in evicted
    ensures cleared[x].familyCreatedAt <= cleared[y].familyCreatedAt
  {
    var e, k := cleared[x].family, cleared[y].family;
    ChainedAt(cleared, chains, e);
    ChainedAt(cleared, chains, k);
    FamilyAge(cleared, e, chains[e], user, x);
    FamilyAge(cleared, k, chains[k], user, y);
    assert e in LiveFamilies(cleared, user) && k in LiveFamilies(cleared, user);
  }

  /** The usable row of a family that has one bound to the device is that one. */
  lemma OnDoomedDevice(rows: Rows, chains: map<FamilyId, seq<RowId>>, user: UserId, device: Option<Device>, x: RowId)
    requires Chained(rows, chains) && Live(rows, x) && rows[x].family in DeviceFamilies(rows, user, device)
    ensures device.Some? && rows[x].device == device
  {
    var family := rows[x].family;
    var y :| Live(rows, y) && rows[y].user == user && device.Some? && rows[y].device == device
             && rows[y].family == family;
    ChainedAt(rows, chains, family);
    LiveRowIsLast(rows, family, chains[family], x);
    LiveRowIsLast(rows, family, chains[family], y);
  }

  /** A usable row that a sign-in ended was bound to the device, or belongs to one of the oldest families. */
  lemma SignInEvictsOldest(cfg: Config, rows: Rows, chains: map<FamilyId, seq<RowId>>, user: UserId,
                           device: Option<Device>,
                           evicted: set<FamilyId>, now: int, x: RowId, y: RowId)
    requires cfg.Valid() && Chained(rows, chains)
    requires EvictsOldest(cfg, Cleared(rows, user, device, now), user, evicted)
    requires Live(rows, x) && !Live(Roomy(rows, user, device, evicted, now), x)
    requires Live(Roomy(rows, user, device, evicted, now), y) && rows[y].user == user
    ensures rows[x].user == user
    ensures (device.Some? && rows[x].device == device) || rows[x].familyCreatedAt <= rows[y].familyCreatedAt
  {
    var doomed := DeviceFamilies(rows, user, device);
    var cleared := Revoke(rows, UserFamilyRows(rows, user, doomed), now);
    RevokeOnlyRevokes(rows, UserFamilyRows(rows, user, doomed), now);
    RevokingKeepsChains(rows, cleared, chains);
    if rows[x].family in doomed {
      OnDoomedDevice(rows, chains, user, device, x);
    } else {
      assert x in cleared && cleared[x] == rows[x] && cleared[x].family in evicted;
      assert y in cleared && cleared[y] == rows[y] && cleared[y].family !in evicted;
      EvictedIsOlder(cfg, cleared, chains, user, evicted, x, y);
    }
  }

  lemma RoomyHasNoDeviceRow(rows: Rows, user: UserId, device: Option<Device>, evicted: set<FamilyId>, now: int,
                            x: RowId)
    requires Live(Roomy(rows, user, device, evicted, now), x) && rows[x].user == user && device.Some?
    ensures rows[x].device != device
  {
    var doomed := DeviceFamilies(rows, user, device);
    var cleared := Revoke(rows, UserFamilyRows(rows, user, doomed), now);
    assert cleared[x].revokedAt.None?;
    assert x !in UserFamilyRows(rows, user, doomed);
  }

  lemma SignInCommitted(cfg: Config, run: seq<Sys>, i: nat, w: WorkerId) returns (evicted: set<FamilyId>)
    requires cfg.Valid() && IsRun(cfg, run) && i + 1 < |run|
    requires w in run[i].workers && run[i].workers[w].SignInStart?
    requires w in run[i + 1].workers && run[i + 1].workers[w].SignInDone?
    ensures var (s, k, newId) := (run[i], run[i].workers[w], run[i + 1].workers[w].id);
            && Chained(s.rows, s.chains) && newId !in s.rows
            && EvictsOldest(cfg, Cleared(s.rows, k.user, k.device, s.clock), k.user, evicted)
            && newId in run[i + 1].rows
            && run[i + 1].rows == Roomy(s.rows, k.user, k.device, evicted, s.clock)[newId := run[i + 1].rows[newId]]
            && Live(run[i + 1].rows, newId) && run[i + 1].rows[newId].family == k.family
            && run[i + 1].rows[newId].user == k.user && run[i + 1].rows[newId].device == k.device
  {
    RunKeepsInv(cfg, run, i);
    assert TakesStep(cfg, run, i);
    var e :| Step(cfg, run[i], e, run[i + 1]);
    evicted := e.choice.evicted;
  }

  /** What a committed sign-in leaves behind, in any run. */
  lemma SignInEffect(cfg: Config, run: seq<Sys>, i: nat, w: WorkerId)
    requires cfg.Valid() && IsRun(cfg, run) && i + 1 < |run|
    requires w in run[i].workers && run[i].workers[w].SignInStart?
    requires w in run[i + 1].workers && run[i + 1].workers[w].SignInDone?
    ensures var (k, newId, before, after) := (run[i].workers[w], run[i + 1].workers[w].id, run[i].rows,
                                              run[i + 1].rows);
            // the new family is usable, and bound to the device
            && newId !in before && Live(after, newId) && after[newId].family == k.family
            && after[newId].user == k.user && after[newId].device == k.device
            // no other usable row of the user is bound to this device
            && (forall x | Live(after, x) && x != newId && after[x].user == k.user && k.device.Some? ::
                after[x].device != k.device)
            // whatever else ended was the user's, and no newer than everything of the user's that was kept
            && (forall x, y | Live(before, x) && !Live(after, x)
                              && Live(after, y) && y != newId && after[y].user == k.user ::
                  EndedFairly(before, k.user, k.device, x, after[y].familyCreatedAt))
  {
    var evicted := SignInCommitted(cfg, run, i, w);
    var (k, newId, before, after) := (run[i].workers[w], run[i + 1].workers[w].id, run[i].rows, run[i + 1].rows);
    var (chains, now) := (run[i].chains, run[i].clock);
    var roomy := Roomy(before, k.user, k.device, evicted, now);
    RoomyOnlyRevokes(before, k.user, k.device, evicted, now);
    forall x | Live(after, x) && x != newId && after[x].user == k.user && k.device.Some?
      ensures after[x].device != k.device
    {
      assert Live(roomy, x);
      RoomyHasNoDeviceRow(before, k.user, k.device, evicted, now, x);
    }
    forall x, y | Live(before, x) && !Live(after, x) && Live(after, y) && y != newId && after[y].user == k.user
      ensures EndedFairly(before, k.user, k.device, x, after[y].familyCreatedAt)
    {
      assert Live(roomy, y) && !Live(roomy, x);
      SignInEvictsOldest(cfg, before, chains, k.user, k.device, evicted, now, x, y);
    }
  }

  ghost predicate EndedFairly(before: Rows, user: UserId, device: Option<Device>, x: RowId, keptCreatedAt: int)
    requires x in before
  {
    && before[x].user == user
    && ((device.Some? && before[x].device == device) || before[x].familyCreatedAt <= keptCreatedAt)
  }
}
